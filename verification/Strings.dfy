/** The growable string buffer of src/util.c, and the string-to-list functions of
    src/builtins.c that split and join strings. */
module Strings {
  import opened Values

  // ----- JBuf -----

  /** memcpy */
  method CopyInto(buf: array<char>, at: nat, s: string)
    requires at + |s| <= buf.Length
    modifies buf
    ensures buf[..at + |s|] == old(buf[..at]) + s
  {
    for i := 0 to |s|
      invariant buf[..at + i] == old(buf[..at]) + s[..i]
    {
      buf[at + i] := s[i];
      assert buf[..at + i + 1] == buf[..at + i] + [s[i]];
    }
    assert s[..|s|] == s;
  }

  class JBuf {
    var buf: array<char>
    var len: nat

    /** The contents end before the last cell, which leaves room for the terminator; and
        the buffer has grown to no more than twice what it needed. */
    ghost predicate Valid()
      reads this, buf
    {
      && (len < buf.Length || (len == 0 && buf.Length == 0))
      && (buf.Length <= 64 || buf.Length <= 2 * len + 1)
    }

    function Contents(): (s: string)
      requires Valid()
      reads this, buf
    {
      buf[..len]
    }

    /** jbuf_init */
    constructor ()
      ensures Valid() && fresh(buf) && Contents() == ""
    {
      buf := new char[0];
      len := 0;
    }

    /** jbuf_reserve: doubles the capacity until `need` more characters and a terminator fit. */
    method Reserve(need: nat)
      requires Valid()
      modifies `buf
      ensures len + need + 1 <= buf.Length && buf[..len] == old(buf[..len])
      ensures buf == old(buf) || fresh(buf)
      ensures buf.Length <= 64 || buf.Length <= 2 * (len + need) + 1
    {
      if len + need + 1 > buf.Length {
        var nc := if buf.Length > 0 then buf.Length * 2 else 64;
        while nc < len + need + 1
          invariant nc > 0 && (nc <= 64 || nc <= 2 * (len + need) + 1)
          decreases len + need + 1 - nc
        {
          nc := nc * 2;
        }
        var grown := new char[nc];
        CopyInto(grown, 0, buf[..len]);
        buf := grown;
      }
    }

    /** jbuf_append */
    method Append(s: string)
      requires Valid()
      modifies this, buf
      ensures Valid() && Contents() == old(Contents()) + s
      ensures buf == old(buf) || fresh(buf)
      ensures len < buf.Length && buf[len] == '\0'
    {
      Reserve(|s|);
      CopyInto(buf, len, s);
      len := len + |s|;
      buf[len] := '\0';
    }
  }

  // ----- joining -----

  /** The pieces with the separator between them. */
  function Join(ps: seq<string>, sep: string): string {
    if ps == [] then "" else if |ps| == 1 then ps[0] else ps[0] + (sep + Join(ps[1..], sep))
  }

  lemma {:induction false} JoinLast(ps: seq<string>, p: string, sep: string)
    requires ps != []
    ensures Join(ps + [p], sep) == Join(ps, sep) + (sep + p)
    decreases |ps|
  {
    if |ps| > 1 {
      JoinLast(ps[1..], p, sep);
      assert (ps + [p])[1..] == ps[1..] + [p];
    } else {
      assert (ps + [p])[1..] == [p];
    }
  }

  /** llDumpList2String of a list of strings; shown values of other types take their place. */
  method DumpList2String(items: seq<string>, sep: string) returns (s: string)
    ensures s == Join(items, sep)
  {
    var b := new JBuf();
    for i := 0 to |items|
      invariant b.Valid() && fresh(b) && fresh(b.buf) && b.Contents() == Join(items[..i], sep)
    {
      if i > 0 { b.Append(sep); }
      b.Append(items[i]);
      assert items[..i + 1] == items[..i] + [items[i]];
      if i > 0 { JoinLast(items[..i], items[i], sep); }
    }
    assert items[..|items|] == items;
    s := b.Contents();
  }

  // ----- splitting -----

  predicate Here(src: string, p: nat, t: string) { p + |t| <= |src| && src[p..p + |t|] == t }

  /** The first of the texts that stands at p: strings only, and no empty ones. */
  function Match(src: string, p: nat, texts: seq<SValue>): (m: string)
    ensures m != "" ==> p + |m| <= |src| && Here(src, p, m) && Str(m) in texts
  {
    if texts == [] then ""
    else if texts[0].Str? && texts[0].text != "" && Here(src, p, texts[0].text) then texts[0].text
    else Match(src, p, texts[1..])
  }

  /** What the loop of parse_string2list still produces at pos, in a piece begun at start. */
  function Pieces(src: string, pos: nat, start: nat, seps: seq<SValue>, spcs: seq<SValue>, keep: bool): seq<string>
    requires start <= pos <= |src|
    decreases |src| - pos
  {
    if pos == |src| then if start < |src| || keep then [src[start..]] else []
    else
      var m, c := Match(src, pos, seps), Match(src, pos, spcs);
      var piece := if pos > start || keep then [src[start..pos]] else [];
      if m != "" then piece + Pieces(src, pos + |m|, pos + |m|, seps, spcs, keep)
      else if c != "" then piece + ([c] + Pieces(src, pos + |c|, pos + |c|, seps, spcs, keep))
      else Pieces(src, pos + 1, start, seps, spcs, keep)
  }

  function Parse(src: string, seps: seq<SValue>, spcs: seq<SValue>, keep: bool): seq<string> {
    Pieces(src, 0, 0, seps, spcs, keep)
  }

  /** One round of the loop, with what it adds to the result so far. */
  lemma {:induction false} PiecesStep(out: seq<string>, src: string, pos: nat, start: nat, seps: seq<SValue>,
                                      spcs: seq<SValue>, keep: bool)
    requires start <= pos < |src|
    ensures var m, c := Match(src, pos, seps), Match(src, pos, spcs);
            var now := if pos > start || keep then out + [src[start..pos]] else out;
            out + Pieces(src, pos, start, seps, spcs, keep) ==
            if m != "" then now + Pieces(src, pos + |m|, pos + |m|, seps, spcs, keep)
            else if c != "" then (now + [c]) + Pieces(src, pos + |c|, pos + |c|, seps, spcs, keep)
            else out + Pieces(src, pos + 1, start, seps, spcs, keep)
  {
    hide Match, Here, Pieces;
    if Match(src, pos, seps) != "" {
      SeparatorStep(out, src, pos, start, seps, spcs, keep);
    } else if Match(src, pos, spcs) != "" {
      SpacerStep(out, src, pos, start, seps, spcs, keep);
    } else {
      PiecesFrom(src, pos, start, seps, spcs, keep);
    }
  }

  lemma {:induction false} SeparatorStep(out: seq<string>, src: string, pos: nat, start: nat, seps: seq<SValue>,
                                         spcs: seq<SValue>, keep: bool)
    requires start <= pos < |src| && Match(src, pos, seps) != ""
    ensures var next := pos + |Match(src, pos, seps)|;
            out + Pieces(src, pos, start, seps, spcs, keep) ==
            (if pos > start || keep then out + [src[start..pos]] else out) + Pieces(src, next, next, seps, spcs, keep)
  {
    hide Match, Here, Pieces;
    var next := pos + |Match(src, pos, seps)|;
    PiecesFrom(src, pos, start, seps, spcs, keep);
    Maybe(out, src[start..pos], pos > start || keep);
    Assoc(out, if pos > start || keep then [src[start..pos]] else [], Pieces(src, next, next, seps, spcs, keep));
  }

  lemma {:induction false} SpacerStep(out: seq<string>, src: string, pos: nat, start: nat, seps: seq<SValue>,
                                      spcs: seq<SValue>, keep: bool)
    requires start <= pos < |src| && Match(src, pos, seps) == "" && Match(src, pos, spcs) != ""
    ensures var c := Match(src, pos, spcs);
            out + Pieces(src, pos, start, seps, spcs, keep) ==
            ((if pos > start || keep then out + [src[start..pos]] else out) + [c]) +
            Pieces(src, pos + |c|, pos + |c|, seps, spcs, keep)
  {
    hide Match, Here, Pieces;
    var c := Match(src, pos, spcs);
    PiecesFrom(src, pos, start, seps, spcs, keep);
    Maybe(out, src[start..pos], pos > start || keep);
    AssocFour(out, if pos > start || keep then [src[start..pos]] else [], c,
              Pieces(src, pos + |c|, pos + |c|, seps, spcs, keep));
  }

  lemma {:induction false} Maybe(out: seq<string>, x: string, add: bool)
    ensures (if add then out + [x] else out) == out + if add then [x] else []
  {
  }

  lemma {:induction false} AssocFour(a: seq<string>, b: seq<string>, c: string, d: seq<string>)
    ensures a + (b + ([c] + d)) == ((a + b) + [c]) + d
  {
  }

  lemma {:induction false} PiecesFrom(src: string, pos: nat, start: nat, seps: seq<SValue>, spcs: seq<SValue>,
                                      keep: bool)
    requires start <= pos < |src|
    ensures var m, c := Match(src, pos, seps), Match(src, pos, spcs);
            var piece := if pos > start || keep then [src[start..pos]] else [];
            Pieces(src, pos, start, seps, spcs, keep) ==
            if m != "" then piece + Pieces(src, pos + |m|, pos + |m|, seps, spcs, keep)
            else if c != "" then piece + ([c] + Pieces(src, pos + |c|, pos + |c|, seps, spcs, keep))
            else Pieces(src, pos + 1, start, seps, spcs, keep)
  {
    hide Match, Here;
  }

  lemma {:induction false} Assoc(a: seq<string>, b: seq<string>, c: seq<string>)
    ensures (a + b) + c == a + (b + c) && a + [] == a
  {
  }

  method FirstMatch(src: string, p: nat, texts: seq<SValue>) returns (m: string)
    requires p <= |src|
    ensures m == Match(src, p, texts)
  {
    assert texts[0..] == texts;
    for i := 0 to |texts|
      invariant Match(src, p, texts[i..]) == Match(src, p, texts)
    {
      assert texts[i..][1..] == texts[i + 1..];
      if texts[i].Str? && texts[i].text != "" && p + |texts[i].text| <= |src|
          && src[p..p + |texts[i].text|] == texts[i].text {
        return texts[i].text;
      }
    }
    m := "";
  }

  /** parse_string2list: llParseStringKeepNulls with `keep`, llParseString2List without. */
  method ParseString2List(src: string, seps: seq<SValue>, spcs: seq<SValue>, keep: bool) returns (out: seq<string>)
    ensures out == Parse(src, seps, spcs, keep)
  {
    hide Match, Pieces;
    out := [];
    var pos, start := 0, 0;
    while pos < |src|
      invariant 0 <= start <= pos <= |src|
      invariant Parse(src, seps, spcs, keep) == out + Pieces(src, pos, start, seps, spcs, keep)
    {
      PiecesStep(out, src, pos, start, seps, spcs, keep);
      var m := FirstMatch(src, pos, seps);
      var spacer := false;
      if m == "" {
        m := FirstMatch(src, pos, spcs);
        spacer := true;
      }
      if m != "" {
        if pos > start || keep { out := out + [src[start..pos]]; }
        if spacer { out := out + [m]; }
        pos := pos + |m|;
        start := pos;
      } else {
        pos := pos + 1;
      }
    }
    PiecesEnd(src, start, seps, spcs, keep);
    if start < |src| || keep { out := out + [src[start..]]; }
  }

  lemma PiecesEnd(src: string, start: nat, seps: seq<SValue>, spcs: seq<SValue>, keep: bool)
    requires start <= |src|
    ensures Pieces(src, |src|, start, seps, spcs, keep) == if start < |src| || keep then [src[start..]] else []
  {
  }

  // ----- laws -----

  function NonEmpty(ps: seq<string>): (r: seq<string>)
    ensures "" !in r && forall p :: p in r ==> p in ps
  {
    if ps == [] then [] else if ps[0] == "" then NonEmpty(ps[1..]) else [ps[0]] + NonEmpty(ps[1..])
  }

  lemma {:induction false} NonEmptyOne(p: string)
    ensures NonEmpty([p]) == if p == "" then [] else [p]
  {
    assert [p][1..] == [] && NonEmpty([]) == [];
  }

  lemma NonEmptyNone()
    ensures NonEmpty([]) == []
  {
  }

  lemma {:induction false} NonEmptyConcat(a: seq<string>, b: seq<string>)
    ensures NonEmpty(a + b) == NonEmpty(a) + NonEmpty(b)
    decreases |a|
  {
    if a == [] {
      assert a + b == b;
    } else {
      assert (a + b)[1..] == a[1..] + b;
      NonEmptyConcat(a[1..], b);
    }
  }

  /** llParseString2List is llParseStringKeepNulls without the empty strings, for all
      separators and spacers. */
  lemma {:induction false} WithoutNulls(src: string, pos: nat, start: nat, seps: seq<SValue>, spcs: seq<SValue>)
    requires start <= pos <= |src|
    ensures Pieces(src, pos, start, seps, spcs, false) == NonEmpty(Pieces(src, pos, start, seps, spcs, true))
    decreases |src| - pos
  {
    hide Match, NonEmpty, Here, Pieces;
    if pos == |src| {
      NullsAtEnd(src, start, seps, spcs);
    } else if Match(src, pos, seps) != "" {
      var next := pos + |Match(src, pos, seps)|;
      WithoutNulls(src, next, next, seps, spcs);
      NullsAtSeparator(src, pos, start, seps, spcs);
    } else if Match(src, pos, spcs) != "" {
      var next := pos + |Match(src, pos, spcs)|;
      WithoutNulls(src, next, next, seps, spcs);
      NullsAtSpacer(src, pos, start, seps, spcs);
    } else {
      WithoutNulls(src, pos + 1, start, seps, spcs);
      PiecesFrom(src, pos, start, seps, spcs, false);
      PiecesFrom(src, pos, start, seps, spcs, true);
    }
  }

  lemma {:induction false} NullsAtEnd(src: string, start: nat, seps: seq<SValue>, spcs: seq<SValue>)
    requires start <= |src|
    ensures Pieces(src, |src|, start, seps, spcs, false) == NonEmpty(Pieces(src, |src|, start, seps, spcs, true))
  {
    hide Match, NonEmpty;
    NonEmptyNone();
    NonEmptyOne(src[start..]);
  }

  lemma {:induction false} NullsAtSeparator(src: string, pos: nat, start: nat, seps: seq<SValue>, spcs: seq<SValue>)
    requires start <= pos < |src| && Match(src, pos, seps) != ""
    requires var next := pos + |Match(src, pos, seps)|;
             Pieces(src, next, next, seps, spcs, false) == NonEmpty(Pieces(src, next, next, seps, spcs, true))
    ensures Pieces(src, pos, start, seps, spcs, false) == NonEmpty(Pieces(src, pos, start, seps, spcs, true))
  {
    hide Match, NonEmpty, Here, Pieces;
    var next := pos + |Match(src, pos, seps)|;
    PiecesFrom(src, pos, start, seps, spcs, false);
    PiecesFrom(src, pos, start, seps, spcs, true);
    NonEmptyPiece(src[start..pos], Pieces(src, next, next, seps, spcs, true));
  }

  lemma {:induction false} NullsAtSpacer(src: string, pos: nat, start: nat, seps: seq<SValue>, spcs: seq<SValue>)
    requires start <= pos < |src| && Match(src, pos, seps) == "" && Match(src, pos, spcs) != ""
    requires var next := pos + |Match(src, pos, spcs)|;
             Pieces(src, next, next, seps, spcs, false) == NonEmpty(Pieces(src, next, next, seps, spcs, true))
    ensures Pieces(src, pos, start, seps, spcs, false) == NonEmpty(Pieces(src, pos, start, seps, spcs, true))
  {
    hide Match, NonEmpty, Here, Pieces;
    var c := Match(src, pos, spcs);
    PiecesFrom(src, pos, start, seps, spcs, false);
    PiecesFrom(src, pos, start, seps, spcs, true);
    NonEmptySpacer(src[start..pos], c, Pieces(src, pos + |c|, pos + |c|, seps, spcs, true));
  }

  lemma {:induction false} NonEmptyPiece(t: string, rest: seq<string>)
    ensures NonEmpty([t] + rest) == (if |t| > 0 then [t] else []) + NonEmpty(rest)
  {
    hide NonEmpty;
    NonEmptyConcat([t], rest);
    NonEmptyOne(t);
  }

  lemma {:induction false} NonEmptySpacer(t: string, c: string, rest: seq<string>)
    requires c != ""
    ensures NonEmpty([t] + ([c] + rest)) == (if |t| > 0 then [t] else []) + ([c] + NonEmpty(rest))
  {
    hide NonEmpty;
    NonEmptyPiece(t, [c] + rest);
    NonEmptyPiece(c, rest);
  }

  /** t is no part of s. */
  predicate Free(s: string, t: string) { forall p :: 0 <= p <= |s| ==> !Here(s, p, t) }

  /** Splitting at one separator and keeping empty pieces loses nothing: joining the pieces
      with the separator gives the string back, and no piece contains the separator. */
  lemma {:induction false} JoinPieces(src: string, pos: nat, start: nat, sep: string)
    requires start <= pos <= |src| && sep != ""
    requires forall p :: start <= p < pos ==> !Here(src, p, sep)
    ensures var ps := Pieces(src, pos, start, [Str(sep)], [], true);
            ps != [] && Join(ps, sep) == src[start..] && forall p :: p in ps ==> Free(p, sep)
    decreases |src| - pos
  {
    hide Match, Free;
    var seps := [Str(sep)];
    var ps := Pieces(src, pos, start, seps, [], true);
    OneSeparator(src, pos, sep);
    if pos == |src| {
      FreePiece(src, start, pos, sep);
      assert src[start..pos] == src[start..];
    } else if Here(src, pos, sep) {
      var next := pos + |sep|;
      JoinPieces(src, next, next, sep);
      FreePiece(src, start, pos, sep);
      var rest := Pieces(src, next, next, seps, [], true);
      assert ps == [src[start..pos]] + rest && ps[1..] == rest;
      assert src[start..] == src[start..pos] + (src[pos..next] + src[next..]);
    } else {
      JoinPieces(src, pos + 1, start, sep);
    }
  }

  lemma {:induction false} OneSeparator(src: string, pos: nat, sep: string)
    requires sep != ""
    ensures Match(src, pos, []) == "" && Match(src, pos, [Str(sep)]) == if Here(src, pos, sep) then sep else ""
  {
    assert [Str(sep)][1..] == [];
  }

  lemma {:induction false} SubSlice(s: string, b: nat, e: nat, i: nat, j: nat)
    requires b <= e <= |s| && i <= j <= e - b
    ensures s[b..e][i..j] == s[b + i..b + j]
  {
    var t := s[b..e];
    forall k | 0 <= k < j - i ensures t[i..j][k] == s[b + i..b + j][k] {
      assert t[i..j][k] == t[i + k] == s[b + (i + k)];
    }
  }

  lemma {:induction false} FreePiece(src: string, start: nat, pos: nat, sep: string)
    requires start <= pos <= |src| && sep != ""
    requires forall p :: start <= p < pos ==> !Here(src, p, sep)
    ensures Free(src[start..pos], sep)
  {
    var piece := src[start..pos];
    forall p | 0 <= p <= |piece| ensures !Here(piece, p, sep) {
      if Here(piece, p, sep) { SubSlice(src, start, pos, p, p + |sep|); }
      assert start + p < pos ==> !Here(src, start + p, sep);
    }
  }

  function Concat(ps: seq<string>): string { if ps == [] then "" else ps[0] + Concat(ps[1..]) }

  lemma {:induction false} ConcatConcat(a: seq<string>, b: seq<string>)
    ensures Concat(a + b) == Concat(a) + Concat(b)
    decreases |a|
  {
    if a == [] {
      assert a + b == b;
    } else {
      assert (a + b)[1..] == a[1..] + b;
      ConcatConcat(a[1..], b);
    }
  }

  /** Spacers are kept: splitting at spacers alone, the pieces make up the string. */
  lemma {:induction false} SpacersKept(src: string, pos: nat, start: nat, spcs: seq<SValue>, keep: bool)
    requires start <= pos <= |src|
    ensures Concat(Pieces(src, pos, start, [], spcs, keep)) == src[start..]
    decreases |src| - pos
  {
    hide Match;
    NoTexts(src, pos);
    if pos < |src| {
      var c := Match(src, pos, spcs);
      if c != "" {
        var next := pos + |c|;
        SpacersKept(src, next, next, spcs, keep);
        var rest := Pieces(src, next, next, [], spcs, keep);
        ThreeTexts(src, start, pos, c, keep, rest);
      } else {
        SpacersKept(src, pos + 1, start, spcs, keep);
      }
    } else {
      OneText(src[start..]);
    }
  }

  /** The piece before a spacer, if it is kept, the spacer, and the pieces behind. */
  lemma {:induction false} ThreeTexts(src: string, start: nat, pos: nat, c: string, keep: bool, rest: seq<string>)
    requires start <= pos <= pos + |c| <= |src| && c == src[pos..pos + |c|]
    requires Concat(rest) == src[pos + |c|..]
    ensures var piece := if pos > start || keep then [src[start..pos]] else [];
            Concat(piece + ([c] + rest)) == src[start..]
  {
    hide Concat;
    var piece := if pos > start || keep then [src[start..pos]] else [];
    ConcatConcat(piece, [c] + rest);
    ConcatConcat([c], rest);
    OneText(c);
    OneText(src[start..pos]);
    assert Concat(piece) == src[start..pos];
    assert src[start..] == src[start..pos] + (src[pos..pos + |c|] + src[pos + |c|..]);
  }

  lemma NoTexts(src: string, pos: nat)
    ensures Match(src, pos, []) == ""
  {
  }

  lemma OneText(t: string)
    ensures Concat([t]) == t && Concat([]) == ""
  {
    assert [t][1..] == [];
  }
}
