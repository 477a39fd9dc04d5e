/** llParseString2List and llParseStringKeepNulls, against a description of how a string is cut
    that does not follow the loop. */
module Splitting {
  import opened Values
  import opened Strings

  // ----- what stands where -----

  /** A non-empty string of a list of separators stands at p. Other values never do. */
  predicate Stands(src: string, p: nat, v: SValue) {
    v.Str? && v.text != "" && p + |v.text| <= |src| && forall k :: 0 <= k < |v.text| ==> src[p + k] == v.text[k]
  }

  predicate NothingStands(src: string, p: nat, texts: seq<SValue>) {
    forall i :: 0 <= i < |texts| ==> !Stands(src, p, texts[i])
  }

  predicate FirstAt(src: string, p: nat, texts: seq<SValue>, i: nat)
    requires i < |texts|
  {
    Stands(src, p, texts[i]) && forall j :: 0 <= j < i ==> !Stands(src, p, texts[j])
  }

  /** t is the first of the texts, in the order of the list, that stands at p. */
  predicate FirstStanding(src: string, p: nat, texts: seq<SValue>, t: string) {
    exists i :: 0 <= i < |texts| && FirstAt(src, p, texts, i) && texts[i] == Str(t)
  }

  lemma StandsIsHere(src: string, p: nat, v: SValue)
    ensures Stands(src, p, v) <==> v.Str? && v.text != "" && Here(src, p, v.text)
  {
    if v.Str? && p + |v.text| <= |src| {
      var t := src[p..p + |v.text|];
      assert forall k :: 0 <= k < |v.text| ==> t[k] == src[p + k];
    }
  }

  /** The scan over a list of texts finds nothing exactly when none of them stands there, and
      otherwise the first that does. */
  lemma {:induction false} MatchIs(src: string, p: nat, texts: seq<SValue>)
    ensures Match(src, p, texts) == "" <==> NothingStands(src, p, texts)
    ensures Match(src, p, texts) != "" ==> FirstStanding(src, p, texts, Match(src, p, texts))
    decreases |texts|
  {
    hide Stands, Here;
    if texts != [] {
      var rest := texts[1..];
      StandsIsHere(src, p, texts[0]);
      MatchIs(src, p, rest);
      if Stands(src, p, texts[0]) {
        assert FirstAt(src, p, texts, 0);
      } else {
        assert forall j :: 0 < j < |texts| ==> texts[j] == rest[j - 1];
        assert forall j :: 0 <= j < |rest| ==> rest[j] == texts[j + 1];
        var m := Match(src, p, rest);
        if m != "" {
          var i :| 0 <= i < |rest| && FirstAt(src, p, rest, i) && rest[i] == Str(m);
          assert FirstAt(src, p, texts, i + 1);
        }
      }
    }
  }

  lemma OnlyOneFirst(src: string, p: nat, texts: seq<SValue>, t: string, u: string)
    requires FirstStanding(src, p, texts, t) && FirstStanding(src, p, texts, u)
    ensures t == u
  {
    hide Stands;
    var i :| 0 <= i < |texts| && FirstAt(src, p, texts, i) && texts[i] == Str(t);
    var j :| 0 <= j < |texts| && FirstAt(src, p, texts, j) && texts[j] == Str(u);
  }

  lemma FirstIsMatch(src: string, p: nat, texts: seq<SValue>, t: string)
    requires FirstStanding(src, p, texts, t)
    ensures Match(src, p, texts) == t && !NothingStands(src, p, texts) && t != "" && p + |t| <= |src|
    ensures src[p..p + |t|] == t
  {
    hide Match;
    var i :| 0 <= i < |texts| && FirstAt(src, p, texts, i) && texts[i] == Str(t);
    StandsIsHere(src, p, texts[i]);
    MatchIs(src, p, texts);
    OnlyOneFirst(src, p, texts, t, Match(src, p, texts));
  }

  // ----- cutting a string -----

  /** A string in pieces, with what stands between them; spacers are kept in the result. */
  datatype Cuts = End(piece: string) | Cut(piece: string, mark: string, spacer: bool, rest: Cuts)

  /** From position `at` on the string is cut like this: nothing stands at any place of a piece;
      a piece ends at the end of the string or where something stands; that is the first
      separator that stands there, and only where none does the first spacer. */
  predicate CutAt(src: string, at: nat, c: Cuts, seps: seq<SValue>, spcs: seq<SValue>)
    decreases c
  {
    var e := at + |c.piece|;
    && e <= |src| && src[at..e] == c.piece
    && (forall p :: at <= p < e ==> NothingStands(src, p, seps) && NothingStands(src, p, spcs))
    && match c
       case End(_) => e == |src|
       case Cut(_, mark, spacer, rest) =>
         && spacer == NothingStands(src, e, seps)
         && FirstStanding(src, e, if spacer then spcs else seps, mark)
         && CutAt(src, e + |mark|, rest, seps, spcs)
  }

  /** All of it, one behind the other. */
  function Whole(c: Cuts): string {
    match c
    case End(piece) => piece
    case Cut(piece, mark, _, rest) => piece + (mark + Whole(rest))
  }

  /** What the script gets to see. */
  function Shown(c: Cuts, keep: bool): seq<string> {
    var piece := if keep || c.piece != "" then [c.piece] else [];
    match c
    case End(_) => piece
    case Cut(_, mark, spacer, rest) => piece + ((if spacer then [mark] else []) + Shown(rest, keep))
  }

  /** The pieces, and what they are cut by, make up the string. */
  lemma {:induction false} CutsAreWhole(src: string, at: nat, c: Cuts, seps: seq<SValue>, spcs: seq<SValue>)
    requires CutAt(src, at, c, seps, spcs)
    ensures at <= |src| && Whole(c) == src[at..]
    decreases c
  {
    hide NothingStands, FirstStanding;
    var e := at + |c.piece|;
    if c.Cut? {
      FirstIsMatch(src, e, if c.spacer then spcs else seps, c.mark);
      CutsAreWhole(src, e + |c.mark|, c.rest, seps, spcs);
      assert src[at..] == src[at..e] + (src[e..e + |c.mark|] + src[e + |c.mark|..]);
    }
  }

  /** While nothing stands, the loop moves on. */
  lemma {:induction false} Skips(src: string, start: nat, pos: nat, e: nat, seps: seq<SValue>, spcs: seq<SValue>,
                                 keep: bool)
    requires start <= pos <= e <= |src|
    requires forall p :: pos <= p < e ==> NothingStands(src, p, seps) && NothingStands(src, p, spcs)
    ensures Pieces(src, pos, start, seps, spcs, keep) == Pieces(src, e, start, seps, spcs, keep)
    decreases e - pos
  {
    hide NothingStands, Match, Pieces;
    if pos < e {
      MatchIs(src, pos, seps);
      MatchIs(src, pos, spcs);
      PiecesFrom(src, pos, start, seps, spcs, keep);
      Skips(src, start, pos + 1, e, seps, spcs, keep);
    }
  }

  lemma {:induction false} PiecesAreShown(src: string, at: nat, c: Cuts, seps: seq<SValue>, spcs: seq<SValue>,
                                          keep: bool)
    requires CutAt(src, at, c, seps, spcs)
    ensures at <= |src| && Pieces(src, at, at, seps, spcs, keep) == Shown(c, keep)
    decreases c
  {
    hide NothingStands, FirstStanding, Match, Pieces;
    var e := at + |c.piece|;
    Skips(src, at, at, e, seps, spcs, keep);
    match c
    case End(_) =>
      PiecesEnd(src, at, seps, spcs, keep);
      assert src[at..] == src[at..e];
    case Cut(_, mark, spacer, rest) =>
      FirstIsMatch(src, e, if spacer then spcs else seps, mark);
      MatchIs(src, e, seps);
      PiecesAreShown(src, e + |mark|, rest, seps, spcs, keep);
      PiecesFrom(src, e, at, seps, spcs, keep);
  }

  /** However a string is cut in this way, parsing shows that. */
  lemma ParseIs(src: string, c: Cuts, seps: seq<SValue>, spcs: seq<SValue>, keep: bool)
    requires CutAt(src, 0, c, seps, spcs)
    ensures Parse(src, seps, spcs, keep) == Shown(c, keep) && Whole(c) == src
  {
    PiecesAreShown(src, 0, c, seps, spcs, keep);
    CutsAreWhole(src, 0, c, seps, spcs);
  }

  /** Every string can be cut in this way, for all separators and spacers. */
  lemma {:induction false} CutsExist(src: string, pos: nat, start: nat, seps: seq<SValue>, spcs: seq<SValue>)
    returns (c: Cuts)
    requires start <= pos <= |src|
    requires forall p :: start <= p < pos ==> NothingStands(src, p, seps) && NothingStands(src, p, spcs)
    ensures CutAt(src, start, c, seps, spcs)
    decreases |src| - pos
  {
    hide NothingStands, FirstStanding, Match;
    var piece := src[start..pos];
    if pos == |src| { return End(piece); }
    MatchIs(src, pos, seps);
    MatchIs(src, pos, spcs);
    if NothingStands(src, pos, seps) && NothingStands(src, pos, spcs) {
      c := CutsExist(src, pos + 1, start, seps, spcs);
    } else {
      var spacer := NothingStands(src, pos, seps);
      var mark := Match(src, pos, if spacer then spcs else seps);
      var rest := CutsExist(src, pos + |mark|, pos + |mark|, seps, spcs);
      c := Cut(piece, mark, spacer, rest);
    }
  }

  /** And in one way only. */
  lemma {:induction false} CutsAreUnique(src: string, at: nat, c: Cuts, d: Cuts, seps: seq<SValue>, spcs: seq<SValue>)
    requires CutAt(src, at, c, seps, spcs) && CutAt(src, at, d, seps, spcs)
    ensures c == d
    decreases c
  {
    hide NothingStands, FirstStanding;
    PieceEnds(src, at, c, d, seps, spcs);
    PieceEnds(src, at, d, c, seps, spcs);
    var e := at + |c.piece|;
    if c.Cut? {
      FirstIsMatch(src, e, if c.spacer then spcs else seps, c.mark);
      if d.Cut? {
        OnlyOneFirst(src, e, if c.spacer then spcs else seps, c.mark, d.mark);
        CutsAreUnique(src, e + |c.mark|, c.rest, d.rest, seps, spcs);
      }
    } else if d.Cut? {
      FirstIsMatch(src, e, if d.spacer then spcs else seps, d.mark);
    }
  }

  /** A piece goes on as long as nothing stands. */
  lemma PieceEnds(src: string, at: nat, c: Cuts, d: Cuts, seps: seq<SValue>, spcs: seq<SValue>)
    requires CutAt(src, at, c, seps, spcs) && CutAt(src, at, d, seps, spcs)
    ensures |c.piece| <= |d.piece|
  {
    hide NothingStands, FirstStanding;
    var e := at + |d.piece|;
    if |d.piece| < |c.piece| && d.Cut? { FirstIsMatch(src, e, if d.spacer then spcs else seps, d.mark); }
  }

  /** llParseString2List and llParseStringKeepNulls of every string, with all separators and
      spacers: there is one way to cut it, and that is what they show. */
  lemma ParseCuts(src: string, seps: seq<SValue>, spcs: seq<SValue>) returns (c: Cuts)
    ensures CutAt(src, 0, c, seps, spcs) && Whole(c) == src
    ensures forall d :: CutAt(src, 0, d, seps, spcs) ==> d == c
    ensures forall keep :: Parse(src, seps, spcs, keep) == Shown(c, keep)
  {
    c := CutsExist(src, 0, 0, seps, spcs);
    forall keep ensures Parse(src, seps, spcs, keep) == Shown(c, keep) && Whole(c) == src {
      ParseIs(src, c, seps, spcs, keep);
    }
    assert Parse(src, seps, spcs, true) == Shown(c, true);
    forall d | CutAt(src, 0, d, seps, spcs) ensures d == c { CutsAreUnique(src, 0, d, c, seps, spcs); }
  }
}
