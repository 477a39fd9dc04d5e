/** The pointer-walking loops of src/builtins.c over JSON text, each proved to compute the
    function of module Json that describes it. */
module JsonText {
  import opened Json
  import opened JsonGrammar
  import opened JsonLaws
  import opened JsonEndings
  import Strings

  method JsonSkipWs(s: string, p: nat) returns (r: nat)
    requires p <= |s|
    ensures r == SkipWs(s, p)
  {
    r := p;
    while r < |s| && IsWs(s[r])
      invariant p <= r <= |s| && SkipWs(s, r) == SkipWs(s, p)
    {
      r := r + 1;
    }
  }

  method JsonWalkStr(s: string, p: nat) returns (r: nat)
    requires p <= |s|
    ensures r == WalkStr(s, p)
  {
    if !Has(s, p, '"') { return p; }
    r := p + 1;
    while r < |s|
      invariant p < r <= |s| && StrEnd(s, r) == StrEnd(s, p + 1)
    {
      if s[r] == '\\' && r + 1 < |s| {
        r := r + 2;
      } else if s[r] == '"' {
        return r + 1;
      } else {
        r := r + 1;
      }
    }
  }

  /** The closing bracket for the first opening one, by counting depth; -1 at the end. */
  method JsonMatch(s: string, p: nat, open: char, close: char) returns (r: int)
    requires p <= |s|
    ensures r == MatchAt(s, p, open, close, 0)
  {
    var q, depth := p, 0;
    while q < |s|
      invariant p <= q <= |s| && MatchAt(s, q, open, close, depth) == MatchAt(s, p, open, close, 0)
    {
      if s[q] == '"' {
        q := JsonWalkStr(s, q);
      } else if s[q] == open {
        depth := depth + 1;
        q := q + 1;
      } else if s[q] == close {
        depth := depth - 1;
        if depth == 0 { return q; }
        q := q + 1;
      } else {
        q := q + 1;
      }
    }
    r := -1;
  }

  method JsonWalk(s: string, p: nat) returns (r: nat)
    requires p <= |s|
    ensures r == Walk(s, p)
  {
    var q := JsonSkipWs(s, p);
    if Has(s, q, '"') {
      r := JsonWalkStr(s, q);
    } else if Has(s, q, '{') || Has(s, q, '[') {
      var m := JsonMatch(s, q, s[q], if s[q] == '{' then '}' else ']');
      r := if m < 0 then |s| else m + 1;
    } else {
      r := q;
      while r < |s| && !EndsPrim(s[r])
        invariant q <= r <= |s| && PrimEnd(s, r) == PrimEnd(s, q)
      {
        r := r + 1;
      }
    }
  }

  /** One character trimmed at either end does not matter to Extract. */
  lemma {:induction false} TrimStep(s: string, b: nat, e: nat)
    requires b < e <= |s|
    ensures IsWs(s[b]) ==> Extract(s[b..e]) == Extract(s[b + 1..e])
    ensures !IsWs(s[b]) && IsWs(s[e - 1]) ==> Extract(s[b..e]) == Extract(s[b..e - 1])
  {
    Strings.SubSlice(s, b, e, 1, e - b);
    Strings.SubSlice(s, b, e, 0, e - b - 1);
  }

  /** The rest of json_extract_value: white space off both ends. */
  method JsonTrim(s: string, start: nat, end: nat) returns (b: nat, e: nat)
    requires start <= end <= |s|
    ensures start <= b <= e <= end && Extract(s[b..e]) == Extract(s[start..end])
    ensures b < e ==> !IsWs(s[b]) && !IsWs(s[e - 1])
  {
    hide Extract;
    b, e := start, end;
    while b < e && IsWs(s[b])
      invariant start <= b <= e && Extract(s[b..e]) == Extract(s[start..end])
    {
      TrimStep(s, b, e);
      b := b + 1;
    }
    while b < e && IsWs(s[e - 1])
      invariant b <= e <= end && (b < e ==> !IsWs(s[b])) && Extract(s[b..e]) == Extract(s[start..end])
    {
      TrimStep(s, b, e);
      e := e - 1;
    }
  }

  /** json_extract_value: trims, then drops a pair of quotes. */
  method JsonExtract(s: string, start: nat, end: nat) returns (r: string)
    requires start <= end <= |s|
    ensures r == Extract(s[start..end])
  {
    var b, e := JsonTrim(s, start, end);
    if b < e && s[b] == '"' && e > b + 1 && s[e - 1] == '"' {
      Strings.SubSlice(s, b, e, 1, e - b - 1);
      b, e := b + 1, e - 1;
    }
    r := s[b..e];
  }

  /** Reads `"key" : value` at p. */
  method JsonMember(s: string, p: nat) returns (m: Member)
    requires p <= |s|
    ensures m == ReadMember(s, p)
  {
    hide SkipWs, WalkStr, Walk;
    var q := JsonSkipWs(s, p);
    if !Has(s, q, '"') { return NoPair; }
    var keyEnd := JsonWalkStr(s, q);
    if keyEnd < q + 2 { return LoneQuote; }
    var key := s[q + 1..keyEnd - 1];
    var colon := JsonSkipWs(s, keyEnd);
    if !Has(s, colon, ':') { return NoPair; }
    var vstart := JsonSkipWs(s, colon + 1);
    var vend := JsonWalk(s, vstart);
    m := Pair(key, vstart, vend);
  }

  /** json_find_value: one loop over the members of an object or the items of an array for
      each step of the path. It goes on for ever just when the search is stuck, so for no path
      without negative indices. Where the text ends in the quote that opens a key, it leaves
      off with Overrun; the code copies the key there, with -1 for its length. */
  method JsonFind(s: string, p: nat, path: seq<Step>) returns (f: Found)
    requires p <= |s| && !Stuck(s, p, path)
    ensures f == Find(s, p, path)
    decreases |path|, 1
  {
    hide SkipWs, FindName, FindNth, Stuck;
    EndlessIff(s, p, path);
    var q := JsonSkipWs(s, p);
    if path == [] { return Spot(q); }
    if Has(s, q, '{') && path[0].Name? {
      f := JsonFindName(s, q + 1, path);
    } else if Has(s, q, '[') && path[0].Nth? {
      f := JsonFindNth(s, q + 1, path);
    } else {
      f := Missing;
    }
  }

  method JsonFindName(s: string, p: nat, path: seq<Step>) returns (f: Found)
    requires p <= |s| && path != [] && path[0].Name? && FindName(s, p, path) != Endless
    ensures f == FindName(s, p, path)
    decreases |path|, 0
  {
    hide Find, ReadMember, SkipWs, Stuck;
    var q := p;
    while true
      invariant q <= |s| && FindName(s, q, path) == FindName(s, p, path)
      decreases |s| - q
    {
      var m := JsonMember(s, q);
      if m.NoPair? { return Missing; }
      if m.LoneQuote? { return Overrun; }
      if m.key == path[0].key {
        EndlessIff(s, m.vstart, path[1..]);
        f := JsonFind(s, m.vstart, path[1..]);
        return;
      }
      q := JsonSkipWs(s, m.vend);
      if Has(s, q, ',') {
        q := q + 1;
      } else if Has(s, q, '}') {
        return Missing;
      }
    }
    assert false;
  }

  /** What one item does to a search by index. */
  lemma {:induction false} NthStep(s: string, p: nat, idx: nat, path: seq<Step>)
    requires p < |s| && path != [] && path[0].Nth?
    ensures var q := SkipWs(s, p);
            var n := SkipWs(s, Walk(s, q));
            FindNth(s, p, idx, path) ==
            if Has(s, q, ']') then Missing
            else if idx == path[0].i then Find(s, q, path[1..])
            else if Has(s, n, ',') then FindNth(s, n + 1, idx + 1, path)
            else if Has(s, n, ']') then Missing
            else if n == p && path[0].i < idx then Endless
            else FindNth(s, n, idx + 1, path)
  {
    hide Find, SkipWs, Walk;
  }

  method JsonFindNth(s: string, p: nat, path: seq<Step>) returns (f: Found)
    requires p <= |s| && path != [] && path[0].Nth? && FindNth(s, p, 0, path) != Endless
    ensures f == FindNth(s, p, 0, path)
    decreases |path|, 0
  {
    hide Find, FindNth, SkipWs, Walk, Stuck;
    var want := path[0].i;
    var q, idx := p, 0;
    while q < |s|
      invariant q <= |s| && 0 <= idx && FindNth(s, q, idx, path) == FindNth(s, p, 0, path)
      decreases |s| - q, if want >= idx then want - idx else 0
    {
      NthStep(s, q, idx, path);
      var from := JsonSkipWs(s, q);
      if Has(s, from, ']') { return Missing; }
      if idx == want {
        EndlessIff(s, from, path[1..]);
        f := JsonFind(s, from, path[1..]);
        return;
      }
      var vend := JsonWalk(s, from);
      q := JsonSkipWs(s, vend);
      if Has(s, q, ',') {
        q := q + 1;
      } else if Has(s, q, ']') {
        return Missing;
      }
      idx := idx + 1;
    }
    NthAtEnd(s, idx, path);
    f := Missing;
  }

  lemma {:induction false} NthAtEnd(s: string, idx: nat, path: seq<Step>)
    requires path != [] && path[0].Nth?
    ensures FindNth(s, |s|, idx, path) == Missing
  {
  }

  method JsonGetValue(s: string, path: seq<Step>) returns (r: string)
    requires !Stuck(s, 0, path) && Find(s, 0, path) != Overrun
    ensures r == GetValue(s, path)
  {
    hide Stuck, Find;
    EndlessIff(s, 0, path);
    var f := JsonFind(s, 0, path);
    if f.Missing? { return INVALID; }
    var end := JsonWalk(s, f.at);
    r := JsonExtract(s, f.at, end);
  }

  /** Scans the members from p up to end for the key. */
  method JsonSeek(s: string, p: nat, end: nat, key: string) returns (m: Member)
    requires p <= |s| && end < |s|
    ensures m == Seek(s, p, end, key)
  {
    hide ReadMember, SkipWs;
    var scan := p;
    while scan < end
      invariant scan <= |s| && Seek(s, scan, end, key) == Seek(s, p, end, key)
      decreases |s| - scan
    {
      var q := JsonSkipWs(s, scan);
      if q >= end || s[q] == '}' { return NoPair; }
      m := JsonMember(s, scan);
      if !m.Pair? || m.key == key { return; }
      scan := JsonSkipWs(s, m.vend);
      if Has(s, scan, ',') { scan := scan + 1; }
    }
    m := NoPair;
  }

  /** The splicing of json_obj_set_top and of the second half of llJsonSetValue: copies
      the text around the new value, or appends a member. */
  method JsonSplice(s: string, key: string, text: string) returns (r: string)
    ensures r == Splice(s, key, text)
  {
    hide Seek, SkipWs, MatchAt, Quoted, AllWs;
    var p := JsonSkipWs(s, 0);
    if !Has(s, p, '{') { return s; }
    var end := JsonMatch(s, p, '{', '}');
    if end < 0 { return s; }
    MatchFromBracket(s, p);
    var m := JsonSeek(s, p + 1, end, key);
    if m.Pair? { return s[..m.vstart] + text + s[m.vend..]; }
    var empty := JsonBlank(s, p + 1, end);
    r := s[..end];
    if !empty { r := r + ","; }
    r := r + Quoted(key) + ":" + text + s[end..];
    assert empty ==> s[..end] + "" == s[..end];
  }

  /** The bracket matched is behind the one matching starts at. */
  lemma MatchFromBracket(s: string, p: nat)
    requires Has(s, p, '{') && MatchAt(s, p, '{', '}', 0) >= 0
    ensures p + 1 <= MatchAt(s, p, '{', '}', 0)
  {
  }

  method JsonBlank(s: string, b: nat, end: nat) returns (empty: bool)
    requires b <= end <= |s|
    ensures empty == AllWs(s[b..end])
  {
    var q := b;
    while q < end
      invariant b <= q <= end && AllWs(s[b..q])
    {
      assert s[b..end][q - b] == s[q];
      if !IsWs(s[q]) { return false; }
      assert s[b..q + 1] == s[b..q] + [s[q]];
      q := q + 1;
    }
    empty := true;
  }

  /** llJsonSetValue */
  method JsonSetValue(s: string, path: seq<Step>, val: string) returns (r: string)
    requires |path| == 2 && path[0].Name? && path[1].Name? ==> Find(s, 0, [path[0]]) != Overrun
    ensures r == SetValue(s, path, val)
  {
    hide Splice, Find, Walk, Stuck;
    if |path| == 1 && path[0].Name? {
      r := JsonSplice(s, path[0].key, Quoted(val));
    } else if |path| == 2 && path[0].Name? && path[1].Name? {
      NonNegativeEnds(s, 0, [path[0]]);
      EndlessIff(s, 0, [path[0]]);
      var f := JsonFind(s, 0, [path[0]]);
      var sub := "{}";
      if f.Spot? {
        var end := JsonWalk(s, f.at);
        sub := s[f.at..end];
      }
      sub := JsonSplice(sub, path[1].key, Quoted(val));
      r := JsonSplice(s, path[0].key, sub);
    } else {
      r := s;
    }
  }

  /** Reading well-formed text ends for negative indices too. */
  lemma {:induction false} WellFormedEnds(w0: string, v: J, tail: string, path: seq<Step>)
    requires AllWs(w0) && Ok(v) && (v.JPrim? ==> AllWs(tail))
    ensures Find(Doc(w0, v, tail), 0, path).Spot? || Find(Doc(w0, v, tail), 0, path).Missing?
  {
    hide Find, Placed, Ok, Doc, AllWs, Lookup;
    if v.JPrim? {
      BareDoc(w0, v, tail, path);
    } else {
      DocPlaced(w0, v, tail, path);
      var q, after := FindOk(Doc(w0, v, tail), |w0|, v, "", path);
    }
  }

  /** On the array `[}` a search for a negative index stays at the same place for ever. */
  lemma {:induction false} StuckArray()
    ensures Stuck("[}", 0, [Nth(-1)])
  {
    var s, path := "[}", [Nth(-1)];
    assert SkipWs(s, 0) == 0 && SkipWs(s, 1) == 1 && Walk(s, 1) == 1;
    assert path[..0] == [] && FirstNegative(path) == 0;
  }
}
