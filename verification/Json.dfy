/** The JSON text scanners and setters of src/builtins.c, over positions in a NUL-free
    string; reading at the end of the string is reading the terminator. */
module Json {

  /** A step of a path: an object key or an array index. */
  datatype Step = Name(key: string) | Nth(i: int)

  /** Where a path leads. On some malformed text the search never ends, or copies memory
      without bound. */
  datatype Found = Spot(at: nat) | Missing | Endless | Overrun

  const INVALID := "\U{EF}\U{BF}\U{B6}"

  predicate IsWs(c: char) { c == ' ' || c == '\t' || c == '\n' || c == '\r' }

  predicate AllWs(t: string) { forall i :: 0 <= i < |t| ==> IsWs(t[i]) }

  /** The character c stands at p. */
  predicate Has(s: string, p: nat, c: char) { p < |s| && s[p] == c }

  // ----- scanners -----

  function SkipWs(s: string, p: nat): (r: nat)
    requires p <= |s|
    ensures p <= r <= |s| && AllWs(s[p..r]) && (r < |s| ==> !IsWs(s[r]))
    decreases |s| - p
  {
    if p < |s| && IsWs(s[p]) then SkipWs(s, p + 1) else p
  }

  /** Behind the quote that closes a string literal read up to p. */
  function StrEnd(s: string, p: nat): (r: nat)
    requires p <= |s|
    ensures p <= r <= |s| && (p < |s| ==> r > p)
    decreases |s| - p
  {
    if p == |s| then p
    else if s[p] == '\\' && p + 1 < |s| then StrEnd(s, p + 2)
    else if s[p] == '"' then p + 1
    else StrEnd(s, p + 1)
  }

  function WalkStr(s: string, p: nat): (r: nat)
    requires p <= |s|
    ensures p <= r <= |s| && (Has(s, p, '"') ==> r > p)
  {
    if Has(s, p, '"') then StrEnd(s, p + 1) else p
  }

  predicate EndsPrim(c: char) { c == ',' || c == '}' || c == ']' || c == ' ' || c == '\t' || c == '\n' }

  function PrimEnd(s: string, p: nat): (r: nat)
    requires p <= |s|
    ensures p <= r <= |s|
    decreases |s| - p
  {
    if p < |s| && !EndsPrim(s[p]) then PrimEnd(s, p + 1) else p
  }

  /** The bracket that closes depth d, skipping string literals and counting only the two
      brackets o and c; or -1. */
  function MatchAt(s: string, p: nat, o: char, c: char, d: int): (r: int)
    requires p <= |s|
    ensures r == -1 || p <= r < |s|
    decreases |s| - p
  {
    if p == |s| then -1
    else if s[p] == '"' then MatchAt(s, WalkStr(s, p), o, c, d)
    else if s[p] == o then MatchAt(s, p + 1, o, c, d + 1)
    else if s[p] == c then if d - 1 == 0 then p else MatchAt(s, p + 1, o, c, d - 1)
    else MatchAt(s, p + 1, o, c, d)
  }

  function Closer(o: char): char { if o == '{' then '}' else ']' }

  /** json_walk: behind the value at p. */
  function Walk(s: string, p: nat): (r: nat)
    requires p <= |s|
    ensures p <= r <= |s|
  {
    var q := SkipWs(s, p);
    if Has(s, q, '"') then WalkStr(s, q)
    else if Has(s, q, '{') || Has(s, q, '[') then
      var m := MatchAt(s, q, s[q], Closer(s[q]), 0);
      if m < 0 then |s| else m + 1
    else PrimEnd(s, q)
  }

  /** A value's text without surrounding white space, and a string's without its quotes. */
  function Extract(t: string): string
    decreases |t|
  {
    if t != "" && IsWs(t[0]) then Extract(t[1..])
    else if t != "" && IsWs(t[|t| - 1]) then Extract(t[..|t| - 1])
    else if |t| > 1 && t[0] == '"' && t[|t| - 1] == '"' then t[1..|t| - 1]
    else t
  }

  // ----- members -----

  /** One `"key" : value` read at p: its key, and where its value starts and ends; or why
      there is none. LoneQuote: the text ends behind the opening quote of the key, whose
      length is then taken to be -1. */
  datatype Member = Pair(key: string, vstart: nat, vend: nat) | NoPair | LoneQuote

  function ReadMember(s: string, p: nat): (m: Member)
    requires p <= |s|
    ensures m.Pair? ==> p < m.vstart <= m.vend <= |s|
  {
    var q := SkipWs(s, p);
    if !Has(s, q, '"') then NoPair
    else
      var ke := WalkStr(s, q);
      if ke < q + 2 then LoneQuote
      else
        var c := SkipWs(s, ke);
        if !Has(s, c, ':') then NoPair
        else
          var v := SkipWs(s, c + 1);
          Pair(s[q + 1..ke - 1], v, Walk(s, v))
  }

  // ----- lookup -----

  /** Looks a path up in the value at p. */
  function Find(s: string, p: nat, path: seq<Step>): (f: Found)
    requires p <= |s|
    ensures f.Spot? ==> p <= f.at <= |s|
    decreases |path|, |s| - p + 1, 0
  {
    var q := SkipWs(s, p);
    if path == [] then Spot(q)
    else if Has(s, q, '{') && path[0].Name? then FindName(s, q + 1, path)
    else if Has(s, q, '[') && path[0].Nth? then FindNth(s, q + 1, 0, path)
    else Missing
  }

  /** The members from p on, for the first step of the path. */
  function FindName(s: string, p: nat, path: seq<Step>): (f: Found)
    requires p <= |s| && path != [] && path[0].Name?
    ensures f.Spot? ==> p <= f.at <= |s|
    decreases |path|, |s| - p, 0
  {
    var m := ReadMember(s, p);
    if m.NoPair? then Missing
    else if m.LoneQuote? then Overrun
    else if m.key == path[0].key then Find(s, m.vstart, path[1..])
    else
      var n := SkipWs(s, m.vend);
      if Has(s, n, ',') then FindName(s, n + 1, path)
      else if Has(s, n, '}') then Missing
      else FindName(s, n, path)
  }

  /** The items from p on, the first of them being number idx. A value that takes no text
      makes no progress, and with a negative index the search then has no end. */
  function FindNth(s: string, p: nat, idx: nat, path: seq<Step>): (f: Found)
    requires p <= |s| && path != [] && path[0].Nth?
    ensures f.Spot? ==> p <= f.at <= |s|
    decreases |path|, |s| - p, if path[0].i >= idx then path[0].i - idx else 0
  {
    if p == |s| then Missing
    else
    var q := SkipWs(s, p);
    if Has(s, q, ']') then Missing
    else if idx == path[0].i then Find(s, q, path[1..])
    else
      var n := SkipWs(s, Walk(s, q));
      if Has(s, n, ',') then FindNth(s, n + 1, idx + 1, path)
      else if Has(s, n, ']') then Missing
      else if n == p && path[0].i < idx then Endless
      else FindNth(s, n, idx + 1, path)
  }

  /** llJsonGetValue */
  function GetValue(s: string, path: seq<Step>): string {
    var f := Find(s, 0, path);
    if f.Spot? then Extract(s[f.at..Walk(s, f.at)]) else INVALID
  }

  // ----- setters -----

  /** The value of the first member with a key, among those between p and end. */
  function Seek(s: string, p: nat, end: nat, key: string): (m: Member)
    requires p <= |s| && end < |s|
    ensures m.Pair? ==> p < m.vstart <= m.vend <= |s|
    ensures !m.LoneQuote?
    decreases |s| - p
  {
    if p >= end then NoPair
    else
      var q := SkipWs(s, p);
      if q >= end || s[q] == '}' then NoPair
      else
        var m := ReadMember(s, p);
        if !m.Pair? || m.key == key then m
        else
          var n := SkipWs(s, m.vend);
          Seek(s, if Has(s, n, ',') then n + 1 else n, end, key)
  }

  /** Puts the text of a value under a key of the object in s: in place of the first value
      the key has, or behind the last member. Other text is returned as it is. */
  function Splice(s: string, key: string, text: string): string {
    var p := SkipWs(s, 0);
    if !Has(s, p, '{') then s
    else
      var end := MatchAt(s, p, '{', '}', 0);
      if end < 0 then s
      else
        var m := Seek(s, p + 1, end, key);
        if m.Pair? then s[..m.vstart] + text + s[m.vend..]
        else s[..end] + (if AllWs(s[p + 1..end]) then "" else ",") + Quoted(key) + ":" + text + s[end..]
  }

  function Quoted(t: string): string { "\"" + (t + "\"") }

  /** llJsonSetValue: paths of one or two keys; others leave the text alone. */
  function SetValue(s: string, path: seq<Step>, val: string): string {
    if |path| == 1 && path[0].Name? then Splice(s, path[0].key, Quoted(val))
    else if |path| == 2 && path[0].Name? && path[1].Name? then
      var f := Find(s, 0, [path[0]]);
      var sub := if f.Spot? then s[f.at..Walk(s, f.at)] else "{}";
      Splice(s, path[0].key, Splice(sub, path[1].key, Quoted(val)))
    else s
  }
}
