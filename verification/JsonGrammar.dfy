/** Well-formed JSON as trees that keep their white space, and how the scanners move over
    the text of a tree. */
module JsonGrammar {
  import opened Json

  /** A value: a string literal, a number or word, or an object or array of elements. */
  datatype J =
    | JStr(body: string)
    | JPrim(text: string)
    | JNode(obj: bool, inner: string, elems: seq<Elem>)  // inner: the white space of an empty one

  /** What stands before an element's value. */
  datatype Lead = Bare(w1: string) | Keyed(w1: string, key: string, w2: string, w3: string)

  datatype Elem = Elem(lead: Lead, val: J, after: string)

  // ----- text -----

  function PrintLead(l: Lead): string {
    match l
    case Bare(w) => w
    case Keyed(w1, k, w2, w3) => w1 + (Quoted(k) + (w2 + (":" + w3)))
  }

  function Open(obj: bool): char { if obj then '{' else '[' }
  function Close(obj: bool): char { if obj then '}' else ']' }

  function Print(v: J): string
    decreases v
  {
    match v
    case JStr(b) => Quoted(b)
    case JPrim(t) => t
    case JNode(obj, inner, elems) =>
      [Open(obj)] + ((if elems == [] then inner else PrintElems(elems, |elems|)) + [Close(obj)])
  }

  /** What stands between the brackets. */
  function Middle(v: J): string
    requires v.JNode?
  {
    if v.elems == [] then v.inner else PrintElems(v.elems, |v.elems|)
  }

  function PrintElem(e: Elem): string
    decreases e
  {
    PrintLead(e.lead) + (Print(e.val) + e.after)
  }

  /** The last n elements, with commas between them. */
  function PrintElems(es: seq<Elem>, n: nat): string
    requires 0 < n <= |es|
    decreases es, n
  {
    if n == 1 then PrintElem(es[|es| - 1])
    else PrintElem(es[|es| - n]) + ("," + PrintElems(es, n - 1))
  }

  // ----- well-formedness -----

  /** The inside of a string literal: no bare quote, no trailing backslash. */
  predicate BodyOk(b: string) {
    if b == "" then true
    else if b[0] == '\\' then |b| >= 2 && BodyOk(b[2..])
    else b[0] != '"' && BodyOk(b[1..])
  }

  predicate Structural(c: char) {
    c == '{' || c == '}' || c == '[' || c == ']' || c == ',' || c == ':' || c == '"' || IsWs(c)
  }

  predicate PrimOk(t: string) { t != "" && forall i :: 0 <= i < |t| ==> !Structural(t[i]) }

  predicate LeadOk(l: Lead, obj: bool) {
    && l.Keyed? == obj
    && AllWs(l.w1)
    && (l.Keyed? ==> BodyOk(l.key) && AllWs(l.w2) && AllWs(l.w3))
  }

  predicate Ok(v: J) {
    match v
    case JStr(b) => BodyOk(b)
    case JPrim(t) => PrimOk(t)
    case JNode(obj, inner, elems) =>
      AllWs(inner) && forall i :: 0 <= i < |elems| ==> ElemOk(elems[i], obj)
  }

  predicate ElemOk(e: Elem, obj: bool)
    decreases e
  {
    LeadOk(e.lead, obj) && Ok(e.val) && AllWs(e.after)
  }

  // ----- text in place -----

  /** The text t stands in s at p. */
  predicate At(s: string, p: nat, t: string) { p + |t| <= |s| && s[p..p + |t|] == t }

  lemma Split(s: string, p: nat, a: string, b: string)
    requires At(s, p, a + b)
    ensures At(s, p, a) && At(s, p + |a|, b) && p + |a| + |b| <= |s|
  {
    var w := s[p..p + |a + b|];
    assert w[..|a|] == a && w[|a|..] == b;
    assert s[p..p + |a|] == w[..|a|];
    assert s[p + |a|..p + |a| + |b|] == w[|a|..];
  }

  lemma Chars(s: string, p: nat, t: string)
    requires At(s, p, t)
    ensures forall i :: 0 <= i < |t| ==> s[p + i] == t[i]
  {
    forall i | 0 <= i < |t| ensures s[p + i] == t[i] {
      assert s[p..p + |t|][i] == t[i];
    }
  }

  lemma OneChar(s: string, p: nat, c: char)
    requires At(s, p, [c])
    ensures Has(s, p, c)
  {
    assert s[p..p + 1][0] == c;
  }

  // ----- scanners over text -----

  lemma {:induction false} SkipOver(s: string, p: nat, w: string)
    requires At(s, p, w) && AllWs(w)
    ensures SkipWs(s, p) == SkipWs(s, p + |w|)
    decreases |w|
  {
    if w != "" {
      Split(s, p, w[..1], w[1..]);
      assert w == w[..1] + w[1..];
      Chars(s, p, w);
      assert s[p + 0] == w[0];
      SkipOver(s, p + 1, w[1..]);
    }
  }

  /** White space followed by something else. */
  lemma SkipTo(s: string, p: nat, w: string)
    requires At(s, p, w) && AllWs(w) && (p + |w| < |s| ==> !IsWs(s[p + |w|]))
    ensures SkipWs(s, p) == p + |w|
  {
    SkipOver(s, p, w);
  }

  lemma {:induction false} BodyEnds(s: string, p: nat, b: string)
    requires BodyOk(b) && At(s, p, b) && Has(s, p + |b|, '"')
    ensures StrEnd(s, p) == p + |b| + 1
    decreases |b|
  {
    Chars(s, p, b);
    if b != "" {
      assert s[p + 0] == b[0];
      var k := if b[0] == '\\' then 2 else 1;
      assert b == b[..k] + b[k..];
      Split(s, p, b[..k], b[k..]);
      BodyEnds(s, p + k, b[k..]);
    }
  }

  lemma LiteralEnds(s: string, p: nat, b: string)
    requires BodyOk(b) && At(s, p, Quoted(b))
    ensures Has(s, p, '"') && WalkStr(s, p) == p + |b| + 2 && At(s, p + 1, b)
  {
    hide At, BodyOk;
    Split(s, p, "\"", b + "\"");
    Split(s, p + 1, b, "\"");
    OneChar(s, p, '"');
    OneChar(s, p + 1 + |b|, '"');
    BodyEnds(s, p + 1, b);
  }

  /** How many carriage returns a text starts with. */
  function Crs(w: string): (n: nat)
    ensures n <= |w| && forall i :: 0 <= i < n ==> w[i] == '\r'
    ensures n < |w| ==> w[n] != '\r'
  {
    if w != "" && w[0] == '\r' then 1 + Crs(w[1..]) else 0
  }

  lemma {:induction false} PrimRuns(s: string, p: nat, e: nat)
    requires p <= e <= |s| && (forall i :: p <= i < e ==> !EndsPrim(s[i])) && (e < |s| ==> EndsPrim(s[e]))
    ensures PrimEnd(s, p) == e
    decreases e - p
  {
    if p < e { PrimRuns(s, p + 1, e); }
  }

  // ----- bracket matching -----

  predicate Plain(c: char) { c != '"' && c != '{' && c != '}' && c != '[' && c != ']' }

  predicate AllPlain(t: string) { forall i :: 0 <= i < |t| ==> Plain(t[i]) }

  predicate Brackets(o: char, c: char) { (o == '{' && c == '}') || (o == '[' && c == ']') }

  lemma {:induction false} MatchPlain(s: string, p: nat, t: string, o: char, c: char, d: int)
    requires Brackets(o, c) && At(s, p, t) && AllPlain(t)
    ensures MatchAt(s, p, o, c, d) == MatchAt(s, p + |t|, o, c, d)
    decreases |t|
  {
    if t != "" {
      assert t == t[..1] + t[1..];
      Split(s, p, t[..1], t[1..]);
      Chars(s, p, t);
      assert s[p + 0] == t[0];
      MatchPlain(s, p + 1, t[1..], o, c, d);
    }
  }

  lemma MatchLiteral(s: string, p: nat, b: string, o: char, c: char, d: int)
    requires BodyOk(b) && At(s, p, Quoted(b))
    ensures MatchAt(s, p, o, c, d) == MatchAt(s, p + |b| + 2, o, c, d)
  {
    LiteralEnds(s, p, b);
  }

  /** Passing one bracket. */
  lemma MatchBracket(s: string, p: nat, x: char, o: char, c: char, d: int)
    requires Brackets(o, c) && Has(s, p, x) && (x == '{' || x == '}' || x == '[' || x == ']')
    ensures MatchAt(s, p, o, c, d) ==
            if x == o then MatchAt(s, p + 1, o, c, d + 1)
            else if x == c then if d == 1 then p else MatchAt(s, p + 1, o, c, d - 1)
            else MatchAt(s, p + 1, o, c, d)
  {
  }

  lemma PlainColon(w2: string, w3: string)
    requires AllWs(w2) && AllWs(w3)
    ensures AllPlain(w2 + (":" + w3))
  {
    forall i | 0 <= i < |w2 + (":" + w3)| ensures Plain((w2 + (":" + w3))[i]) {
      if i < |w2| { assert (w2 + (":" + w3))[i] == w2[i]; }
      else if i > |w2| { assert (w2 + (":" + w3))[i] == w3[i - |w2| - 1]; }
    }
  }

  lemma MatchLead(s: string, p: nat, l: Lead, obj: bool, o: char, c: char, d: int)
    requires Brackets(o, c) && LeadOk(l, obj) && At(s, p, PrintLead(l))
    ensures MatchAt(s, p, o, c, d) == MatchAt(s, p + |PrintLead(l)|, o, c, d)
  {
    hide At, MatchAt, AllPlain, BodyOk, AllWs;
    WsIsPlain(l.w1);
    match l
    case Bare(w) => MatchPlain(s, p, w, o, c, d);
    case Keyed(w1, k, w2, w3) =>
      var t := w2 + (":" + w3);
      Split(s, p, w1, Quoted(k) + t);
      Split(s, p + |w1|, Quoted(k), t);
      PlainColon(w2, w3);
      MatchPlain(s, p, w1, o, c, d);
      MatchLiteral(s, p + |w1|, k, o, c, d);
      MatchPlain(s, p + |w1| + |k| + 2, t, o, c, d);
  }

  lemma PrimIsPlain(t: string)
    requires PrimOk(t)
    ensures AllPlain(t)
  {
  }

  lemma WsIsPlain(t: string)
    requires AllWs(t)
    ensures AllPlain(t)
  {
  }

  /** Inside brackets, matching runs over a whole value without a trace. */
  lemma {:induction false} MatchValue(s: string, p: nat, v: J, o: char, c: char, d: int)
    requires Brackets(o, c) && Ok(v) && At(s, p, Print(v)) && d >= 1
    ensures MatchAt(s, p, o, c, d) == MatchAt(s, p + |Print(v)|, o, c, d)
    decreases v, 0
  {
    hide At, BodyOk, PrintElems, AllWs, MatchAt;
    match v
    case JStr(b) => MatchLiteral(s, p, b, o, c, d);
    case JPrim(t) => PrimIsPlain(t); MatchPlain(s, p, t, o, c, d);
    case JNode(obj, inner, elems) =>
      var o1, c1 := Open(obj), Close(obj);
      Split(s, p, [o1], Middle(v) + [c1]);
      Split(s, p + 1, Middle(v), [c1]);
      OneChar(s, p, o1);
      OneChar(s, p + 1 + |Middle(v)|, c1);
      var d1 := if o == o1 then d + 1 else d;
      MatchBracket(s, p, o1, o, c, d);
      MatchMiddle(s, p + 1, v, o, c, d1);
      MatchBracket(s, p + 1 + |Middle(v)|, c1, o, c, d1);
  }

  lemma {:induction false} MatchMiddle(s: string, p: nat, v: J, o: char, c: char, d: int)
    requires v.JNode? && Brackets(o, c) && Ok(v) && d >= 1 && At(s, p, Middle(v))
    ensures MatchAt(s, p, o, c, d) == MatchAt(s, p + |Middle(v)|, o, c, d)
    decreases v, -1
  {
    hide At;
    if v.elems == [] {
      MatchPlain(s, p, v.inner, o, c, d);
    } else {
      MatchElems(s, p, v.elems, |v.elems|, v.obj, o, c, d);
    }
  }

  lemma {:induction false} MatchElems(s: string, p: nat, es: seq<Elem>, n: nat, obj: bool, o: char, c: char, d: int)
    requires Brackets(o, c) && 0 < n <= |es| && d >= 1
    requires (forall i :: 0 <= i < |es| ==> ElemOk(es[i], obj)) && At(s, p, PrintElems(es, n))
    ensures MatchAt(s, p, o, c, d) == MatchAt(s, p + |PrintElems(es, n)|, o, c, d)
    decreases es, n
  {
    hide At, Print, PrintLead, LeadOk, Ok, MatchAt, AllWs;
    var e := es[|es| - n];
    assert ElemOk(e, obj);
    if n > 1 {
      Split(s, p, PrintElem(e), "," + PrintElems(es, n - 1));
      Split(s, p + |PrintElem(e)|, ",", PrintElems(es, n - 1));
    }
    var a, b := PrintLead(e.lead), Print(e.val);
    Split(s, p, a, b + e.after);
    Split(s, p + |a|, b, e.after);
    MatchLead(s, p, e.lead, obj, o, c, d);
    MatchValue(s, p + |a|, e.val, o, c, d);
    WsIsPlain(e.after);
    MatchPlain(s, p + |a| + |b|, e.after, o, c, d);
    if n > 1 {
      MatchPlain(s, p + |PrintElem(e)|, ",", o, c, d);
      MatchElems(s, p + |PrintElem(e)| + 1, es, n - 1, obj, o, c, d);
    }
  }

  /** From its opening bracket, an object or array closes at its own closing bracket. */
  lemma MatchNode(s: string, p: nat, v: J)
    requires v.JNode? && Ok(v) && At(s, p, Print(v))
    ensures Has(s, p, Open(v.obj))
    ensures MatchAt(s, p, Open(v.obj), Close(v.obj), 0) == p + |Print(v)| - 1
  {
    hide At, PrintElems, AllWs;
    var o, c := Open(v.obj), Close(v.obj);
    Split(s, p, [o], Middle(v) + [c]);
    Split(s, p + 1, Middle(v), [c]);
    OneChar(s, p, o);
    OneChar(s, p + 1 + |Middle(v)|, c);
    MatchMiddle(s, p + 1, v, o, c, 1);
  }

  /** The first character of a value. */
  lemma FirstChar(s: string, p: nat, v: J)
    requires Ok(v) && At(s, p, Print(v))
    ensures Print(v) != "" && p < |s| && !IsWs(s[p]) && s[p] == Print(v)[0]
    ensures s[p] == '"' <==> v.JStr?
    ensures s[p] == '{' <==> v.JNode? && v.obj
    ensures s[p] == '[' <==> v.JNode? && !v.obj
    ensures s[p] != '}' && s[p] != ']' && s[p] != ','
  {
    Chars(s, p, Print(v));
    assert s[p + 0] == Print(v)[0];
  }

  /** Where json_walk stops after a value: a number or word takes the carriage returns
      behind it along. */
  function Tail(v: J, after: string): nat { if v.JPrim? then Crs(after) else 0 }

  /** The scanner takes a number or word and the carriage returns behind it, up to the end of
      the text or a character that ends words. */
  lemma {:induction false} WalkPrim(s: string, p: nat, t: string, after: string)
    requires PrimOk(t) && AllWs(after) && At(s, p, t + after)
    requires var q := p + |t| + |after|; q < |s| ==> EndsPrim(s[q])
    ensures p < |s| && !IsWs(s[p]) && Walk(s, p) == p + |t| + Crs(after)
  {
    hide At, PrimEnd;
    Split(s, p, t, after);
    Chars(s, p, t);
    Chars(s, p + |t|, after);
    assert s[p + 0] == t[0] && !Structural(t[0]);
    var e := p + |t| + Crs(after);
    forall i | p <= i < e ensures !EndsPrim(s[i]) {
      if i < p + |t| { assert s[p + (i - p)] == t[i - p] && !Structural(t[i - p]); }
      else { assert s[p + |t| + (i - p - |t|)] == after[i - p - |t|]; }
    }
    assert Crs(after) < |after| ==> s[p + |t| + Crs(after)] == after[Crs(after)];
    PrimRuns(s, p, e);
  }

  /** json_walk runs over exactly one value, when a comma or a bracket follows it. */
  lemma {:induction false} WalkValue(s: string, p: nat, v: J, after: string)
    requires Ok(v) && AllWs(after) && At(s, p, Print(v) + after)
    requires var q := p + |Print(v)| + |after|;
             q < |s| && (s[q] == ',' || s[q] == '}' || s[q] == ']')
    ensures Walk(s, p) == p + |Print(v)| + Tail(v, after)
  {
    hide At, Print, Ok, AllWs, Walk;
    if v.JPrim? {
      PrimText(v);
      WalkPrim(s, p, v.text, after);
    } else {
      Split(s, p, Print(v), after);
      WalkClosed(s, p, v);
    }
  }

  lemma {:induction false} PrimText(v: J)
    requires v.JPrim? && Ok(v)
    ensures Print(v) == v.text && PrimOk(v.text)
  {
  }

  /** A string, object or array ends by itself, whatever follows. */
  lemma {:induction false} WalkClosed(s: string, p: nat, v: J)
    requires Ok(v) && !v.JPrim? && At(s, p, Print(v))
    ensures Walk(s, p) == p + |Print(v)|
  {
    hide At, BodyOk, PrintElems, MatchAt, WalkStr, AllWs, ElemOk;
    FirstChar(s, p, v);
    assert SkipWs(s, p) == p;
    match v
    case JStr(b) => LiteralEnds(s, p, b);
    case JNode(_, _, _) => MatchNode(s, p, v);
  }
}
