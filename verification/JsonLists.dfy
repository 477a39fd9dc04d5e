/** llJson2List and llList2Json of src/builtins.c. */
module JsonLists {
  import opened Values
  import opened Json
  import opened JsonEndings
  import opened JsonEscapes
  import opened JsonGrammar
  import opened JsonLaws
  import opened JsonText

  // ----- text to list -----

  /** One round of the loop of llJson2List: the key, in an object, where the value starts
      and ends, and where the next round starts. */
  datatype Entry = Entry(key: seq<string>, vstart: nat, vend: nat, next: nat)

  /** The text of an object ends behind the quote that opens a key. The length of the key is
      then taken to be -1, and memory is copied without bound. */
  predicate LoneKey(s: string, q: nat, obj: bool) { obj && q + 1 == |s| && s[q] == '"' }

  /** The key at q and the place behind its colon, in an object; nothing otherwise. */
  function KeyAt(s: string, q: nat, obj: bool): (r: (seq<string>, nat))
    requires q <= |s| && !LoneKey(s, q, obj)
    ensures q <= r.1 <= |s|
    ensures if obj && Has(s, q, '"') then r.1 > q else r == ([], q)
  {
    if obj && Has(s, q, '"') then
      var ke := WalkStr(s, q);
      var c := SkipWs(s, ke);
      ([s[q + 1..ke - 1]], if Has(s, c, ':') then c + 1 else c)
    else ([], q)
  }

  /** A value that does not start with a delimiter takes text. */
  lemma {:induction false} WalkMoves(s: string, p: nat)
    requires p < |s| && !IsWs(s[p]) && s[p] != ',' && s[p] != '}' && s[p] != ']'
    ensures Walk(s, p) > p
  {
  }

  function ReadEntry(s: string, q: nat, obj: bool): (e: Entry)
    requires q < |s| ==> !IsWs(s[q]) && s[q] != '}' && s[q] != ']'
    requires q <= |s| && !LoneKey(s, q, obj)
    ensures q <= e.vstart <= e.vend <= e.next <= |s| && (q < |s| ==> q < e.next)
  {
    var (key, c) := KeyAt(s, q, obj);
    var v := SkipWs(s, c);
    var ve := Walk(s, v);
    var n := SkipWs(s, ve);
    assert q < |s| && s[q] != ',' ==> ve > q by {
      if q < |s| && s[q] != ',' && c == q { WalkMoves(s, q); }
    }
    Entry(key, v, ve, if Has(s, n, ',') then n + 1 else n)
  }

  /** Entry after entry from p on, the loop comes to a lone quote. */
  predicate KeysRunOut(s: string, p: nat, obj: bool)
    requires p <= |s|
    decreases |s| - p
  {
    p < |s| &&
    var q := SkipWs(s, p);
    !Has(s, q, '}') && !Has(s, q, ']') && (LoneKey(s, q, obj) || KeysRunOut(s, ReadEntry(s, q, obj).next, obj))
  }

  /** What the loop still pushes at p: keys and values, until a closing bracket. */
  function ListFrom(s: string, p: nat, obj: bool): seq<string>
    requires p <= |s| && !KeysRunOut(s, p, obj)
    decreases |s| - p
  {
    if p == |s| then []
    else
      var q := SkipWs(s, p);
      if Has(s, q, '}') || Has(s, q, ']') then []
      else
        var e := ReadEntry(s, q, obj);
        e.key + ([Extract(s[e.vstart..e.vend])] + ListFrom(s, e.next, obj))
  }

  /** The text on which the loop copies memory without bound. */
  predicate ListOverruns(s: string) {
    var p := SkipWs(s, 0);
    Has(s, p, '{') && KeysRunOut(s, p + 1, true)
  }

  /** It ends in a quote. */
  lemma {:induction false} ListOverrunEndsInQuote(s: string, p: nat, obj: bool)
    requires p <= |s| && KeysRunOut(s, p, obj)
    ensures obj && EndsInQuote(s)
    decreases |s| - p
  {
    hide SkipWs, ReadEntry;
    var q := SkipWs(s, p);
    if !LoneKey(s, q, obj) { ListOverrunEndsInQuote(s, ReadEntry(s, q, obj).next, obj); }
  }

  /** The text `{"` is one. */
  lemma ListOverrunHappens()
    ensures ListOverruns("{\"")
  {
    var s := "{\"";
    assert SkipWs(s, 0) == 0 && SkipWs(s, 1) == 1;
  }

  lemma NoKeysToRunOut(s: string, p: nat)
    requires p <= |s|
    ensures !KeysRunOut(s, p, false)
  {
    if KeysRunOut(s, p, false) { ListOverrunEndsInQuote(s, p, false); }
  }

  function Json2List(s: string): seq<string>
    requires !ListOverruns(s)
  {
    var p := SkipWs(s, 0);
    if Has(s, p, '{') then ListFrom(s, p + 1, true)
    else if Has(s, p, '[') then NoKeysToRunOut(s, p + 1); ListFrom(s, p + 1, false)
    else [s[p..]]
  }

  /** llJson2List */
  method JsonToList(s: string) returns (out: seq<string>)
    requires !ListOverruns(s)
    ensures out == Json2List(s)
  {
    hide SkipWs, WalkStr, Walk, Extract, ReadEntry;
    var p := JsonSkipWs(s, 0);
    if !Has(s, p, '[') && !Has(s, p, '{') { return [s[p..]]; }
    var obj := s[p] == '{';
    p := p + 1;
    out := [];
    NoKeysToRunOut(s, p);
    while p < |s|
      invariant p <= |s| && !KeysRunOut(s, p, obj) && Json2List(s) == out + ListFrom(s, p, obj)
      decreases |s| - p
    {
      p := JsonSkipWs(s, p);
      if Has(s, p, '}') || Has(s, p, ']') { break; }
      var e := JsonEntry(s, p, obj);
      var val := JsonExtract(s, e.vstart, e.vend);
      Strings.Assoc(out, e.key, [val] + ListFrom(s, e.next, obj));
      Strings.Assoc(out + e.key, [val], ListFrom(s, e.next, obj));
      out := out + e.key + [val];
      p := e.next;
    }
    Strings.Assoc(out, [], []);
  }

  lemma QuoteMoves(s: string, q: nat)
    requires q + 1 < |s| && s[q] == '"'
    ensures WalkStr(s, q) >= q + 2
  {
  }

  method JsonEntry(s: string, q: nat, obj: bool) returns (e: Entry)
    requires q <= |s| && (q < |s| ==> !IsWs(s[q]) && s[q] != '}' && s[q] != ']') && !LoneKey(s, q, obj)
    ensures e == ReadEntry(s, q, obj)
  {
    hide SkipWs, WalkStr, Walk;
    var key, c := [], q;
    if obj && Has(s, q, '"') {
      var ke := JsonWalkStr(s, q);
      QuoteMoves(s, q);
      key := [s[q + 1..ke - 1]];
      c := JsonSkipWs(s, ke);
      if Has(s, c, ':') { c := c + 1; }
    }
    var v := JsonSkipWs(s, c);
    var ve := JsonWalk(s, v);
    var n := JsonSkipWs(s, ve);
    e := Entry(key, v, ve, if Has(s, n, ',') then n + 1 else n);
  }

  // ----- the list of a tree -----

  /** Keys and values of the last n elements. */
  function Listed(es: seq<Elem>, n: nat): seq<string>
    requires n <= |es|
    decreases n
  {
    if n == 0 then []
    else
      var e := es[|es| - n];
      (if e.lead.Keyed? then [e.lead.key] else []) + ([Raw(e.val)] + Listed(es, n - 1))
  }

  /** Reading an element of an object or an array. */
  lemma {:induction false} EntryIs(s: string, p: nat, l: Lead, u: J, after: string, obj: bool)
    requires LeadOk(l, obj) && At(s, p, PrintLead(l)) && Placed(s, p + |PrintLead(l)|, u, after)
    requires Delim(s, p + |PrintLead(l)| + |Print(u)| + |after|)
    ensures var q := SkipWs(s, p);
            var n := p + |PrintLead(l)| + |Print(u)| + |after|;
            && p <= q < |s| && !IsWs(s[q]) && s[q] != '}' && s[q] != ']' && !LoneKey(s, q, obj)
            && var e := ReadEntry(s, q, obj);
               && e.key == (if l.Keyed? then [l.key] else []) && Extract(s[e.vstart..e.vend]) == Raw(u)
               && e.next == if s[n] == ',' then n + 1 else n
  {
    hide At, Print, PrintLead, Placed, Walk, SkipWs, Extract, Raw, Ok, LeadOk, KeyAt;
    var v := p + |PrintLead(l)|;
    WalkPlaced(s, v, u, after);
    BehindValue(s, v, u, after);
    ExtractPlaced(s, v, u, after);
    if obj { KeyedStart(s, p, l); } else { BareStart(s, p, l, u, after); }
  }

  /** Where a round starts at a member, and where its value is looked for. */
  lemma {:induction false} KeyedStart(s: string, p: nat, l: Lead)
    requires LeadOk(l, true) && At(s, p, PrintLead(l))
    ensures var q := SkipWs(s, p);
            && l.Keyed? && p <= q < |s| && s[q] == '"' && q + 1 < |s|
            && KeyAt(s, q, true).0 == [l.key]
            && SkipWs(s, KeyAt(s, q, true).1) == SkipWs(s, p + |PrintLead(l)|)
  {
    hide At, PrintLead, WalkStr, SkipWs, BodyOk, AllWs;
    LeadKeyed(l);
    KeyParts(s, p, l);
    var ke := p + |l.w1| + |l.key| + 2;
    SkipTo(s, p, l.w1);
    SkipTo(s, ke, l.w2);
    SkipOver(s, ke + |l.w2| + 1, l.w3);
  }

  lemma {:induction false} BareStart(s: string, p: nat, l: Lead, u: J, after: string)
    requires LeadOk(l, false) && At(s, p, PrintLead(l)) && Placed(s, p + |PrintLead(l)|, u, after)
    ensures var v := p + |PrintLead(l)|;
            && l.Bare? && SkipWs(s, p) == v < |s| && !IsWs(s[v]) && s[v] != '}' && s[v] != ']'
            && !LoneKey(s, v, false)
            && KeyAt(s, v, false) == ([], v)
  {
    hide At, Print, PrintLead, Placed, SkipWs, AllWs, Ok, LeadOk;
    var v := p + |PrintLead(l)|;
    BareLead(l);
    AtPlaced(s, v, u, after);
    FirstChar(s, v, u);
    SkipTo(s, p, l.w1);
  }

  lemma {:induction false} BareLead(l: Lead)
    requires LeadOk(l, false)
    ensures l.Bare? && PrintLead(l) == l.w1 && AllWs(l.w1)
  {
  }

  lemma {:induction false} AtPlaced(s: string, q: nat, u: J, after: string)
    requires Placed(s, q, u, after)
    ensures Ok(u) && At(s, q, Print(u))
  {
    Split(s, q, Print(u), after);
  }

  lemma {:induction false} ListElems(s: string, p: nat, es: seq<Elem>, n: nat, obj: bool)
    requires 0 < n <= |es| && (forall i :: 0 <= i < |es| ==> ElemOk(es[i], obj))
    requires At(s, p, PrintElems(es, n)) && Has(s, p + |PrintElems(es, n)|, Close(obj))
    ensures p < |s| && !KeysRunOut(s, p, obj) && ListFrom(s, p, obj) == Listed(es, n)
    decreases n
  {
    hide At, PrintLead, Print, PrintElem, PrintElems, Placed, Ok, ElemOk, LeadOk, AllWs, SkipWs, Walk, Delim,
         ReadEntry, Extract, Raw;
    var e := es[|es| - n];
    FirstElem(s, p, es, n, obj);
    EntryIs(s, p, e.lead, e.val, e.after, obj);
    LeadKind(e.lead, obj);
    if n > 1 { ListElems(s, p + |PrintElem(e)| + 1, es, n - 1, obj); } else { ListEnds(s, p + |PrintElem(e)|, obj); }
  }

  lemma {:induction false} LeadKind(l: Lead, obj: bool)
    requires LeadOk(l, obj)
    ensures l.Keyed? == obj
  {
  }

  lemma {:induction false} ListEnds(s: string, p: nat, obj: bool)
    requires Has(s, p, Close(obj))
    ensures !KeysRunOut(s, p, obj) && ListFrom(s, p, obj) == []
  {
    assert SkipWs(s, p) == p;
  }

  /** llJson2List of a well-formed object or array lists its keys and values in order. */
  lemma {:induction false} Lists(w0: string, v: J, tail: string)
    requires AllWs(w0) && Ok(v) && v.JNode?
    ensures !ListOverruns(Doc(w0, v, tail)) && Json2List(Doc(w0, v, tail)) == Listed(v.elems, |v.elems|)
  {
    hide Print, PrintElems, Ok, At, AllWs, Placed, ElemOk, ListFrom, SkipWs, Doc, Middle;
    var s, p := Doc(w0, v, tail), |w0|;
    DocPlaced(w0, v, tail, []);
    AtPlaced(s, p, v, "");
    FirstChar(s, p, v);
    DocSkips(w0, v, tail);
    NodeParts(s, p, v);
    if v.elems == [] {
      MiddleEmpty(v);
      EmptyList(s, p + 1, v.inner, v.obj);
    } else {
      MiddleFull(v);
      ListElems(s, p + 1, v.elems, |v.elems|, v.obj);
    }
  }

  lemma {:induction false} DocSkips(w0: string, v: J, tail: string)
    requires AllWs(w0) && Ok(v) && !v.JPrim?
    ensures SkipWs(Doc(w0, v, tail), 0) == |w0|
  {
    hide Print, Ok, AllWs, SkipWs;
    var s := Doc(w0, v, tail);
    Whole(s);
    Split(s, 0, w0, Print(v) + tail);
    Split(s, |w0|, Print(v), tail);
    FirstChar(s, |w0|, v);
    SkipTo(s, 0, w0);
  }

  lemma {:induction false} EmptyList(s: string, p: nat, w: string, obj: bool)
    requires AllWs(w) && At(s, p, w) && Has(s, p + |w|, Close(obj))
    ensures p <= |s| && !KeysRunOut(s, p, obj) && ListFrom(s, p, obj) == []
  {
    SkipTo(s, p, w);
  }

  // ----- list to text -----

  /** A value of a list as JSON: numbers as they are shown, all others in quotes. */
  function ToJ(show: SValue -> string, v: SValue): J { if IsNum(v) then JPrim(show(v)) else JStr(show(v)) }

  /** The elements for a list: one for each value of an array, one for each two of an object;
      a last value without a partner is dropped. */
  function ToElems(show: SValue -> string, vs: seq<SValue>, obj: bool): (es: seq<Elem>)
    ensures |es| == if obj then |vs| / 2 else |vs|
  {
    if obj then
      if |vs| < 2 then []
      else [Elem(Keyed("", show(vs[0]), "", ""), ToJ(show, vs[1]), "")] + ToElems(show, vs[2..], obj)
    else if vs == [] then []
    else [Elem(Bare(""), ToJ(show, vs[0]), "")] + ToElems(show, vs[1..], obj)
  }

  /** The value at k is a key. */
  predicate IsKey(k: nat, obj: bool) { obj && k % 2 == 0 }

  /** Numbers are shown as words, which have no blanks, quotes, brackets, commas or colons. */
  predicate Words(show: SValue -> string, vs: seq<SValue>, obj: bool) {
    forall k :: 0 <= k < |vs| && IsNum(vs[k]) && !IsKey(k, obj) ==> PrimOk(show(vs[k]))
  }

  /** What is put between quotes can stand there: all keys that have a value, and all values
      but numbers. */
  predicate Quotable(show: SValue -> string, vs: seq<SValue>, obj: bool) {
    forall k :: 0 <= k < |vs| && (if IsKey(k, obj) then k + 1 < |vs| else !IsNum(vs[k])) ==> BodyOk(show(vs[k]))
  }

  function List2Json(show: SValue -> string, vs: seq<SValue>, obj: bool): string {
    Print(JNode(obj, "", ToElems(show, vs, obj)))
  }

  // ----- the text of elements -----

  function Texts(es: seq<Elem>): (ts: seq<string>)
    ensures |ts| == |es|
  {
    seq(|es|, i requires 0 <= i < |es| => PrintElem(es[i]))
  }

  /** Elements are printed with commas between them. */
  lemma {:induction false} JoinedElems(es: seq<Elem>, n: nat)
    requires 0 < n <= |es|
    ensures PrintElems(es, n) == Strings.Join(Texts(es)[|es| - n..], ",")
    decreases n
  {
    hide PrintElem;
    var ts := Texts(es)[|es| - n..];
    if n > 1 {
      JoinedElems(es, n - 1);
      assert ts[1..] == Texts(es)[|es| - (n - 1)..];
    }
  }

  /** The element for the values from position i on. */
  lemma {:induction false} ElemFor(show: SValue -> string, vs: seq<SValue>, obj: bool, k: nat)
    requires k < |ToElems(show, vs, obj)|
    ensures (if obj then 2 * k + 1 else k) < |vs|
    ensures ToElems(show, vs, obj)[k] ==
            if obj then Elem(Keyed("", show(vs[2 * k]), "", ""), ToJ(show, vs[2 * k + 1]), "")
            else Elem(Bare(""), ToJ(show, vs[k]), "")
    decreases k
  {
    hide ToJ;
    if k > 0 { ElemFor(show, if obj then vs[2..] else vs[1..], obj, k - 1); }
  }

  /** What the loop of llList2Json appends for a value. */
  function ValueText(show: SValue -> string, v: SValue): string { if IsNum(v) then show(v) else Quoted(show(v)) }

  lemma {:induction false} ElemText(show: SValue -> string, vs: seq<SValue>, obj: bool, k: nat)
    requires k < |ToElems(show, vs, obj)|
    ensures (if obj then 2 * k + 1 else k) < |vs|
    ensures Texts(ToElems(show, vs, obj))[k] ==
            if obj then (Quoted(show(vs[2 * k])) + ":") + ValueText(show, vs[2 * k + 1]) else ValueText(show, vs[k])
  {
    hide ToElems, Quoted, PrintLead;
    ElemFor(show, vs, obj, k);
    if obj {
      MemberText("", show(vs[2 * k]), ToJ(show, vs[2 * k + 1]));
      NoBlanks(Quoted(show(vs[2 * k])), ValueText(show, vs[2 * k + 1]));
    } else {
      ItemText(ToJ(show, vs[k]));
    }
  }

  lemma {:induction false} ItemText(v: J)
    ensures PrintElem(Elem(Bare(""), v, "")) == Print(v)
  {
    assert "" + (Print(v) + "") == Print(v);
  }

  lemma {:induction false} NoBlanks(k: string, t: string)
    ensures "" + ("" + k + ":" + t) == (k + ":") + t
  {
  }

  /** What a round of the loop of llList2Json appends behind the comma. */
  function RoundText(show: SValue -> string, vs: seq<SValue>, obj: bool, i: nat): string
    requires (if obj then 2 * i + 1 else i) < |vs|
  {
    if obj then (Quoted(show(vs[2 * i])) + ":") + ValueText(show, vs[2 * i + 1]) else ValueText(show, vs[i])
  }

  method AppendRound(b: Strings.JBuf, show: SValue -> string, vs: seq<SValue>, obj: bool, i: nat)
    requires b.Valid() && (if obj then 2 * i + 1 else i) < |vs|
    modifies b, b.buf
    ensures b.Valid() && (b.buf == old(b.buf) || fresh(b.buf))
    ensures b.Contents() == old(b.Contents()) + (if i > 0 then "," else "") + RoundText(show, vs, obj, i)
  {
    hide Quoted, ValueText;
    if i > 0 { b.Append(","); }
    if obj {
      b.Append(Quoted(show(vs[2 * i])) + ":");
      b.Append(ValueText(show, vs[2 * i + 1]));
    } else {
      b.Append(ValueText(show, vs[i]));
    }
  }

  /** llList2Json, with the kind given as whether an object is asked for. */
  method ListToJson(show: SValue -> string, vs: seq<SValue>, obj: bool) returns (s: string)
    ensures s == List2Json(show, vs, obj)
  {
    hide ToElems, RoundText, Texts, Strings.Join;
    ghost var es := ToElems(show, vs, obj);
    ghost var ts := Texts(es);
    var o, c := if obj then "{" else "[", if obj then "}" else "]";
    var b := new Strings.JBuf();
    b.Append(o);
    var n, i := if obj then |vs| / 2 else |vs|, 0;
    JoinNone(ts);
    while i < n
      invariant 0 <= i <= n == |es| && b.Valid() && fresh(b) && fresh(b.buf)
      invariant b.Contents() == o + Strings.Join(ts[..i], ",")
    {
      RoundIs(show, vs, obj, i);
      JoinNext(o, ts, i);
      AppendRound(b, show, vs, obj, i);
      i := i + 1;
    }
    b.Append(c);
    s := b.Contents();
    Finished(show, vs, obj);
  }

  lemma {:induction false} RoundIs(show: SValue -> string, vs: seq<SValue>, obj: bool, i: nat)
    requires i < |ToElems(show, vs, obj)|
    ensures (if obj then 2 * i + 1 else i) < |vs|
    ensures Texts(ToElems(show, vs, obj))[i] == RoundText(show, vs, obj, i)
  {
    hide ToElems, Quoted, ValueText, Texts;
    ElemText(show, vs, obj, i);
  }

  lemma {:induction false} JoinNone(ts: seq<string>)
    ensures Strings.Join(ts[..0], ",") == ""
  {
  }

  /** One more text behind those joined. */
  lemma {:induction false} JoinNext(o: string, ts: seq<string>, i: nat)
    requires i < |ts|
    ensures o + Strings.Join(ts[..i], ",") + (if i > 0 then "," else "") + ts[i] == o + Strings.Join(ts[..i + 1], ",")
  {
    hide Strings.Join;
    assert ts[..i + 1] == ts[..i] + [ts[i]];
    if i > 0 {
      Strings.JoinLast(ts[..i], ts[i], ",");
      Regroup(o, Strings.Join(ts[..i], ","), ts[i]);
    } else {
      JoinNone(ts);
      JoinOne(ts[i]);
      assert ts[..i] + [ts[i]] == [ts[i]];
      assert o + "" + "" + ts[i] == o + ts[i];
    }
  }

  lemma {:induction false} JoinOne(t: string)
    ensures Strings.Join([t], ",") == t
  {
  }

  lemma {:induction false} Regroup(o: string, j: string, t: string)
    ensures o + j + "," + t == o + (j + ("," + t))
  {
  }

  lemma {:induction false} Finished(show: SValue -> string, vs: seq<SValue>, obj: bool)
    ensures var es := ToElems(show, vs, obj);
            var o, c := if obj then "{" else "[", if obj then "}" else "]";
            List2Json(show, vs, obj) == (o + Strings.Join(Texts(es)[..|es|], ",")) + c
  {
    hide ToElems, Texts, Strings.Join;
    var es := ToElems(show, vs, obj);
    var v := JNode(obj, "", es);
    PrintNode(v);
    assert Texts(es)[..|es|] == Texts(es) == Texts(es)[0..];
    if es != [] {
      MiddleFull(v);
      JoinedElems(es, |es|);
    } else {
      MiddleEmpty(v);
      JoinNone(Texts(es));
    }
  }

  // ----- round trip -----

  /** What llJson2List is to give back: the values as strings; of an object, whole pairs. */
  function Strs(show: SValue -> string, vs: seq<SValue>, obj: bool): seq<string> {
    seq(if obj then |vs| / 2 * 2 else |vs|, i requires 0 <= i < |vs| => show(vs[i]))
  }

  lemma {:induction false} ElemOkIs(show: SValue -> string, vs: seq<SValue>, obj: bool, k: nat)
    requires Words(show, vs, obj) && k < |ToElems(show, vs, obj)|
    ensures ElemOk(ToElems(show, vs, obj)[k], obj) <==>
            if obj then BodyOk(show(vs[2 * k])) && (IsNum(vs[2 * k + 1]) || BodyOk(show(vs[2 * k + 1])))
            else IsNum(vs[k]) || BodyOk(show(vs[k]))
  {
    hide ToElems, BodyOk, PrimOk;
    ElemFor(show, vs, obj, k);
    assert !IsKey(if obj then 2 * k + 1 else k, obj);
  }

  lemma {:induction false} QuotableElem(show: SValue -> string, vs: seq<SValue>, obj: bool, k: nat)
    requires Words(show, vs, obj) && Quotable(show, vs, obj) && k < |ToElems(show, vs, obj)|
    ensures ElemOk(ToElems(show, vs, obj)[k], obj)
  {
    hide ToElems, BodyOk, ElemOk, Words;
    ElemOkIs(show, vs, obj, k);
    assert obj ==> IsKey(2 * k, obj) && !IsKey(2 * k + 1, obj);
  }

  lemma {:induction false} ElemsQuotable(show: SValue -> string, vs: seq<SValue>, obj: bool)
    requires Words(show, vs, obj)
    requires forall k :: 0 <= k < |ToElems(show, vs, obj)| ==> ElemOk(ToElems(show, vs, obj)[k], obj)
    ensures Quotable(show, vs, obj)
  {
    hide ToElems, BodyOk, ElemOk, Words;
    forall i | 0 <= i < |vs| && (if IsKey(i, obj) then i + 1 < |vs| else !IsNum(vs[i])) ensures BodyOk(show(vs[i])) {
      var k := if obj then i / 2 else i;
      assert k < |ToElems(show, vs, obj)| && ElemOk(ToElems(show, vs, obj)[k], obj);
      ElemOkIs(show, vs, obj, k);
    }
  }

  // ----- a string that cannot stand between quotes -----

  /** An element as llList2Json writes it: nothing between its parts, the value a string or
      a word. */
  predicate Written(e: Elem, obj: bool) {
    && e.after == "" && (if obj then e.lead.Keyed? && e.lead == Keyed("", e.lead.key, "", "") else e.lead == Bare(""))
    && !e.val.JNode? && (e.val.JPrim? ==> Ok(e.val))
  }

  lemma {:induction false} WrittenElem(show: SValue -> string, vs: seq<SValue>, obj: bool, k: nat)
    requires Words(show, vs, obj) && k < |ToElems(show, vs, obj)|
    ensures Written(ToElems(show, vs, obj)[k], obj)
  {
    hide ToElems, PrimOk;
    ElemFor(show, vs, obj, k);
    assert !IsKey(if obj then 2 * k + 1 else k, obj);
  }

  /** The key read at a literal that does not end where it should has another length. */
  lemma {:induction false} KeyDiffers(s: string, q: nat, key: string)
    requires !BodyOk(key) && At(s, q, Quoted(key)) && q + |key| + 2 < |s|
    ensures !LoneKey(s, q, true) && !IsWs(s[q]) && s[q] == '"'
    ensures |KeyAt(s, q, true).0| == 1 && KeyAt(s, q, true).0[0] != key
  {
    hide BodyOk;
    Split(s, q, "\"", key + "\"");
    OneChar(s, q, '"');
    StrayEnd(s, q + 1, key);
    assert WalkStr(s, q) == StrEnd(s, q + 1);
  }

  /** Where the opening quote of a literal stands. */
  lemma {:induction false} OpensAt(s: string, p: nat, b: string, more: string)
    requires At(s, p, Quoted(b) + more)
    ensures At(s, p, Quoted(b)) && Has(s, p, '"') && SkipWs(s, p) == p && p + |b| + 2 + |more| <= |s|
  {
    Split(s, p, Quoted(b), more);
    Split(s, p, "\"", b + "\"");
    OneChar(s, p, '"');
  }

  lemma {:induction false} WrittenKey(key: string)
    ensures PrintLead(Keyed("", key, "", "")) == Quoted(key) + ":"
  {
    assert "" + (Quoted(key) + ("" + (":" + ""))) == Quoted(key) + ":";
  }

  lemma {:induction false} KeyFirst(e: Elem)
    requires Written(e, true)
    ensures PrintElem(e) == Quoted(e.lead.key) + (":" + Print(e.val))
  {
    hide Print, PrintLead, Quoted;
    WrittenText(e, true);
    WrittenKey(e.lead.key);
    assert (Quoted(e.lead.key) + ":") + Print(e.val) == Quoted(e.lead.key) + (":" + Print(e.val));
  }

  lemma {:induction false} WrittenText(e: Elem, obj: bool)
    requires Written(e, obj)
    ensures PrintElem(e) == PrintLead(e.lead) + Print(e.val) && e.lead.Keyed? == obj && e.after == ""
    ensures ElemOk(e, obj) <==> (obj ==> BodyOk(e.lead.key)) && (e.val.JStr? ==> BodyOk(e.val.body))
  {
    hide Print, PrintLead, BodyOk;
    Literals("");
    assert Print(e.val) + "" == Print(e.val);
  }

  /** What the round at an element written to p pushes, when the value there is a literal
      that does not end where it should. */
  lemma {:induction false} ValueDiffers(s: string, p: nat, l: Lead, b: string, obj: bool)
    requires Written(Elem(l, JStr(b), ""), obj) && (obj ==> BodyOk(l.key)) && !BodyOk(b)
    requires At(s, p, PrintLead(l) + Quoted(b))
    requires var d := p + |PrintLead(l)| + |b| + 2; d < |s| && !IsWs(s[d])
    ensures Has(s, p, '"') && SkipWs(s, p) == p && !LoneKey(s, p, obj)
    ensures var r := ReadEntry(s, p, obj);
            r.key == (if obj then [l.key] else []) && Extract(s[r.vstart..r.vend]) != b
  {
    hide At, BodyOk, PrintLead, Walk, WalkStr, Extract, Quoted, SkipWs, KeyAt;
    var v := p + |PrintLead(l)|;
    Split(s, p, PrintLead(l), Quoted(b));
    assert Quoted(b) + "" == Quoted(b);
    OpensAt(s, v, b, "");
    QuotedLength(b);
    ReadsOther(s, v, b, v + |b| + 2);
    if obj {
      WrittenKey(l.key);
      OpensAt(s, p, l.key, ":");
      KeyedStart(s, p, l);
    } else {
      BareKey(s, p);
    }
  }

  lemma {:induction false} BareKey(s: string, p: nat)
    requires p <= |s|
    ensures PrintLead(Bare("")) == "" && KeyAt(s, p, false) == ([], p)
  {
  }

  /** What the round at an element that cannot be written so pushes first. */
  lemma {:induction false} BadRound(s: string, p: nat, e: Elem, obj: bool)
    requires Written(e, obj) && !ElemOk(e, obj) && At(s, p, PrintElem(e))
    requires var d := p + |PrintElem(e)|; Has(s, d, ',') || Has(s, d, Close(obj))
    ensures Has(s, p, '"') && SkipWs(s, p) == p && !LoneKey(s, p, obj) && e.lead.Keyed? == obj
    ensures var r := ReadEntry(s, p, obj);
            || (obj && |r.key| == 1 && r.key[0] != e.lead.key)
            || (r.key == (if obj then [e.lead.key] else []) && Extract(s[r.vstart..r.vend]) != Raw(e.val))
  {
    hide At, Print, PrintElem, PrintLead, BodyOk, SkipWs, Extract, Written, ElemOk, KeyAt, Walk;
    WrittenText(e, obj);
    if obj && !BodyOk(e.lead.key) {
      KeyFirst(e);
      OpensAt(s, p, e.lead.key, ":" + Print(e.val));
      KeyDiffers(s, p, e.lead.key);
    } else {
      assert e == Elem(e.lead, JStr(e.val.body), "");
      Literals(e.val.body);
      QuotedLength(e.val.body);
      ValueDiffers(s, p, e.lead, e.val.body, obj);
    }
  }

  /** From such an element on, the list is not the one of the elements. */
  lemma {:induction false} BadElem(s: string, p: nat, es: seq<Elem>, n: nat, obj: bool)
    requires 0 < n <= |es| && Written(es[|es| - n], obj) && !ElemOk(es[|es| - n], obj)
    requires At(s, p, PrintElem(es[|es| - n])) && !EndsInQuote(s)
    requires var d := p + |PrintElem(es[|es| - n])|; Has(s, d, ',') || Has(s, d, Close(obj))
    ensures p < |s| && !KeysRunOut(s, p, obj) && ListFrom(s, p, obj) != Listed(es, n)
  {
    hide At, Print, PrintElem, PrintLead, BodyOk, SkipWs, ReadEntry, Extract, Written, ElemOk, EndsInQuote, Raw;
    var e := es[|es| - n];
    BadRound(s, p, e, obj);
    NotRunOut(s, p, obj);
    var r := ReadEntry(s, p, obj);
    var x, y := Extract(s[r.vstart..r.vend]), Raw(e.val);
    var a, b := ListFrom(s, r.next, obj), Listed(es, n - 1);
    if obj && r.key != [e.lead.key] {
      assert (r.key + ([x] + a))[0] == r.key[0] && ([e.lead.key] + ([y] + b))[0] == e.lead.key;
    } else {
      OtherValue(r.key, x, a, y, b);
    }
  }

  lemma {:induction false} OtherValue(key: seq<string>, x: string, a: seq<string>, y: string, b: seq<string>)
    requires x != y
    ensures key + ([x] + a) != key + ([y] + b)
  {
    assert (key + ([x] + a))[|key|] == x && (key + ([y] + b))[|key|] == y;
  }

  lemma {:induction false} NotRunOut(s: string, p: nat, obj: bool)
    requires p <= |s| && !EndsInQuote(s)
    ensures !KeysRunOut(s, p, obj)
  {
    if KeysRunOut(s, p, obj) { ListOverrunEndsInQuote(s, p, obj); }
  }

  /** The values from k on that a round for the k-th element leaves. */
  lemma {:induction false} ListedStrs(show: SValue -> string, vs: seq<SValue>, obj: bool, n: nat)
    requires n <= |ToElems(show, vs, obj)|
    ensures var es, w := ToElems(show, vs, obj), if obj then 2 else 1;
            w * |es| <= |vs| && Listed(es, n) == Strs(show, vs, obj)[w * (|es| - n)..w * |es|]
    decreases n
  {
    hide Raw, ToJ, ToElems;
    var es, w, all := ToElems(show, vs, obj), if obj then 2 else 1, Strs(show, vs, obj);
    if n > 0 {
      var k := |es| - n;
      ListedStrs(show, vs, obj, n - 1);
      ElemFor(show, vs, obj, k);
      RawIs(show, vs[w * k + w - 1]);
      var rest := all[w * (k + 1)..w * |es|];
      if obj {
        assert all[w * k..w * |es|] == [show(vs[2 * k])] + ([show(vs[2 * k + 1])] + rest);
      } else {
        assert all[w * k..w * |es|] == [show(vs[k])] + rest;
      }
    }
  }

  lemma {:induction false} RawIs(show: SValue -> string, v: SValue)
    ensures Raw(ToJ(show, v)) == show(v)
  {
  }

  lemma {:induction false} StrsLength(show: SValue -> string, vs: seq<SValue>, obj: bool)
    ensures |Strs(show, vs, obj)| == (if obj then 2 else 1) * |ToElems(show, vs, obj)|
  {
  }

  /** The elements from the first that cannot be written so. */
  lemma {:induction false} ListsOther(s: string, p: nat, es: seq<Elem>, n: nat, obj: bool)
    requires 0 < n <= |es| && !EndsInQuote(s) && (forall k :: 0 <= k < |es| ==> Written(es[k], obj))
    requires exists k :: |es| - n <= k < |es| && !ElemOk(es[k], obj)
    requires At(s, p, PrintElems(es, n)) && Has(s, p + |PrintElems(es, n)|, Close(obj))
    ensures p < |s| && !KeysRunOut(s, p, obj) && ListFrom(s, p, obj) != Listed(es, n)
    decreases n
  {
    hide At, PrintLead, Print, PrintElem, PrintElems, Placed, Ok, ElemOk, LeadOk, AllWs, SkipWs, Walk, Delim,
         ReadEntry, Extract, Raw, Written, ListFrom, KeysRunOut, EndsInQuote;
    var e := es[|es| - n];
    ElemParts(s, p, es, n, obj);
    WrittenText(e, obj);
    if !ElemOk(e, obj) {
      WholeElem(s, p, es, n);
      BadElem(s, p, es, n, obj);
    } else {
      var next := p + |PrintElem(e)| + 1;
      GoodRound(s, p, e, next - 1, obj);
      ListsOther(s, next, es, n - 1, obj);
      Longer(if obj then [e.lead.key] else [], Raw(e.val), ListFrom(s, next, obj), Listed(es, n - 1));
    }
  }

  lemma {:induction false} Longer(key: seq<string>, x: string, a: seq<string>, b: seq<string>)
    requires a != b
    ensures key + ([x] + a) != key + ([x] + b)
  {
    var l, r := key + ([x] + a), key + ([x] + b);
    assert l[|key| + 1..] == a && r[|key| + 1..] == b;
  }

  lemma {:induction false} WholeElem(s: string, p: nat, es: seq<Elem>, n: nat)
    requires 0 < n <= |es| && At(s, p, PrintElems(es, n))
    ensures At(s, p, PrintElem(es[|es| - n]))
  {
    hide At, PrintElem;
    if n > 1 { Split(s, p, PrintElem(es[|es| - n]), "," + PrintElems(es, n - 1)); }
  }

  /** The round at a well-formed element that another one follows, behind the comma at d. */
  lemma {:induction false} GoodRound(s: string, p: nat, e: Elem, d: nat, obj: bool)
    requires ElemOk(e, obj) && !EndsInQuote(s) && Has(s, d, ',')
    requires At(s, p, PrintLead(e.lead)) && At(s, p + |PrintLead(e.lead)|, Print(e.val) + e.after)
    requires d == p + |PrintLead(e.lead)| + |Print(e.val)| + |e.after|
    ensures p < |s| && !KeysRunOut(s, p, obj) && !KeysRunOut(s, d + 1, obj) && e.lead.Keyed? == obj
    ensures ListFrom(s, p, obj) == (if obj then [e.lead.key] else []) + ([Raw(e.val)] + ListFrom(s, d + 1, obj))
  {
    hide At, PrintLead, Print, Placed, Ok, ElemOk, LeadOk, SkipWs, Delim, ReadEntry, Extract, Raw, EndsInQuote;
    GoodElem(s, p, e, obj);
    EntryIs(s, p, e.lead, e.val, e.after, obj);
    LeadKind(e.lead, obj);
    NotRunOut(s, p, obj);
    NotRunOut(s, d + 1, obj);
  }

  lemma {:induction false} GoodElem(s: string, p: nat, e: Elem, obj: bool)
    requires ElemOk(e, obj) && At(s, p + |PrintLead(e.lead)|, Print(e.val) + e.after)
    requires var d := p + |PrintLead(e.lead)| + |Print(e.val)| + |e.after|; Has(s, d, ',') || Has(s, d, Close(obj))
    ensures LeadOk(e.lead, obj) && Placed(s, p + |PrintLead(e.lead)|, e.val, e.after)
    ensures Delim(s, p + |PrintLead(e.lead)| + |Print(e.val)| + |e.after|)
  {
    hide At, PrintLead, Print, Ok, LeadOk, AllWs;
  }

  /** The text of an object or array, well-formed or not. */
  lemma {:induction false} OuterParts(v: J)
    requires v.JNode?
    ensures var s := Print(v);
            && Has(s, 0, Open(v.obj)) && SkipWs(s, 0) == 0 && !EndsInQuote(s)
            && At(s, 1, Middle(v)) && Has(s, 1 + |Middle(v)|, Close(v.obj))
  {
    hide Print, Middle;
    var s, m := Print(v), Middle(v);
    PrintNode(v);
    assert s[0] == Open(v.obj) && s[1..1 + |m|] == m && s[1 + |m|] == Close(v.obj);
  }

  /** The list of the text of such elements. */
  lemma {:induction false} ListsOtherText(v: J)
    requires v.JNode? && v.elems != [] && (forall k :: 0 <= k < |v.elems| ==> Written(v.elems[k], v.obj))
    requires exists k :: 0 <= k < |v.elems| && !ElemOk(v.elems[k], v.obj)
    ensures !ListOverruns(Print(v)) && Json2List(Print(v)) != Listed(v.elems, |v.elems|)
  {
    hide Print, PrintElems, Middle, At, ListFrom, KeysRunOut, Written, ElemOk, SkipWs, EndsInQuote, Listed;
    OuterParts(v);
    MiddleFull(v);
    ListsOther(Print(v), 1, v.elems, |v.elems|, v.obj);
  }

  /** A list turned into JSON and back is the list of its values as strings exactly when the
      strings that are put between quotes can stand there. */
  lemma {:induction false} ListRoundTrip(show: SValue -> string, vs: seq<SValue>, obj: bool)
    requires Words(show, vs, obj)
    ensures !ListOverruns(List2Json(show, vs, obj))
    ensures Json2List(List2Json(show, vs, obj)) == Strs(show, vs, obj) <==> Quotable(show, vs, obj)
  {
    hide Print, ToElems, Words, Quotable, Ok, ElemOk, Written, Json2List, ListOverruns, Listed, Strs, AllWs;
    var es := ToElems(show, vs, obj);
    var v := JNode(obj, "", es);
    ListedStrs(show, vs, obj, |es|);
    StrsLength(show, vs, obj);
    if Quotable(show, vs, obj) {
      forall k | 0 <= k < |es| ensures ElemOk(es[k], obj) { QuotableElem(show, vs, obj, k); }
      NodeOk(v);
      Lists("", v, "");
      assert Doc("", v, "") == Print(v);
    } else {
      forall k | 0 <= k < |es| ensures Written(es[k], obj) { WrittenElem(show, vs, obj, k); }
      if forall k :: 0 <= k < |es| ==> ElemOk(es[k], obj) { ElemsQuotable(show, vs, obj); }
      ListsOtherText(v);
    }
  }

  lemma {:induction false} NodeOk(v: J)
    requires v.JNode? && v.inner == "" && forall k :: 0 <= k < |v.elems| ==> ElemOk(v.elems[k], v.obj)
    ensures Ok(v) && AllWs("")
  {
    hide ElemOk;
  }
}
