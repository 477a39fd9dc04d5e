/** llJsonSetValue puts its value between quotes as it stands: which values read back. */
module JsonEscapes {
  import opened Json
  import opened JsonGrammar
  import opened JsonLaws
  import opened JsonEndings

  /** Text without quotes and backslashes can stand in a string literal. */
  lemma {:induction false} PlainBody(t: string)
    requires '"' !in t && '\\' !in t
    ensures BodyOk(t)
  {
    if t != "" { PlainBody(t[1..]); }
  }

  // ----- a literal that does not end where it should -----

  lemma {:induction false} StrEndIs(s: string, p: nat)
    requires p < |s|
    ensures var e := StrEnd(s, p); e > p && (e == |s| || s[e - 1] == '"')
    decreases |s| - p
  {
    var next := if s[p] == '\\' && p + 1 < |s| then p + 2 else p + 1;
    if s[p] != '"' && next < |s| { StrEndIs(s, next); }
  }

  /** With a bare quote or a trailing backslash inside, a literal ends before its closing
      quote or behind it. */
  lemma {:induction false} StrayEnd(s: string, p: nat, b: string)
    requires !BodyOk(b) && At(s, p, b + "\"") && p + |b| + 1 < |s|
    ensures var e := StrEnd(s, p);
            && p < e && (e == |s| || s[e - 1] == '"')
            && (e <= p + |b| || e > p + |b| + 1)
    decreases |b|
  {
    StrEndIs(s, p);
    Chars(s, p, b + "\"");
    assert s[p + 0] == (b + "\"")[0] == b[0];
    var k := if b[0] == '\\' then 2 else 1;
    if k > |b| {
      StrEndIs(s, p + 2);
    } else if b[0] != '"' {
      assert b + "\"" == b[..k] + (b[k..] + "\"");
      Split(s, p, b[..k], b[k..] + "\"");
      StrayEnd(s, p + k, b[k..]);
    }
  }

  /** Trimming stops at the last character that is not white space. */
  lemma {:induction false} ExtractLong(t: string, j: nat)
    requires j < |t| && !IsWs(t[0]) && !IsWs(t[j])
    ensures |Extract(t)| + 1 >= j
    decreases |t|
  {
    if IsWs(t[|t| - 1]) { ExtractLong(t[..|t| - 1], j); }
  }

  /** What is read at such a literal is not what was put there. */
  lemma {:induction false} ReadsOther(s: string, v: nat, val: string, d: nat)
    requires !BodyOk(val) && At(s, v, Quoted(val)) && v + |val| + 2 <= d < |s| && !IsWs(s[d])
    ensures v <= Walk(s, v) <= |s| && Extract(s[v..Walk(s, v)]) != val
  {
    hide BodyOk;
    Split(s, v, "\"", val + "\"");
    OneChar(s, v, '"');
    StrayEnd(s, v + 1, val);
    var e := StrEnd(s, v + 1);
    assert SkipWs(s, v) == v && Walk(s, v) == e;
    var t := s[v..e];
    assert t[0] == s[v] && t[|t| - 1] == s[e - 1];
    if e <= v + 1 + |val| {
      assert t[|t| - 1] == '"';
      assert Extract(t) == t[1..|t| - 1];
    } else {
      var j := if e == |s| then d - v else e - 1 - v;
      assert t[j] == s[v + j];
      ExtractLong(t, j);
    }
  }

  // ----- coming to the value -----

  /** The next element, well-formed or not. */
  lemma {:induction false} ElemParts(s: string, p: nat, es: seq<Elem>, n: nat, obj: bool)
    requires 0 < n <= |es|
    requires At(s, p, PrintElems(es, n)) && Has(s, p + |PrintElems(es, n)|, Close(obj))
    ensures var e := es[|es| - n];
            && At(s, p, PrintLead(e.lead)) && At(s, p + |PrintLead(e.lead)|, Print(e.val) + e.after)
            && |PrintElem(e)| == |PrintLead(e.lead)| + |Print(e.val)| + |e.after|
            && Has(s, p + |PrintElem(e)|, if n == 1 then Close(obj) else ',')
            && (n > 1 ==> At(s, p + |PrintElem(e)| + 1, PrintElems(es, n - 1)) &&
                          |PrintElems(es, n)| == |PrintElem(e)| + 1 + |PrintElems(es, n - 1)|)
  {
    hide At, Print, PrintLead;
    var e := es[|es| - n];
    if n > 1 {
      Split(s, p, PrintElem(e), "," + PrintElems(es, n - 1));
      Split(s, p + |PrintElem(e)|, ",", PrintElems(es, n - 1));
      OneChar(s, p + |PrintElem(e)|, ',');
    }
    Split(s, p, PrintLead(e.lead), Print(e.val) + e.after);
  }

  /** A member's key, when its value need not be well-formed. */
  lemma {:induction false} ReadKeyOnly(s: string, p: nat, l: Lead)
    requires LeadOk(l, true) && At(s, p, PrintLead(l))
    requires var v := p + |PrintLead(l)|; v < |s| && !IsWs(s[v])
    ensures var v := p + |PrintLead(l)|; ReadMember(s, p) == Pair(l.key, v, Walk(s, v))
  {
    hide At, BodyOk, AllWs, PrintLead, Walk, WalkStr, SkipWs;
    KeyParts(s, p, l);
    var ke := p + |l.w1| + |l.key| + 2;
    SkipTo(s, p, l.w1);
    SkipTo(s, ke, l.w2);
    SkipTo(s, ke + |l.w2| + 1, l.w3);
  }

  /** The text of a value starts with something else than white space. */
  predicate Starts(text: string) { text != "" && !IsWs(text[0]) }

  /** From p, the search for the key comes to v, where the text stands; and at d behind it
      and the white space after it there is more. */
  predicate Reaches(s: string, p: nat, key: string, text: string, after: string, v: nat, d: nat) {
    && p <= |s| && FindName(s, p, [Name(key)]) == Spot(v)
    && At(s, v, text + after) && v + |text| + |after| <= d < |s| && !IsWs(s[d])
  }

  /** The search for a key comes to its first value, when all members before are
      well-formed; that value need not be. */
  lemma {:induction false} FindNameComes(s: string, p: nat, es: seq<Elem>, n: nat, key: string, k: nat)
    requires 0 < n <= |es| && KeyIndex(es, key, n) == k
    requires (forall i :: |es| - n <= i < k ==> ElemOk(es[i], true)) && LeadOk(es[k].lead, true)
    requires Starts(Print(es[k].val))
    requires At(s, p, PrintElems(es, n)) && Has(s, p + |PrintElems(es, n)|, '}')
    ensures exists v, d :: Reaches(s, p, key, Print(es[k].val), es[k].after, v, d)
    decreases n
  {
    hide At, PrintLead, Print, PrintElem, PrintElems, Placed, Ok, ElemOk, LeadOk, ReadMember, AllWs, SkipWs, Walk,
         Delim, Tail, Reaches, Starts;
    var e := es[|es| - n];
    ElemParts(s, p, es, n, true);
    if k == |es| - n {
      Comes(s, p, e, key, p + |PrintElem(e)|);
    } else {
      assert ElemOk(e, true);
      Passes(s, p, e, key);
      var next := p + |PrintElem(e)| + 1;
      FindNameComes(s, next, es, n - 1, key, k);
      var v', d :| Reaches(s, next, key, Print(es[k].val), es[k].after, v', d);
      ReachesBack(s, p, next, key, Print(es[k].val), es[k].after, v', d);
    }
  }

  lemma {:induction false} Comes(s: string, p: nat, e: Elem, key: string, d: nat)
    requires LeadOk(e.lead, true) && e.lead.key == key && Starts(Print(e.val)) && At(s, p, PrintLead(e.lead))
    requires At(s, p + |PrintLead(e.lead)|, Print(e.val) + e.after)
    requires d == p + |PrintLead(e.lead)| + |Print(e.val)| + |e.after| && (Has(s, d, ',') || Has(s, d, '}'))
    ensures Reaches(s, p, key, Print(e.val), e.after, p + |PrintLead(e.lead)|, d)
  {
    hide At, Print, PrintLead, LeadOk, ReadMember, Walk;
    var v := p + |PrintLead(e.lead)|;
    Split(s, v, Print(e.val), e.after);
    Chars(s, v, Print(e.val));
    assert s[v + 0] == Print(e.val)[0];
    ReadKeyOnly(s, p, e.lead);
    assert [Name(key)][1..] == [];
    assert SkipWs(s, v) == v;
    assert Find(s, v, []) == Spot(v);
    assert p <= |s| && FindName(s, p, [Name(key)]) == Find(s, v, [Name(key)][1..]);
  }

  lemma {:induction false} Passes(s: string, p: nat, e: Elem, key: string)
    requires ElemOk(e, true) && !(e.lead.Keyed? && e.lead.key == key) && At(s, p, PrintLead(e.lead))
    requires At(s, p + |PrintLead(e.lead)|, Print(e.val) + e.after)
    requires Has(s, p + |PrintLead(e.lead)| + |Print(e.val)| + |e.after|, ',')
    ensures var n := p + |PrintLead(e.lead)| + |Print(e.val)| + |e.after|;
            FindName(s, p, [Name(key)]) == FindName(s, n + 1, [Name(key)])
  {
    hide At, PrintLead, Print, Ok, LeadOk, ReadMember, AllWs, SkipWs, Walk, Tail;
    LeadKeyed(e.lead);
    ReadKeyed(s, p, e.lead, e.val, e.after);
    BehindValue(s, p + |PrintLead(e.lead)|, e.val, e.after);
  }

  lemma {:induction false} ReachesBack(s: string, p: nat, next: nat, key: string, text: string, after: string, v: nat,
                                       d: nat)
    requires p <= |s| && Reaches(s, next, key, text, after, v, d)
    requires FindName(s, p, [Name(key)]) == FindName(s, next, [Name(key)])
    ensures Reaches(s, p, key, text, after, v, d)
  {
  }

  // ----- objects with a value put in -----

  /** The members of an object at q, well-formed or not. */
  lemma {:induction false} MembersAt(s: string, q: nat, o: J, key: string)
    requires IsObject(o) && o.elems != [] && At(s, q, Print(o))
    ensures var x := PrintElems(o.elems, |o.elems|);
            At(s, q + 1, x) && Has(s, q + 1 + |x|, '}') && Has(s, q, '{') && SkipWs(s, q) == q
    ensures Find(s, q, [Name(key)]) == FindName(s, q + 1, [Name(key)])
  {
    hide Print, PrintElems, Middle, At, FindName;
    PrintNode(o);
    MiddleFull(o);
    Split(s, q, "{", Middle(o) + "}");
    Split(s, q + 1, Middle(o), "}");
    OneChar(s, q, '{');
    OneChar(s, q + 1 + |Middle(o)|, '}');
  }

  /** The object with the value put in: its first member under the key holds it. */
  lemma {:induction false} PutParts(o: J, key: string, nv: J) returns (k: nat)
    requires Ok(o) && IsObject(o) && BodyOk(key)
    ensures var es := Put(o, key, nv).elems;
            && k < |es| && KeyIndex(es, key, |es|) == k && es[k].val == nv && LeadOk(es[k].lead, true)
            && forall i :: 0 <= i < k ==> ElemOk(es[i], true)
  {
    hide BodyOk;
    var es := Put(o, key, nv).elems;
    var j := KeyIndex(o.elems, key, |o.elems|);
    k := if j >= 0 then j else |o.elems|;
    assert j >= 0 ==> ElemOk(o.elems[j], true);
    Literals("");
    KeyIndexIs(es, key, |es|, k);
  }

  /** Wherever the object with the value put in stands, searching it for the key comes to
      the text of the value, with more text behind it. */
  lemma {:induction false} PutReached(s: string, q: nat, o: J, key: string, nv: J) returns (v: nat, after: string,
                                      d: nat)
    requires Ok(o) && IsObject(o) && BodyOk(key) && Starts(Print(nv)) && At(s, q, Print(Put(o, key, nv)))
    ensures q <= |s| && Find(s, q, [Name(key)]) == Spot(v)
    ensures At(s, v, Print(nv)) && v + |Print(nv)| <= d < |s| && !IsWs(s[d])
  {
    hide Print, PrintElems, At, FindName, Find, Put, BodyOk, Ok, ElemOk, LeadOk, KeyIndex, Starts;
    var o' := Put(o, key, nv);
    PutIsNode(o, key, nv);
    MembersAt(s, q, o', key);
    var k := PutParts(o, key, nv);
    FindNameComes(s, q + 1, o'.elems, |o'.elems|, key, k);
    var v', d' :| Reaches(s, q + 1, key, Print(nv), o'.elems[k].after, v', d');
    v, after, d := v', o'.elems[k].after, d';
    Split(s, v, Print(nv), after);
  }

  lemma {:induction false} DocAt(w0: string, v: J, tail: string, path: seq<Step>)
    requires AllWs(w0) && IsObject(v)
    ensures At(Doc(w0, v, tail), |w0|, Print(v))
    ensures Find(Doc(w0, v, tail), 0, path) == Find(Doc(w0, v, tail), |w0|, path)
  {
    hide Print, Middle, At, AllWs, FindName, FindNth, SkipWs;
    var s := Doc(w0, v, tail);
    Whole(s);
    PrintNode(v);
    Split(s, 0, w0, Print(v) + tail);
    Split(s, |w0|, Print(v), tail);
    SkipOver(s, 0, w0);
  }

  // ----- which values read back -----

  lemma {:induction false} LiteralStarts(val: string)
    ensures Starts(Print(JStr(val))) && Print(JStr(val)) == Quoted(val)
  {
  }

  lemma {:induction false} ObjectStarts(o: J)
    requires IsObject(o)
    ensures Starts(Print(o))
  {
    hide Middle;
    PrintNode(o);
  }

  /** A value set under a key of an object reads back exactly when it can stand in a string
      literal: when its quotes are escaped, and it does not end in a bare backslash. */
  lemma {:induction false} ReadsBackIff(w0: string, o: J, tail: string, key: string, val: string)
    requires AllWs(w0) && Ok(o) && IsObject(o) && BodyOk(key)
    ensures GetValue(SetValue(Doc(w0, o, tail), [Name(key)], val), [Name(key)]) == val <==> BodyOk(val)
  {
    hide Ok, Put, BodyOk, AllWs, Splice, Find, Walk, Extract, Doc, Print, Quoted, At, Starts;
    if BodyOk(val) {
      SetOne(w0, o, tail, key, val, []);
    } else {
      var nv := JStr(val);
      LiteralStarts(val);
      SpliceOk(w0, o, tail, key, nv);
      PutIsNode(o, key, nv);
      var r := Doc(w0, Put(o, key, nv), tail);
      DocAt(w0, Put(o, key, nv), tail, [Name(key)]);
      var v, after, d := PutReached(r, |w0|, o, key, nv);
      QuotedLength(val);
      ReadsOther(r, v, val, d);
    }
  }

  /** A value set at a two-level path reads back exactly when its first key is absent or
      holds an object and the value can stand in a string literal; through anything else
      the path reads as the invalid marker. */
  lemma {:induction false} ReadsBackIff2(w0: string, o: J, tail: string, k1: string, k2: string, val: string)
    requires AllWs(w0) && Ok(o) && IsObject(o) && BodyOk(k1) && BodyOk(k2)
    ensures var path := [Name(k1), Name(k2)];
            GetValue(SetValue(Doc(w0, o, tail), path, val), path) == val <==>
            if IsObject(Inner(o, k1)) then BodyOk(val) else val == INVALID
  {
    hide Ok, Put, BodyOk, AllWs, SetValue, GetValue, Inner, Doc;
    if !IsObject(Inner(o, k1)) {
      SetBlocked(w0, o, tail, k1, k2, val);
    } else if BodyOk(val) {
      SetTwo(w0, o, tail, k1, k2, val, []);
    } else {
      InnerReadsOther(w0, o, tail, k1, k2, val);
    }
  }

  lemma {:induction false} InnerReadsOther(w0: string, o: J, tail: string, k1: string, k2: string, val: string)
    requires AllWs(w0) && Ok(o) && IsObject(o) && BodyOk(k1) && BodyOk(k2) && IsObject(Inner(o, k1)) && !BodyOk(val)
    ensures var path := [Name(k1), Name(k2)];
            GetValue(SetValue(Doc(w0, o, tail), path, val), path) != val
  {
    hide Ok, Put, BodyOk, AllWs, SetValue, Find, Walk, Extract, Inner, Doc, Print, Quoted, At, Starts;
    var sub, nv := Inner(o, k1), JStr(val);
    var sub' := Put(sub, k2, nv);
    var o' := Put(o, k1, sub');
    SetInner(w0, o, tail, k1, k2, val);
    InnerOk(o, k1);
    PutIsNode(sub, k2, nv);
    PutIsNode(o, k1, sub');
    LiteralStarts(val);
    ObjectStarts(sub');
    var r := Doc(w0, o', tail);
    var a, b := [Name(k1)], [Name(k2)];
    DocAt(w0, o', tail, a + b);
    var v1, after1, d1 := PutReached(r, |w0|, o, k1, sub');
    var v2, after2, d2 := PutReached(r, v1, sub, k2, nv);
    FindSplits(r, |w0|, a, b);
    assert a + b == [Name(k1), Name(k2)];
    QuotedLength(val);
    ReadsOther(r, v2, val, d2);
  }
}
