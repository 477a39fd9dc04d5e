/** Setting and reading JSON text agree with updating and looking up its tree. */
module JsonLaws {
  import opened Json
  import opened JsonGrammar

  // ----- trees -----

  datatype Option<+T> = None | Some(value: T)

  /** The first of the last n elements under a key, or -1. */
  function KeyIndex(es: seq<Elem>, key: string, n: nat): (k: int)
    requires n <= |es|
    ensures k == -1 || |es| - n <= k < |es|
    ensures k >= 0 ==> es[k].lead.Keyed? && es[k].lead.key == key
    ensures forall j :: |es| - n <= j < (if k < 0 then |es| else k) ==> !(es[j].lead.Keyed? && es[j].lead.key == key)
    decreases n
  {
    if n == 0 then -1
    else if es[|es| - n].lead.Keyed? && es[|es| - n].lead.key == key then |es| - n
    else KeyIndex(es, key, n - 1)
  }

  /** What a path leads to. */
  function Lookup(v: J, path: seq<Step>): Option<J>
    decreases |path|
  {
    if path == [] then Some(v)
    else if !v.JNode? then None
    else if path[0].Name? && v.obj then
      var k := KeyIndex(v.elems, path[0].key, |v.elems|);
      if k < 0 then None else Lookup(v.elems[k].val, path[1..])
    else if path[0].Nth? && !v.obj && 0 <= path[0].i < |v.elems| then Lookup(v.elems[path[0].i].val, path[1..])
    else None
  }

  /** What llJsonGetValue shows of a value. */
  function Raw(v: J): string { if v.JStr? then v.body else Print(v) }

  /** An object with a value put under a key: in place of the first one there, or behind
      the last member. */
  function Put(o: J, key: string, nv: J): J
    requires o.JNode?
  {
    var k := KeyIndex(o.elems, key, |o.elems|);
    if k >= 0 then
      var e := o.elems[k];
      o.(elems := o.elems[k := Elem(e.lead, nv, e.after[Tail(e.val, e.after)..])])
    else
      o.(elems := o.elems + [Elem(Keyed(if o.elems == [] then o.inner else "", key, "", ""), nv, "")])
  }

  lemma {:induction false} PutOk(o: J, key: string, nv: J)
    requires Ok(o) && o.JNode? && o.obj && BodyOk(key) && Ok(nv)
    ensures Ok(Put(o, key, nv))
  {
    hide BodyOk;
  }

  lemma {:induction false} KeyIndexIs(es: seq<Elem>, key: string, n: nat, k: nat)
    requires n <= |es| && |es| - n <= k < |es| && es[k].lead.Keyed? && es[k].lead.key == key
    requires forall j :: |es| - n <= j < k ==> !(es[j].lead.Keyed? && es[j].lead.key == key)
    ensures KeyIndex(es, key, n) == k
  {
  }

  /** The key put reads as the new value. */
  lemma {:induction false} LookupPut(o: J, key: string, nv: J, rest: seq<Step>)
    requires o.JNode? && o.obj
    ensures Lookup(Put(o, key, nv), [Name(key)] + rest) == Lookup(nv, rest)
  {
    var p := Put(o, key, nv);
    var k := KeyIndex(o.elems, key, |o.elems|);
    KeyIndexIs(p.elems, key, |p.elems|, if k >= 0 then k else |o.elems|);
    assert ([Name(key)] + rest)[1..] == rest;
  }

  /** Other keys read as before. */
  lemma {:induction false} LookupOther(o: J, key: string, nv: J, path: seq<Step>)
    requires o.JNode? && o.obj && path != [] && path[0] != Name(key)
    ensures Lookup(Put(o, key, nv), path) == Lookup(o, path)
  {
    if path[0].Name? {
      var p := Put(o, key, nv);
      var k := KeyIndex(o.elems, path[0].key, |o.elems|);
      if k >= 0 { KeyIndexIs(p.elems, path[0].key, |p.elems|, k); }
    }
  }

  // ----- a value in its place -----

  predicate Delim(s: string, p: nat) { p < |s| && (s[p] == ',' || s[p] == '}' || s[p] == ']') }

  /** The value u stands at q, with white space behind it; a number or word is followed by
      a comma or a closing bracket after that. */
  predicate Placed(s: string, q: nat, u: J, after: string) {
    && Ok(u) && AllWs(after) && At(s, q, Print(u) + after)
    && (u.JPrim? ==> Delim(s, q + |Print(u)| + |after|))
  }

  lemma {:induction false} WalkPlaced(s: string, q: nat, u: J, after: string)
    requires Placed(s, q, u, after)
    ensures At(s, q, Print(u)) && Walk(s, q) == q + |Print(u)| + Tail(u, after)
    ensures q < |s| && SkipWs(s, q) == q
  {
    Split(s, q, Print(u), after);
    FirstChar(s, q, u);
    if u.JPrim? { WalkValue(s, q, u, after); } else { WalkClosed(s, q, u); }
  }

  lemma {:induction false} ExtractCrs(t: string, w: string)
    requires t != "" && !IsWs(t[0]) && !IsWs(t[|t| - 1]) && (forall i :: 0 <= i < |w| ==> w[i] == '\r')
    ensures Extract(t + w) == Extract(t)
    decreases |w|
  {
    var x := t + w;
    if w == "" {
      assert x == t;
    } else {
      assert x[..|x| - 1] == t + w[..|w| - 1];
      ExtractCrs(t, w[..|w| - 1]);
    }
  }

  lemma {:induction false} LastChar(u: J)
    requires Ok(u)
    ensures Print(u) != "" && !IsWs(Print(u)[0]) && !IsWs(Print(u)[|Print(u)| - 1])
    ensures Extract(Print(u)) == Raw(u)
  {
    hide BodyOk, PrintElems;
    var t := Print(u);
    match u
    case JStr(b) => assert t[1..|t| - 1] == b;
    case JPrim(x) => assert !Structural(t[0]) && !Structural(t[|t| - 1]);
    case JNode(obj, _, _) => assert t[0] == Open(obj) && t[|t| - 1] == Close(obj);
  }

  /** What a value's text is read as: white space around it does not count, and neither do the
      quotes of a string. */
  lemma {:induction false} ExtractTrims(w: string, t: string, u: string)
    requires (forall c :: c in w + u ==> c in " \t\n\r")
    requires t != "" ==> t[0] !in " \t\n\r" && t[|t| - 1] !in " \t\n\r"
    ensures Extract(w + t + u) ==
            if |t| > 1 && t[0] == '"' && t[|t| - 1] == '"' then t[1..|t| - 1] else t
    decreases |w| + |u|
  {
    var s := w + t + u;
    if w != "" {
      assert s[0] == w[0] && w[0] in w + u && s[1..] == w[1..] + t + u;
      ExtractTrims(w[1..], t, u);
    } else if u != "" {
      var n := |u| - 1;
      assert u[n] in w + u && u[0] in w + u && s[|s| - 1] == u[n];
      if t == "" {
        assert s[1..] == w + t + u[1..];
        ExtractTrims(w, t, u[1..]);
      } else {
        assert s[..|s| - 1] == w + t + u[..n];
        ExtractTrims(w, t, u[..n]);
      }
    } else {
      assert s == t;
    }
  }

  /** What reading gives for a path that leads nowhere: U+FFF6 in UTF-8. */
  lemma Marker()
    ensures |INVALID| == 3 && INVALID[0] as int == 0xef && INVALID[1] as int == 0xbf && INVALID[2] as int == 0xb6
  {
  }

  lemma {:induction false} ExtractPlaced(s: string, q: nat, u: J, after: string)
    requires Placed(s, q, u, after)
    ensures Walk(s, q) <= |s| && Extract(s[q..Walk(s, q)]) == Raw(u)
  {
    WalkPlaced(s, q, u, after);
    var n := Tail(u, after);
    var x := s[q..Walk(s, q)];
    var full := s[q..q + |Print(u) + after|];
    assert x == full[..|Print(u)| + n] == Print(u) + after[..n];
    LastChar(u);
    ExtractCrs(Print(u), after[..n]);
  }

  // ----- elements in their place -----

  /** Where the value of element k starts in the text of the last n. */
  function Offset(es: seq<Elem>, n: nat, k: nat): (r: nat)
    requires 0 < n <= |es| && |es| - n <= k < |es|
    decreases n
  {
    var e := es[|es| - n];
    if k == |es| - n then |PrintLead(e.lead)| else |PrintElem(e)| + 1 + Offset(es, n - 1, k)
  }

  /** The next element, its value, and what stands behind it. */
  lemma {:induction false} FirstElem(s: string, p: nat, es: seq<Elem>, n: nat, obj: bool)
    requires 0 < n <= |es| && (forall i :: 0 <= i < |es| ==> ElemOk(es[i], obj))
    requires At(s, p, PrintElems(es, n)) && Has(s, p + |PrintElems(es, n)|, Close(obj))
    ensures var e := es[|es| - n];
            && LeadOk(e.lead, obj) && At(s, p, PrintLead(e.lead))
            && Placed(s, p + |PrintLead(e.lead)|, e.val, e.after)
            && |PrintElem(e)| == |PrintLead(e.lead)| + |Print(e.val)| + |e.after|
            && Delim(s, p + |PrintElem(e)|)
            && Has(s, p + |PrintElem(e)|, if n == 1 then Close(obj) else ',')
            && (n > 1 ==> At(s, p + |PrintElem(e)| + 1, PrintElems(es, n - 1)) &&
                          |PrintElems(es, n)| == |PrintElem(e)| + 1 + |PrintElems(es, n - 1)|)
            && (n == 1 ==> PrintElems(es, n) == PrintElem(e))
  {
    hide At, Print, PrintLead, LeadOk, Ok, AllWs;
    var e := es[|es| - n];
    assert ElemOk(e, obj);
    if n > 1 {
      Split(s, p, PrintElem(e), "," + PrintElems(es, n - 1));
      Split(s, p + |PrintElem(e)|, ",", PrintElems(es, n - 1));
      OneChar(s, p + |PrintElem(e)|, ',');
    }
    Split(s, p, PrintLead(e.lead), Print(e.val) + e.after);
  }

  /** Where the parts of a key and its colon stand. */
  lemma {:induction false} KeyParts(s: string, p: nat, l: Lead)
    requires LeadOk(l, true) && At(s, p, PrintLead(l))
    ensures var q := p + |l.w1|;
            var ke := q + |l.key| + 2;
            var c := ke + |l.w2|;
            && At(s, p, l.w1) && Has(s, q, '"') && WalkStr(s, q) == ke <= |s| && s[q + 1..ke - 1] == l.key
            && At(s, ke, l.w2) && Has(s, c, ':') && At(s, c + 1, l.w3) && c + 1 + |l.w3| == p + |PrintLead(l)|
  {
    hide At, BodyOk, AllWs, WalkStr, Quoted, PrintLead, LeadOk;
    KeyedText(l);
    QuotedLength(l.key);
    var q := p + |l.w1|;
    var ke := q + |l.key| + 2;
    Split(s, p, l.w1, Quoted(l.key) + (l.w2 + (":" + l.w3)));
    Split(s, q, Quoted(l.key), l.w2 + (":" + l.w3));
    Split(s, ke, l.w2, ":" + l.w3);
    Split(s, ke + |l.w2|, ":", l.w3);
    OneChar(s, ke + |l.w2|, ':');
    LiteralEnds(s, q, l.key);
    AtSlice(s, q + 1, l.key);
  }

  lemma {:induction false} KeyedText(l: Lead)
    requires LeadOk(l, true)
    ensures l.Keyed? && AllWs(l.w1) && BodyOk(l.key) && AllWs(l.w2) && AllWs(l.w3)
    ensures PrintLead(l) == l.w1 + (Quoted(l.key) + (l.w2 + (":" + l.w3)))
  {
  }

  lemma {:induction false} QuotedLength(k: string)
    ensures |Quoted(k)| == |k| + 2
  {
  }

  /** Reading a member gives its key and its value's place. */
  lemma {:induction false} ReadKeyed(s: string, p: nat, l: Lead, u: J, after: string)
    requires LeadOk(l, true) && At(s, p, PrintLead(l)) && Placed(s, p + |PrintLead(l)|, u, after)
    ensures var v := p + |PrintLead(l)|;
            ReadMember(s, p) == Pair(l.key, v, v + |Print(u)| + Tail(u, after))
    ensures p + |l.w1| < p + |PrintLead(l)| && SkipWs(s, p) == p + |l.w1| && Has(s, p + |l.w1|, '"')
  {
    hide At, BodyOk, AllWs, Ok, Print, PrintLead, Placed, Walk, WalkStr, SkipWs, Tail;
    var v := p + |PrintLead(l)|;
    WalkPlaced(s, v, u, after);
    KeyParts(s, p, l);
    var q := p + |l.w1|;
    var ke := q + |l.key| + 2;
    SkipTo(s, p, l.w1);
    SkipTo(s, ke, l.w2);
    SkipOver(s, ke + |l.w2| + 1, l.w3);
  }

  /** Behind a value there is only white space up to the comma or bracket. */
  lemma {:induction false} BehindValue(s: string, q: nat, u: J, after: string)
    requires Placed(s, q, u, after) && Delim(s, q + |Print(u)| + |after|)
    ensures q + |Print(u)| + Tail(u, after) <= |s|
    ensures SkipWs(s, q + |Print(u)| + Tail(u, after)) == q + |Print(u)| + |after|
  {
    hide Print, Ok, At, AllWs, Crs, Delim, SkipWs;
    Split(s, q, Print(u), after);
    BehindText(s, q + |Print(u)|, after, Tail(u, after));
  }

  lemma {:induction false} BehindText(s: string, p: nat, after: string, n: nat)
    requires At(s, p, after) && AllWs(after) && n <= |after| && Delim(s, p + |after|)
    ensures p + n <= |s| && SkipWs(s, p + n) == p + |after|
  {
    hide At, SkipWs;
    assert after == after[..n] + after[n..];
    Split(s, p, after[..n], after[n..]);
    SkipTo(s, p + n, after[n..]);
  }

  /** The value of element k, as looked up, stands at its offset. */
  lemma {:induction false} ElemPlaced(s: string, p: nat, es: seq<Elem>, n: nat, obj: bool, k: nat)
    requires 0 < n <= |es| && |es| - n <= k < |es| && (forall i :: 0 <= i < |es| ==> ElemOk(es[i], obj))
    requires At(s, p, PrintElems(es, n)) && Has(s, p + |PrintElems(es, n)|, Close(obj))
    ensures Placed(s, p + Offset(es, n, k), es[k].val, es[k].after)
    ensures Delim(s, p + Offset(es, n, k) + |Print(es[k].val)| + |es[k].after|)
    decreases n
  {
    hide At, Placed, PrintLead, Print, Ok;
    FirstElem(s, p, es, n, obj);
    if k > |es| - n { ElemPlaced(s, p + |PrintElem(es[|es| - n])| + 1, es, n - 1, obj, k); }
  }

  // ----- lookup in text -----

  /** The search of an object's members goes to the value of the first member with the key. */
  lemma {:induction false} FindNameOk(s: string, p: nat, es: seq<Elem>, n: nat, path: seq<Step>)
    requires 0 < n <= |es| && (forall i :: 0 <= i < |es| ==> ElemOk(es[i], true)) && path != [] && path[0].Name?
    requires At(s, p, PrintElems(es, n)) && Has(s, p + |PrintElems(es, n)|, '}')
    ensures var k := KeyIndex(es, path[0].key, n);
            if k < 0 then FindName(s, p, path) == Missing
            else p + Offset(es, n, k) <= |s| && FindName(s, p, path) == Find(s, p + Offset(es, n, k), path[1..])
    decreases n
  {
    hide At, PrintLead, Print, PrintElem, PrintElems, Placed, Ok, ElemOk, LeadOk, ReadMember, Find, AllWs, SkipWs,
         Walk, Delim, Tail;
    var e := es[|es| - n];
    FirstElem(s, p, es, n, true);
    LeadKeyed(e.lead);
    var v := p + |PrintLead(e.lead)|;
    ReadKeyed(s, p, e.lead, e.val, e.after);
    BehindValue(s, v, e.val, e.after);
    if n > 1 { FindNameOk(s, p + |PrintElem(e)| + 1, es, n - 1, path); }
  }

  lemma {:induction false} LeadKeyed(l: Lead)
    requires LeadOk(l, true)
    ensures l.Keyed?
  {
  }

  /** An item of an array: where its value starts and where the text goes on behind it. */
  lemma {:induction false} ReadItem(s: string, p: nat, l: Lead, u: J, after: string)
    requires LeadOk(l, false) && At(s, p, PrintLead(l)) && Placed(s, p + |PrintLead(l)|, u, after)
    requires Delim(s, p + |PrintLead(l)| + |Print(u)| + |after|)
    ensures var v := p + |PrintLead(l)|;
            SkipWs(s, p) == v < |s| && s[v] != ']' && SkipWs(s, Walk(s, v)) == v + |Print(u)| + |after|
  {
    hide At, AllWs, Ok, Print, Walk, SkipWs, Delim;
    var v := p + |PrintLead(l)|;
    WalkPlaced(s, v, u, after);
    FirstChar(s, v, u);
    SkipTo(s, p, l.w1);
    BehindValue(s, v, u, after);
  }

  /** The search of an array's items goes to the item with the index. */
  lemma {:induction false} FindNthOk(s: string, p: nat, es: seq<Elem>, n: nat, path: seq<Step>)
    requires 0 < n <= |es| && (forall i :: 0 <= i < |es| ==> ElemOk(es[i], false)) && path != [] && path[0].Nth?
    requires At(s, p, PrintElems(es, n)) && Has(s, p + |PrintElems(es, n)|, ']')
    ensures var k := path[0].i;
            if |es| - n <= k < |es| then
              p + Offset(es, n, k) <= |s| && FindNth(s, p, |es| - n, path) == Find(s, p + Offset(es, n, k), path[1..])
            else FindNth(s, p, |es| - n, path) == Missing
    decreases n
  {
    hide At, PrintLead, Print, PrintElem, PrintElems, Placed, Ok, ElemOk, LeadOk, Find, AllWs, SkipWs, Walk, Delim;
    var e := es[|es| - n];
    FirstElem(s, p, es, n, false);
    ReadItem(s, p, e.lead, e.val, e.after);
    if n > 1 { FindNthOk(s, p + |PrintElem(e)| + 1, es, n - 1, path); }
  }

  /** Where the parts of an object or array stand. */
  lemma {:induction false} NodeParts(s: string, p: nat, v: J)
    requires Ok(v) && v.JNode? && At(s, p, Print(v))
    ensures At(s, p + 1, Middle(v)) && Has(s, p + 1 + |Middle(v)|, Close(v.obj)) && |Print(v)| == |Middle(v)| + 2
    ensures AllWs(v.inner) && forall i :: 0 <= i < |v.elems| ==> ElemOk(v.elems[i], v.obj)
  {
    hide At, AllWs, ElemOk, Middle;
    PrintNode(v);
    Split(s, p, [Open(v.obj)], Middle(v) + [Close(v.obj)]);
    Split(s, p + 1, Middle(v), [Close(v.obj)]);
    OneChar(s, p + 1 + |Middle(v)|, Close(v.obj));
  }

  /** A step into a value. */
  lemma {:induction false} FindStep(s: string, p: nat, v: J, after: string, path: seq<Step>)
    requires Placed(s, p, v, after) && path != []
    ensures At(s, p, Print(v)) && Ok(v) && p < |s|
    ensures Find(s, p, path) ==
            if v.JNode? && v.obj && path[0].Name? then FindName(s, p + 1, path)
            else if v.JNode? && !v.obj && path[0].Nth? then FindNth(s, p + 1, 0, path)
            else Missing
  {
    hide FindName, FindNth, Walk, SkipWs, Ok, Print, At;
    WalkPlaced(s, p, v, after);
    FirstChar(s, p, v);
  }

  /** Searching text finds what the path leads to in the tree, for every path. */
  lemma {:induction false} FindOk(s: string, p: nat, v: J, after: string, path: seq<Step>) returns (q: nat, aft: string)
    requires Placed(s, p, v, after)
    ensures match Lookup(v, path)
            case None => Find(s, p, path) == Missing
            case Some(u) => Placed(s, q, u, aft) && Find(s, p, path) == Spot(q)
    decreases |path|
  {
    hide Print, PrintElems, KeyIndex, FindName, FindNth, Placed, Ok, ElemOk, At, AllWs, SkipWs, Offset;
    q, aft := p, after;
    if path == [] {
      WalkPlaced(s, p, v, after);
    } else {
      FindStep(s, p, v, after, path);
      if v.JNode? && v.obj == path[0].Name? {
        NodeParts(s, p, v);
        var es, n := v.elems, |v.elems|;
        var k := if v.obj then KeyIndex(es, path[0].key, n) else path[0].i;
        if n == 0 {
          EmptyNode(s, p + 1, v.inner, v.obj, path);
        } else if v.obj {
          FindNameOk(s, p + 1, es, n, path);
        } else {
          FindNthOk(s, p + 1, es, n, path);
        }
        if 0 <= k < n {
          ElemPlaced(s, p + 1, es, n, v.obj, k);
          q, aft := FindOk(s, p + 1 + Offset(es, n, k), es[k].val, es[k].after, path[1..]);
        }
      }
    }
  }

  lemma {:induction false} PrintNode(v: J)
    requires v.JNode?
    ensures Print(v) == [Open(v.obj)] + (Middle(v) + [Close(v.obj)])
  {
  }

  lemma {:induction false} EmptyNode(s: string, p: nat, w: string, obj: bool, path: seq<Step>)
    requires AllWs(w) && At(s, p, w) && Has(s, p + |w|, Close(obj)) && path != []
    ensures path[0].Name? && obj ==> FindName(s, p, path) == Missing
    ensures path[0].Nth? && !obj ==> FindNth(s, p, 0, path) == Missing
  {
    SkipTo(s, p, w);
  }

  // ----- setting in text -----

  /** A document: a value between white space and other text. */
  function Doc(w0: string, v: J, tail: string): string { w0 + (Print(v) + tail) }

  predicate IsObject(v: J) { v.JNode? && v.obj }

  /** Seeking past one member. */
  lemma {:induction false} SeekStep(s: string, p: nat, end: nat, key: string, l: Lead, u: J, after: string)
    requires LeadOk(l, true) && At(s, p, PrintLead(l)) && Placed(s, p + |PrintLead(l)|, u, after)
    requires var n := p + |PrintLead(l)| + |Print(u)| + |after|;
             n <= end < |s| && (Has(s, n, ',') || (Has(s, n, '}') && n == end))
    ensures var v := p + |PrintLead(l)|;
            var n := v + |Print(u)| + |after|;
            Seek(s, p, end, key) ==
            if l.key == key then Pair(key, v, v + |Print(u)| + Tail(u, after))
            else if Has(s, n, ',') then Seek(s, n + 1, end, key)
            else NoPair
  {
    hide At, PrintLead, Print, Placed, LeadOk, ReadMember, SkipWs, Tail;
    LeadKeyed(l);
    ReadKeyed(s, p, l, u, after);
    BehindValue(s, p + |PrintLead(l)|, u, after);
  }

  /** Seeking a key among the members stops at the value of the first one that has it. */
  lemma {:induction false} SeekOk(s: string, p: nat, es: seq<Elem>, n: nat, key: string)
    requires 0 < n <= |es| && (forall i :: 0 <= i < |es| ==> ElemOk(es[i], true))
    requires At(s, p, PrintElems(es, n)) && Has(s, p + |PrintElems(es, n)|, '}')
    ensures var k := KeyIndex(es, key, n);
            Seek(s, p, p + |PrintElems(es, n)|, key) ==
            if k < 0 then NoPair
            else var v := p + Offset(es, n, k); Pair(key, v, v + |Print(es[k].val)| + Tail(es[k].val, es[k].after))
    decreases n
  {
    hide At, PrintLead, Print, PrintElem, PrintElems, Placed, Ok, ElemOk, LeadOk, Seek, Delim, Tail;
    var e := es[|es| - n];
    FirstElem(s, p, es, n, true);
    LeadKeyed(e.lead);
    SeekStep(s, p, p + |PrintElems(es, n)|, key, e.lead, e.val, e.after);
    if n > 1 { SeekOk(s, p + |PrintElem(e)| + 1, es, n - 1, key); }
  }

  /** Cutting out the middle of a + b + after + rest, and t more characters. */
  lemma {:induction false} CutFirst(x: string, a: string, b: string, after: string, rest: string, t: nat)
    requires t <= |after| && x == a + (b + after) + rest
    ensures |a| + |b| + t <= |x| && x[..|a|] == a && x[|a| + |b| + t..] == after[t..] + rest
  {
  }

  /** Cutting behind a head. */
  lemma {:induction false} CutRest(x: string, h: string, y: string, v: nat, v2: nat)
    requires x == h + y && v <= v2 <= |y|
    ensures |h| + v2 <= |x| && x[..|h| + v] == h + y[..v] && x[|h| + v2..] == y[v2..]
  {
  }

  /** Replacing the text of a value, and the carriage returns scanned with it, replaces the
      value in the tree. */
  lemma {:induction false} ReplaceText(es: seq<Elem>, n: nat, k: nat, nv: J, t: nat)
    requires 0 < n <= |es| && |es| - n <= k < |es| && t <= |es[k].after|
    ensures var es' := es[k := Elem(es[k].lead, nv, es[k].after[t..])];
            var x, v := PrintElems(es, n), Offset(es, n, k);
            && v + |Print(es[k].val)| + t <= |x|
            && PrintElems(es', n) == x[..v] + Print(nv) + x[v + |Print(es[k].val)| + t..]
    decreases n
  {
    hide Print, PrintLead;
    var e := es[|es| - n];
    var es' := es[k := Elem(es[k].lead, nv, es[k].after[t..])];
    var x, v, b := PrintElems(es, n), Offset(es, n, k), Print(es[k].val);
    if k == |es| - n {
      if n > 1 { SameRest(es, es', n - 1); }
      var a, rest := PrintLead(e.lead), if n == 1 then "" else "," + PrintElems(es, n - 1);
      FirstText(es, n);
      CutFirst(x, a, b, e.after, rest, t);
      FirstText(es', n);
      Reassociate(a, Print(nv), e.after[t..], rest);
    } else {
      ReplaceLater(es, n, k, nv, t);
    }
  }

  lemma {:induction false} FirstText(es: seq<Elem>, n: nat)
    requires 0 < n <= |es|
    ensures var e := es[|es| - n];
            PrintElems(es, n) ==
            PrintLead(e.lead) + (Print(e.val) + e.after) + (if n == 1 then "" else "," + PrintElems(es, n - 1))
  {
    hide Print, PrintLead;
    assert PrintElem(es[|es| - n]) + "" == PrintElem(es[|es| - n]);
  }

  lemma {:induction false} Reassociate(a: string, b: string, c: string, d: string)
    ensures a + (b + c) + d == a + b + (c + d) && a + (b + (c + d)) == a + b + (c + d)
  {
  }

  lemma {:induction false} ReplaceLater(es: seq<Elem>, n: nat, k: nat, nv: J, t: nat)
    requires 1 < n <= |es| && |es| - n < k < |es| && t <= |es[k].after|
    ensures var es' := es[k := Elem(es[k].lead, nv, es[k].after[t..])];
            var x, v := PrintElems(es, n), Offset(es, n, k);
            && v + |Print(es[k].val)| + t <= |x|
            && PrintElems(es', n) == x[..v] + Print(nv) + x[v + |Print(es[k].val)| + t..]
    decreases n, 0
  {
    hide Print, PrintLead, PrintElem;
    var e := es[|es| - n];
    var es' := es[k := Elem(es[k].lead, nv, es[k].after[t..])];
    var h, y, y', v := PrintElem(e) + ",", PrintElems(es, n - 1), PrintElems(es', n - 1), Offset(es, n - 1, k);
    var v2 := v + |Print(es[k].val)| + t;
    ReplaceText(es, n - 1, k, nv, t);
    var x := PrintElems(es, n);
    assert x == h + y;
    CutRest(x, h, y, v, v2);
    assert PrintElems(es', n) == h + y';
    Reassociate(h, y[..v], Print(nv), y[v2..]);
  }

  lemma {:induction false} SameRest(es: seq<Elem>, es': seq<Elem>, n: nat)
    requires 0 < n <= |es| == |es'| && es[|es| - n..] == es'[|es| - n..]
    ensures PrintElems(es, n) == PrintElems(es', n)
    decreases n
  {
    hide PrintElem;
    assert es[|es| - n] == es[|es| - n..][0] == es'[|es| - n];
    if n > 1 {
      assert es[|es| - (n - 1)..] == es[|es| - n..][1..];
      assert es'[|es| - (n - 1)..] == es'[|es| - n..][1..];
      SameRest(es, es', n - 1);
    } else {
      assert es[|es| - 1] == es'[|es| - 1];
    }
  }

  lemma {:induction false} AppendText(es: seq<Elem>, n: nat, e: Elem)
    requires 0 < n <= |es|
    ensures PrintElems(es + [e], n + 1) == PrintElems(es, n) + ("," + PrintElem(e))
    decreases n
  {
    hide PrintElem, PrintElems;
    var all := es + [e];
    assert all[|all| - (n + 1)] == es[|es| - n] && all[|all| - 1] == e;
    var x := PrintElem(es[|es| - n]);
    ElemsText(all, n + 1);
    ElemsText(es, n);
    if n == 1 {
      ElemsText(all, 1);
    } else {
      AppendText(es, n - 1, e);
      var y, z := PrintElems(es, n - 1), PrintElem(e);
      assert x + ("," + (y + ("," + z))) == (x + ("," + y)) + ("," + z);
    }
  }

  lemma {:induction false} ElemsText(es: seq<Elem>, n: nat)
    requires 0 < n <= |es|
    ensures PrintElems(es, n) ==
            if n == 1 then PrintElem(es[|es| - 1]) else PrintElem(es[|es| - n]) + ("," + PrintElems(es, n - 1))
  {
    hide PrintElem;
  }

  /** How Splice comes to the object: its closing bracket, and the member with the key. */
  lemma {:induction false} Sought(w0: string, o: J, tail: string, key: string)
    requires AllWs(w0) && Ok(o) && o.JNode? && o.obj
    ensures var s, p, end := w0 + (Print(o) + tail), |w0|, |w0| + 1 + |Middle(o)|;
            && SkipWs(s, 0) == p && Has(s, p, '{') && MatchAt(s, p, '{', '}', 0) == end < |s|
            && Seek(s, p + 1, end, key) == MemberOf(o, p + 1, key)
  {
    hide Print, Middle, MatchAt, SkipWs, At, AllWs, Ok, Seek, KeyIndex, Offset, PrintElems, Tail;
    var s, p := w0 + (Print(o) + tail), |w0|;
    Whole(s);
    Split(s, 0, w0, Print(o) + tail);
    Split(s, p, Print(o), tail);
    FirstChar(s, p, o);
    SkipTo(s, 0, w0);
    MatchNode(s, p, o);
    NodeParts(s, p, o);
    if o.elems == [] { SeekEmpty(s, p + 1, o, key); } else { SeekMembers(s, p + 1, o, key); }
  }

  lemma {:induction false} Whole(s: string)
    ensures At(s, 0, s)
  {
  }

  /** The member with the key, in the text of an object's members at p. */
  function MemberOf(o: J, p: nat, key: string): Member
    requires o.JNode?
  {
    var k := KeyIndex(o.elems, key, |o.elems|);
    if k < 0 then NoPair
    else
      var v := p + Offset(o.elems, |o.elems|, k);
      Pair(key, v, v + |Print(o.elems[k].val)| + Tail(o.elems[k].val, o.elems[k].after))
  }

  lemma {:induction false} SeekEmpty(s: string, p: nat, o: J, key: string)
    requires Ok(o) && o.JNode? && o.obj && o.elems == [] && At(s, p, Middle(o)) && Has(s, p + |Middle(o)|, '}')
    ensures Seek(s, p, p + |Middle(o)|, key) == MemberOf(o, p, key)
  {
    hide At, AllWs;
    SkipTo(s, p, o.inner);
  }

  lemma {:induction false} SeekMembers(s: string, p: nat, o: J, key: string)
    requires Ok(o) && o.JNode? && o.obj && o.elems != [] && At(s, p, Middle(o)) && Has(s, p + |Middle(o)|, '}')
    ensures Seek(s, p, p + |Middle(o)|, key) == MemberOf(o, p, key)
  {
    hide At, AllWs, PrintElems, Seek, KeyIndex, Offset, Print;
    SeekOk(s, p, o.elems, |o.elems|, key);
  }

  /** Splicing when the key is there. */
  lemma {:induction false} SpliceReplaces(w0: string, o: J, tail: string, key: string, nv: J)
    requires Ok(o) && IsObject(o) && KeyIndex(o.elems, key, |o.elems|) >= 0
    ensures var s, m := Doc(w0, o, tail), MemberOf(o, |w0| + 1, key);
            m.vstart <= m.vend <= |s| &&
            s[..m.vstart] + Print(nv) + s[m.vend..] == Doc(w0, Put(o, key, nv), tail)
  {
    hide Print, Middle, Ok, Put, Offset, PrintElems, Tail, KeyIndex;
    var k := KeyIndex(o.elems, key, |o.elems|);
    var v := Offset(o.elems, |o.elems|, k);
    var v2 := v + |Print(o.elems[k].val)| + Tail(o.elems[k].val, o.elems[k].after);
    PutIsNode(o, key, nv);
    PrintNode(o);
    PrintNode(Put(o, key, nv));
    PutMiddle(o, key, nv);
    CutInside(Doc(w0, o, tail), w0, Middle(o), tail, v, v2, Print(nv));
  }

  /** Splicing when the key is not there. */
  lemma {:induction false} SpliceAppends(w0: string, o: J, tail: string, key: string, nv: J)
    requires Ok(o) && IsObject(o) && KeyIndex(o.elems, key, |o.elems|) < 0
    ensures var s, p, end := Doc(w0, o, tail), |w0|, |w0| + 1 + |Middle(o)|;
            end < |s| &&
            s[..end] + (if AllWs(s[p + 1..end]) then "" else ",") + Quoted(key) + ":" + Print(nv) + s[end..] ==
            Doc(w0, Put(o, key, nv), tail)
  {
    hide Print, Middle, AllWs, Ok, Put, PrintElems, KeyIndex, Quoted;
    PutIsNode(o, key, nv);
    PrintNode(o);
    PrintNode(Put(o, key, nv));
    CutObject(Doc(w0, o, tail), w0, Middle(o), tail);
    BlankMiddle(o);
    AppendMiddle(o, key, nv);
    JoinObject(w0, Middle(o), if o.elems == [] then "" else ",", Quoted(key), Print(nv), tail);
  }

  /** Splicing the text of a value under a key gives the text of the object with the value
      put under the key. */
  lemma {:induction false} SpliceOk(w0: string, o: J, tail: string, key: string, nv: J)
    requires AllWs(w0) && Ok(o) && IsObject(o)
    ensures Splice(Doc(w0, o, tail), key, Print(nv)) == Doc(w0, Put(o, key, nv), tail)
  {
    hide Doc, Print, Middle, MatchAt, SkipWs, AllWs, Ok, Seek, Put, Offset, PrintElems, Tail, Quoted, KeyIndex;
    DocText(w0, o, tail);
    Sought(w0, o, tail, key);
    if KeyIndex(o.elems, key, |o.elems|) >= 0 {
      SpliceReplaces(w0, o, tail, key, nv);
    } else {
      SpliceAppends(w0, o, tail, key, nv);
    }
  }

  lemma {:induction false} DocText(w0: string, v: J, tail: string)
    ensures Doc(w0, v, tail) == w0 + (Print(v) + tail)
  {
  }

  lemma {:induction false} PutIsNode(o: J, key: string, nv: J)
    requires o.JNode?
    ensures Put(o, key, nv).JNode? && Put(o, key, nv).obj == o.obj && Put(o, key, nv).elems != []
  {
  }

  /** The parts of the text of an object between white space and other text. */
  lemma {:induction false} CutObject(s: string, w0: string, x: string, tail: string)
    requires s == w0 + (("{" + (x + "}")) + tail)
    ensures var p, end := |w0|, |w0| + 1 + |x|;
            end < |s| && s[..end] == w0 + "{" + x && s[end..] == "}" + tail && s[p + 1..end] == x
  {
  }

  lemma {:induction false} CutInside(s: string, w0: string, x: string, tail: string, v: nat, v2: nat, text: string)
    requires s == w0 + (("{" + (x + "}")) + tail) && v <= v2 <= |x|
    ensures var p := |w0|;
            p + 1 + v2 <= |s| &&
            s[..p + 1 + v] + text + s[p + 1 + v2..] == w0 + (("{" + ((x[..v] + text + x[v2..]) + "}")) + tail)
  {
    assert s[..|w0| + 1 + v] == (w0 + "{") + x[..v];
    assert s[|w0| + 1 + v2..] == x[v2..] + ("}" + tail);
  }

  lemma {:induction false} JoinObject(w0: string, x: string, comma: string, k: string, text: string, tail: string)
    ensures (w0 + "{" + x) + comma + k + ":" + text + ("}" + tail) ==
            w0 + (("{" + ((x + (comma + k + ":" + text)) + "}")) + tail)
  {
  }

  lemma {:induction false} PutMiddle(o: J, key: string, nv: J)
    requires o.JNode? && KeyIndex(o.elems, key, |o.elems|) >= 0
    ensures var k := KeyIndex(o.elems, key, |o.elems|);
            var v := Offset(o.elems, |o.elems|, k);
            var v2 := v + |Print(o.elems[k].val)| + Tail(o.elems[k].val, o.elems[k].after);
            v2 <= |Middle(o)| && Middle(Put(o, key, nv)) == Middle(o)[..v] + Print(nv) + Middle(o)[v2..]
  {
    hide Print, PrintElems, Offset;
    var k := KeyIndex(o.elems, key, |o.elems|);
    ReplaceText(o.elems, |o.elems|, k, nv, Tail(o.elems[k].val, o.elems[k].after));
  }

  lemma {:induction false} AppendMiddle(o: J, key: string, nv: J)
    requires o.JNode? && KeyIndex(o.elems, key, |o.elems|) < 0
    ensures Middle(Put(o, key, nv)) ==
            Middle(o) + ((if o.elems == [] then "" else ",") + Quoted(key) + ":" + Print(nv))
  {
    hide Print, KeyIndex, Quoted;
    var w := if o.elems == [] then o.inner else "";
    var e := Elem(Keyed(w, key, "", ""), nv, "");
    MemberText(w, key, nv);
    if o.elems != [] {
      AppendText(o.elems, |o.elems|, e);
      CommaText(PrintElems(o.elems, |o.elems|), Quoted(key), Print(nv));
    }
  }

  lemma {:induction false} MemberText(w: string, key: string, nv: J)
    ensures PrintElem(Elem(Keyed(w, key, "", ""), nv, "")) == w + ("" + Quoted(key) + ":" + Print(nv))
  {
    hide Print, Quoted;
    Blanks(w, Quoted(key), Print(nv));
  }

  lemma {:induction false} Blanks(w: string, k: string, t: string)
    ensures w + (k + ("" + (":" + ""))) + (t + "") == w + ("" + k + ":" + t)
  {
  }

  lemma {:induction false} CommaText(x: string, k: string, t: string)
    ensures x + ("," + ("" + ("" + k + ":" + t))) == x + ("," + k + ":" + t)
  {
  }

  /** The text between the brackets is white space just for an empty object. */
  lemma {:induction false} BlankMiddle(o: J)
    requires o.JNode? && o.obj && Ok(o)
    ensures AllWs(Middle(o)) == (o.elems == [])
  {
    hide Print, PrintElems, ElemOk;
    if o.elems != [] { NotBlank(o); }
  }

  /** The text of members is not all white space. */
  lemma {:induction false} NotBlank(o: J)
    requires o.JNode? && o.obj && o.elems != [] && Ok(o)
    ensures !AllWs(PrintElems(o.elems, |o.elems|))
  {
    hide Print;
    var e := o.elems[0];
    assert ElemOk(e, true);
    var x := PrintElems(o.elems, |o.elems|);
    assert PrintElem(e) ==
           (e.lead.w1 + (Quoted(e.lead.key) + (e.lead.w2 + (":" + e.lead.w3)))) + (Print(e.val) + e.after);
    assert PrintElem(e)[|e.lead.w1|] == '"';
    assert x[|e.lead.w1|] == '"';
  }

  // ----- get and set -----

  /** What llJsonGetValue gives for a looked-up value. */
  function Shown(u: Option<J>): string {
    match u
    case None => INVALID
    case Some(v) => Raw(v)
  }

  lemma {:induction false} DocPlaced(w0: string, v: J, tail: string, path: seq<Step>)
    requires AllWs(w0) && Ok(v) && !v.JPrim?
    ensures Placed(Doc(w0, v, tail), |w0|, v, "")
    ensures Find(Doc(w0, v, tail), 0, path) == Find(Doc(w0, v, tail), |w0|, path)
  {
    hide Print, Ok, FindName, FindNth, AllWs, SkipWs;
    var s := Doc(w0, v, tail);
    Literals("");
    Whole(s);
    Split(s, 0, w0, Print(v) + tail);
    Split(s, |w0|, Print(v), tail);
    assert Print(v) + "" == Print(v);
    SkipOver(s, 0, w0);
    WalkPlaced(s, |w0|, v, "");
  }

  /** A document that is a bare number or word. */
  lemma {:induction false} BareDoc(w0: string, v: J, tail: string, path: seq<Step>)
    requires AllWs(w0) && Ok(v) && v.JPrim? && AllWs(tail)
    ensures var s, f := Doc(w0, v, tail), Find(Doc(w0, v, tail), 0, path);
            if path != [] then f == Missing
            else f == Spot(|w0|) && Walk(s, |w0|) <= |s| && Extract(s[|w0|..Walk(s, |w0|)]) == Raw(v)
  {
    hide Print, FindName, FindNth, AllWs, Walk, Ok, At, SkipWs, Extract, Raw, Doc;
    var s, p, t := Doc(w0, v, tail), |w0|, v.text;
    BareText(w0, v, tail);
    FirstChar(s, p, v);
    SkipTo(s, 0, w0);
    WalkPrim(s, p, t, tail);
    var n := Crs(tail);
    assert s[p..] == t + tail;
    assert s[p..p + |t| + n] == t + tail[..n];
    LastChar(v);
    ExtractCrs(t, tail[..n]);
  }

  lemma {:induction false} BareText(w0: string, v: J, tail: string)
    requires Ok(v) && v.JPrim?
    ensures var s := Doc(w0, v, tail);
            && s == w0 + (v.text + tail) && Print(v) == v.text && PrimOk(v.text)
            && At(s, 0, w0) && At(s, |w0|, v.text + tail) && At(s, |w0|, v.text)
  {
    hide Print, At;
    var s := Doc(w0, v, tail);
    PrimText(v);
    Whole(s);
    Split(s, 0, w0, v.text + tail);
    Split(s, |w0|, v.text, tail);
  }

  /** Reading a document by any path shows what the path leads to in its tree, or the
      invalid marker when it leads nowhere. Behind a bare number or word there is white
      space at most. */
  lemma {:induction false} GetReads(w0: string, v: J, tail: string, path: seq<Step>)
    requires AllWs(w0) && Ok(v) && (v.JPrim? ==> AllWs(tail))
    ensures GetValue(Doc(w0, v, tail), path) == Shown(Lookup(v, path))
  {
    hide Find, Placed, Ok, Doc, Walk, Raw, Extract, AllWs;
    var s := Doc(w0, v, tail);
    if v.JPrim? {
      BareDoc(w0, v, tail, path);
    } else {
      hide Lookup;
      DocPlaced(w0, v, tail, path);
      var q, after := FindOk(s, |w0|, v, "", path);
      if Lookup(v, path).Some? { ExtractPlaced(s, q, Lookup(v, path).value, after); }
    }
  }

  /** A path that a change at `key` does not concern. */
  predicate Apart(path: seq<Step>, key: string) { path != [] && path[0] != Name(key) }

  /** Setting a one-level path gives a well-formed object, which differs in nothing but the
      value that now reads back at that path. */
  lemma {:induction false} SetOne(w0: string, o: J, tail: string, key: string, val: string, path: seq<Step>)
    requires AllWs(w0) && Ok(o) && o.JNode? && o.obj && BodyOk(key) && BodyOk(val)
    ensures var after := SetValue(Doc(w0, o, tail), [Name(key)], val);
            && Ok(Put(o, key, JStr(val))) && after == Doc(w0, Put(o, key, JStr(val)), tail)
            && GetValue(after, [Name(key)]) == val
            && (Apart(path, key) ==> GetValue(after, path) == GetValue(Doc(w0, o, tail), path))
  {
    hide Ok, Put, BodyOk, AllWs, GetValue, Splice;
    var o' := Put(o, key, JStr(val));
    Literals(val);
    PutOk(o, key, JStr(val));
    PutIsNode(o, key, JStr(val));
    SpliceOk(w0, o, tail, key, JStr(val));
    GetReads(w0, o', tail, [Name(key)]);
    LookupPut(o, key, JStr(val), []);
    assert [Name(key)] + [] == [Name(key)];
    if Apart(path, key) {
      GetReads(w0, o, tail, path);
      GetReads(w0, o', tail, path);
      LookupOther(o, key, JStr(val), path);
    }
  }

  /** The object under the first key of a two-level path; a new one when the key is absent. */
  function Inner(o: J, k1: string): J
    requires o.JNode?
  {
    var k := KeyIndex(o.elems, k1, |o.elems|);
    if k < 0 then JNode(true, "", []) else o.elems[k].val
  }

  lemma {:induction false} InnerOk(o: J, k1: string)
    requires Ok(o) && IsObject(o)
    ensures Ok(Inner(o, k1))
  {
    hide KeyIndex;
    var k := KeyIndex(o.elems, k1, |o.elems|);
    if k >= 0 { assert ElemOk(o.elems[k], true); }
  }

  lemma {:induction false} FindHere(s: string, p: nat)
    requires p <= |s| && SkipWs(s, p) == p
    ensures Find(s, p, []) == Spot(p)
  {
    hide SkipWs;
  }

  /** The search of the members of an object for a key. */
  lemma {:induction false} MemberFound(s: string, p: nat, o: J, k1: string)
    requires Ok(o) && IsObject(o) && At(s, p, Print(o))
    ensures var m := MemberOf(o, p + 1, k1);
            && p < |s|
            && FindName(s, p + 1, [Name(k1)]) == (if m.NoPair? then Missing else Spot(m.vstart))
            && (m.Pair? ==> m.vend <= |s| && Walk(s, m.vstart) == m.vend &&
                            Placed(s, m.vstart, Inner(o, k1), o.elems[KeyIndex(o.elems, k1, |o.elems|)].after))
  {
    hide Print, PrintElems, Placed, Ok, At, AllWs, Offset, Walk, FindName, Find, KeyIndex, Tail, SkipWs, Middle, ElemOk;
    var es, n := o.elems, |o.elems|;
    var path := [Name(k1)];
    NodeParts(s, p, o);
    if n == 0 {
      MiddleEmpty(o);
      EmptyNode(s, p + 1, o.inner, true, path);
      NoKey(es, k1);
    } else {
      MiddleFull(o);
      FindNameOk(s, p + 1, es, n, path);
      var k := KeyIndex(es, k1, n);
      if k >= 0 {
        var v := p + 1 + Offset(es, n, k);
        ElemPlaced(s, p + 1, es, n, true, k);
        WalkPlaced(s, v, es[k].val, es[k].after);
        assert path[1..] == [];
        FindHere(s, v);
      }
    }
  }

  /** The text that the setter takes as the value of the first key. */
  lemma {:induction false} InnerText(w0: string, o: J, tail: string, k1: string)
    requires AllWs(w0) && Ok(o) && IsObject(o)
    ensures var s := Doc(w0, o, tail);
            var f := Find(s, 0, [Name(k1)]);
            var m := MemberOf(o, |w0| + 1, k1);
            if m.NoPair? then f == Missing
            else f == Spot(m.vstart) && m.vend <= |s| && Walk(s, m.vstart) == m.vend &&
                 Placed(s, m.vstart, Inner(o, k1), o.elems[KeyIndex(o.elems, k1, |o.elems|)].after)
  {
    hide Print, Placed, Ok, At, AllWs, Walk, FindName, Doc, KeyIndex, Inner;
    var s, p := Doc(w0, o, tail), |w0|;
    DocPlaced(w0, o, tail, [Name(k1)]);
    FindStep(s, p, o, "", [Name(k1)]);
    MemberFound(s, p, o, k1);
  }

  lemma {:induction false} MiddleEmpty(o: J)
    requires o.JNode? && o.elems == []
    ensures Middle(o) == o.inner
  {
  }

  lemma {:induction false} MiddleFull(o: J)
    requires o.JNode? && o.elems != []
    ensures Middle(o) == PrintElems(o.elems, |o.elems|)
  {
  }

  lemma {:induction false} NoKey(es: seq<Elem>, key: string)
    requires es == []
    ensures KeyIndex(es, key, |es|) == -1
  {
  }

  /** Where the first key is absent or holds an object, the setter rewrites that object. */
  lemma {:induction false} SetInner(w0: string, o: J, tail: string, k1: string, k2: string, val: string)
    requires AllWs(w0) && Ok(o) && IsObject(o) && IsObject(Inner(o, k1))
    ensures SetValue(Doc(w0, o, tail), [Name(k1), Name(k2)], val) ==
            Doc(w0, Put(o, k1, Put(Inner(o, k1), k2, JStr(val))), tail)
  {
    hide Ok, Put, Print, KeyIndex, Find, Placed, Walk, Splice, Quoted, AllWs, Offset;
    Literals(val);
    var s := Doc(w0, o, tail);
    var f := Find(s, 0, [Name(k1)]);
    var sub := Inner(o, k1);
    InnerText(w0, o, tail, k1);
    InnerOk(o, k1);
    var text := if f.Spot? then s[f.at..Walk(s, f.at)] else "{}";
    if f.Spot? {
      var after := o.elems[KeyIndex(o.elems, k1, |o.elems|)].after;
      WalkPlaced(s, f.at, sub, after);
      AtSlice(s, f.at, Print(sub));
    } else {
      EmptyText();
    }
    assert text == Print(sub);
    assert "" + (Print(sub) + "") == Print(sub);
    DocText("", sub, "");
    SpliceOk("", sub, "", k2, JStr(val));
    var sub' := Put(sub, k2, JStr(val));
    DocText("", sub', "");
    assert "" + (Print(sub') + "") == Print(sub');
    SpliceOk(w0, o, tail, k1, sub');
  }

  lemma {:induction false} Literals(val: string)
    ensures AllWs("") && Print(JStr(val)) == Quoted(val) && Ok(JStr(val)) == BodyOk(val)
  {
  }

  lemma {:induction false} AtSlice(s: string, p: nat, t: string)
    requires At(s, p, t)
    ensures p + |t| <= |s| && s[p..p + |t|] == t
  {
  }

  lemma {:induction false} EmptyText()
    ensures Print(JNode(true, "", [])) == "{}"
  {
  }

  /** Setting a two-level path whose first key is absent or holds an object gives a
      well-formed object. The value reads back at the path; every other top-level key, and
      every other path under the first key, reads as before. */
  lemma {:induction false} SetTwo(w0: string, o: J, tail: string, k1: string, k2: string, val: string, path: seq<Step>)
    requires AllWs(w0) && Ok(o) && IsObject(o) && IsObject(Inner(o, k1))
    requires BodyOk(k1) && BodyOk(k2) && BodyOk(val)
    ensures var o' := Put(o, k1, Put(Inner(o, k1), k2, JStr(val)));
            var after := SetValue(Doc(w0, o, tail), [Name(k1), Name(k2)], val);
            && Ok(o') && after == Doc(w0, o', tail)
            && GetValue(after, [Name(k1), Name(k2)]) == val
            && (Apart(path, k1) || (|path| >= 2 && path[0] == Name(k1) && Apart(path[1..], k2)) ==>
                GetValue(after, path) == GetValue(Doc(w0, o, tail), path))
  {
    hide Ok, Put, BodyOk, AllWs, GetValue, SetValue, KeyIndex;
    var sub' := Put(Inner(o, k1), k2, JStr(val));
    var o' := Put(o, k1, sub');
    SetInner(w0, o, tail, k1, k2, val);
    Literals(val);
    InnerOk(o, k1);
    PutOk(Inner(o, k1), k2, JStr(val));
    PutOk(o, k1, sub');
    PutIsNode(o, k1, sub');
    GetReads(w0, o', tail, [Name(k1), Name(k2)]);
    ReadBack(o, k1, k2, val);
    if Apart(path, k1) || (|path| >= 2 && path[0] == Name(k1) && Apart(path[1..], k2)) {
      GetReads(w0, o, tail, path);
      GetReads(w0, o', tail, path);
      if Apart(path, k1) { LookupOther(o, k1, sub', path); } else { LookupBeside(o, k1, k2, val, path); }
    }
  }

  lemma {:induction false} ReadBack(o: J, k1: string, k2: string, val: string)
    requires IsObject(o) && IsObject(Inner(o, k1))
    ensures Lookup(Put(o, k1, Put(Inner(o, k1), k2, JStr(val))), [Name(k1), Name(k2)]) == Some(JStr(val))
  {
    hide Put;
    var sub' := Put(Inner(o, k1), k2, JStr(val));
    LookupPut(o, k1, sub', [Name(k2)]);
    LookupPut(Inner(o, k1), k2, JStr(val), []);
    assert [Name(k1)] + [Name(k2)] == [Name(k1), Name(k2)] && [Name(k2)] + [] == [Name(k2)];
  }

  lemma {:induction false} LookupBeside(o: J, k1: string, k2: string, val: string, path: seq<Step>)
    requires IsObject(o) && IsObject(Inner(o, k1))
    requires |path| >= 2 && path[0] == Name(k1) && Apart(path[1..], k2)
    ensures Lookup(Put(o, k1, Put(Inner(o, k1), k2, JStr(val))), path) == Lookup(o, path)
  {
    hide Put;
    var sub' := Put(Inner(o, k1), k2, JStr(val));
    assert [Name(k1)] + path[1..] == path;
    LookupPut(o, k1, sub', path[1..]);
    LookupOther(Inner(o, k1), k2, JStr(val), path[1..]);
  }

  /** Where the first key holds anything but an object, a two-level path sets nothing: the
      document stays as it is, character by character, and the path leads nowhere. */
  lemma {:induction false} SetBlocked(w0: string, o: J, tail: string, k1: string, k2: string, val: string)
    requires AllWs(w0) && Ok(o) && IsObject(o) && !IsObject(Inner(o, k1))
    ensures SetValue(Doc(w0, o, tail), [Name(k1), Name(k2)], val) == Doc(w0, o, tail)
    ensures GetValue(Doc(w0, o, tail), [Name(k1), Name(k2)]) == INVALID
  {
    hide Ok, Print, KeyIndex, Find, Placed, Walk, AllWs, Offset, Splice, GetValue, Tail, Quoted, Doc, Inner, Lookup;
    var s := Doc(w0, o, tail);
    var f := Find(s, 0, [Name(k1)]);
    InnerText(w0, o, tail, k1);
    NoInner(o, k1, k2);
    var text := s[f.at..Walk(s, f.at)];
    NotAnObject(s, f.at, Inner(o, k1), o.elems[KeyIndex(o.elems, k1, |o.elems|)].after);
    SpliceOther(text, k2, Quoted(val));
    SpliceBack(w0, o, tail, k1);
    GetReads(w0, o, tail, [Name(k1), Name(k2)]);
  }

  lemma {:induction false} NoInner(o: J, k1: string, k2: string)
    requires IsObject(o) && !IsObject(Inner(o, k1))
    ensures KeyIndex(o.elems, k1, |o.elems|) >= 0 && Lookup(o, [Name(k1), Name(k2)]) == None
  {
    hide KeyIndex;
    assert [Name(k1), Name(k2)][1..] == [Name(k2)];
  }

  /** Text that is no object is left alone. */
  lemma {:induction false} SpliceOther(t: string, key: string, text: string)
    requires SkipWs(t, 0) == 0 && !Has(t, 0, '{')
    ensures Splice(t, key, text) == t
  {
    hide SkipWs, MatchAt, Seek;
  }

  /** Where the key is there, Splice cuts out its value. */
  lemma {:induction false} SpliceCuts(s: string, key: string, text: string, p: nat, end: nat)
    requires SkipWs(s, 0) == p && Has(s, p, '{') && MatchAt(s, p, '{', '}', 0) == end < |s|
    requires Seek(s, p + 1, end, key).Pair?
    ensures var m := Seek(s, p + 1, end, key); Splice(s, key, text) == s[..m.vstart] + text + s[m.vend..]
  {
    hide SkipWs, MatchAt, Seek, Quoted, AllWs;
  }

  lemma CutAndPaste(s: string, a: nat, b: nat)
    requires a <= b <= |s|
    ensures s[..a] + s[a..b] + s[b..] == s
  {
  }

  /** Putting the text of a value back changes nothing. */
  lemma {:induction false} SpliceBack(w0: string, o: J, tail: string, key: string)
    requires AllWs(w0) && Ok(o) && IsObject(o)
    ensures var s, m := Doc(w0, o, tail), MemberOf(o, |w0| + 1, key);
            m.Pair? && m.vstart <= m.vend <= |s| ==> Splice(s, key, s[m.vstart..m.vend]) == s
  {
    hide Ok, Print, AllWs, Seek, MatchAt, Middle, SkipWs, Doc, Splice, MemberOf;
    var s, m := Doc(w0, o, tail), MemberOf(o, |w0| + 1, key);
    DocText(w0, o, tail);
    Sought(w0, o, tail, key);
    if m.Pair? && m.vstart <= m.vend <= |s| {
      SpliceCuts(s, key, s[m.vstart..m.vend], |w0|, |w0| + 1 + |Middle(o)|);
      CutAndPaste(s, m.vstart, m.vend);
    }
  }

  lemma {:induction false} NotAnObject(s: string, q: nat, u: J, after: string)
    requires Placed(s, q, u, after) && !IsObject(u)
    ensures var t := s[q..Walk(s, q)]; SkipWs(t, 0) == 0 && !Has(t, 0, '{')
  {
    hide At, Print, Walk, Ok;
    WalkPlaced(s, q, u, after);
    FirstChar(s, q, u);
    var t := s[q..Walk(s, q)];
    assert t[0] == s[q];
  }
}
