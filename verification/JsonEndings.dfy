/** When a search of JSON text never ends, and when it copies memory without bound: exact
    conditions for every text and path. */
module JsonEndings {
  import opened Json

  /** An index that no item has. */
  predicate Negative(x: Step) { x.Nth? && x.i < 0 }

  /** The first step with a negative index, or the length of the path. */
  function FirstNegative(path: seq<Step>): (j: nat)
    ensures j <= |path| && (j < |path| ==> Negative(path[j]))
    ensures forall i :: 0 <= i < j ==> !Negative(path[i])
  {
    if path == [] || Negative(path[0]) then 0 else 1 + FirstNegative(path[1..])
  }

  /** Walking over the items from p on, one comes to a place where no text is taken, before
      a closing bracket and before the end. */
  predicate Stalls(s: string, p: nat)
    requires p <= |s|
    decreases |s| - p
  {
    p < |s| &&
    var q := SkipWs(s, p);
    !Has(s, q, ']') &&
    var n := SkipWs(s, Walk(s, q));
    if Has(s, n, ',') then Stalls(s, n + 1)
    else !Has(s, n, ']') && (n == p || Stalls(s, n))
  }

  /** A search for a negative index never ends exactly where the walk stalls. */
  lemma {:induction false} NegativeIndex(s: string, p: nat, idx: nat, path: seq<Step>)
    requires p <= |s| && path != [] && Negative(path[0])
    ensures FindNth(s, p, idx, path) == Endless <==> Stalls(s, p)
    decreases |s| - p
  {
    hide SkipWs, Walk, Find;
    if p < |s| {
      var n := SkipWs(s, Walk(s, SkipWs(s, p)));
      if Has(s, n, ',') {
        NegativeIndex(s, n + 1, idx + 1, path);
      } else if n != p {
        NegativeIndex(s, n, idx + 1, path);
      }
    }
  }

  // ----- searching in two steps -----

  /** Where a search goes on. */
  function Onward(s: string, f: Found, rest: seq<Step>): Found
    requires f.Spot? ==> f.at <= |s|
  {
    if f.Spot? then Find(s, f.at, rest) else f
  }

  /** Searching for a path is searching for its start, and on from there for its rest. */
  lemma {:induction false} FindSplits(s: string, p: nat, a: seq<Step>, b: seq<Step>)
    requires p <= |s|
    ensures Find(s, p, a + b) == Onward(s, Find(s, p, a), b)
    decreases |a|, |s| - p + 1, 0
  {
    hide FindName, FindNth, Walk;
    var q := SkipWs(s, p);
    if a == [] {
      assert a + b == b;
      SkipTwice(s, p);
    } else {
      assert (a + b)[0] == a[0];
      if Has(s, q, '{') && a[0].Name? {
        NameSplits(s, q + 1, a, b);
      } else if Has(s, q, '[') && a[0].Nth? {
        NthSplits(s, q + 1, 0, a, b);
      }
    }
  }

  lemma {:induction false} SkipTwice(s: string, p: nat)
    requires p <= |s|
    ensures SkipWs(s, SkipWs(s, p)) == SkipWs(s, p)
  {
  }

  lemma {:induction false} NameSplits(s: string, p: nat, a: seq<Step>, b: seq<Step>)
    requires p <= |s| && a != [] && a[0].Name?
    ensures FindName(s, p, a + b) == Onward(s, FindName(s, p, a), b)
    decreases |a|, |s| - p, 0
  {
    hide ReadMember, SkipWs, Find, Onward;
    assert (a + b)[0] == a[0] && (a + b)[1..] == a[1..] + b;
    var m := ReadMember(s, p);
    if m.NoPair? {
      NotOnward(s, Missing, b);
    } else if m.LoneQuote? {
      NotOnward(s, Overrun, b);
    } else if m.key == a[0].key {
      FindSplits(s, m.vstart, a[1..], b);
    } else {
      var n := SkipWs(s, m.vend);
      if Has(s, n, ',') {
        NameSplits(s, n + 1, a, b);
      } else if Has(s, n, '}') {
        NotOnward(s, Missing, b);
      } else {
        NameSplits(s, n, a, b);
      }
    }
  }

  lemma NotOnward(s: string, f: Found, b: seq<Step>)
    requires !f.Spot?
    ensures Onward(s, f, b) == f
  {
  }

  lemma {:induction false} NthSplits(s: string, p: nat, idx: nat, a: seq<Step>, b: seq<Step>)
    requires p <= |s| && a != [] && a[0].Nth?
    ensures FindNth(s, p, idx, a + b) == Onward(s, FindNth(s, p, idx, a), b)
    decreases |a|, |s| - p, if a[0].i >= idx then a[0].i - idx else 0
  {
    hide Walk, SkipWs, Find, Onward;
    assert (a + b)[0] == a[0] && (a + b)[1..] == a[1..] + b;
    NotOnward(s, Missing, b);
    NotOnward(s, Endless, b);
    if p < |s| {
      var q := SkipWs(s, p);
      var n := SkipWs(s, Walk(s, q));
      if !Has(s, q, ']') && idx == a[0].i {
        FindSplits(s, q, a[1..], b);
      } else if !Has(s, q, ']') && Has(s, n, ',') {
        NthSplits(s, n + 1, idx + 1, a, b);
      } else if !Has(s, q, ']') && !Has(s, n, ']') && (n != p || a[0].i >= idx) {
        NthSplits(s, n, idx + 1, a, b);
      }
    }
  }

  // ----- endings -----

  /** Without negative indices no search goes on for ever, on any text. */
  lemma {:induction false} NonNegativeEnds(s: string, p: nat, path: seq<Step>)
    requires p <= |s| && FirstNegative(path) == |path|
    ensures Find(s, p, path) != Endless
    decreases |path|, |s| - p + 1, 0
  {
    hide FindName, FindNth, Walk, FirstNegative;
    var q := SkipWs(s, p);
    if path != [] {
      if Has(s, q, '{') && path[0].Name? {
        NonNegativeName(s, q + 1, path);
      } else if Has(s, q, '[') && path[0].Nth? {
        NonNegativeNth(s, q + 1, 0, path);
      }
    }
  }

  lemma {:induction false} NonNegativeName(s: string, p: nat, path: seq<Step>)
    requires p <= |s| && path != [] && path[0].Name? && FirstNegative(path) == |path|
    ensures FindName(s, p, path) != Endless
    decreases |path|, |s| - p, 0
  {
    hide ReadMember, SkipWs, Find;
    var m := ReadMember(s, p);
    if m.Pair? && m.key == path[0].key {
      NonNegativeEnds(s, m.vstart, path[1..]);
    } else if m.Pair? {
      var n := SkipWs(s, m.vend);
      NonNegativeName(s, if Has(s, n, ',') then n + 1 else n, path);
    }
  }

  lemma {:induction false} NonNegativeNth(s: string, p: nat, idx: nat, path: seq<Step>)
    requires p <= |s| && path != [] && path[0].Nth? && idx <= path[0].i && FirstNegative(path) == |path|
    ensures FindNth(s, p, idx, path) != Endless
    decreases |path|, |s| - p, path[0].i - idx
  {
    hide Walk, SkipWs, Find;
    if p < |s| {
      var q := SkipWs(s, p);
      var n := SkipWs(s, Walk(s, q));
      if idx == path[0].i {
        NonNegativeEnds(s, q, path[1..]);
      } else {
        NonNegativeNth(s, if Has(s, n, ',') then n + 1 else n, idx + 1, path);
      }
    }
  }

  /** The search never ends exactly when its path has a negative index, the steps before it
      lead to an array, and the walk over the items of that array stalls. */
  predicate Stuck(s: string, p: nat, path: seq<Step>)
    requires p <= |s|
  {
    var j := FirstNegative(path);
    var f := Find(s, p, path[..j]);
    j < |path| && f.Spot? && Has(s, f.at, '[') && Stalls(s, f.at + 1)
  }

  lemma {:induction false} EndlessIff(s: string, p: nat, path: seq<Step>)
    requires p <= |s|
    ensures Find(s, p, path) == Endless <==> Stuck(s, p, path)
  {
    hide Find, FindNth, Stalls, FirstNegative;
    var j := FirstNegative(path);
    var a, b := path[..j], path[j..];
    NothingNegative(path);
    NonNegativeEnds(s, p, a);
    assert path == a + b;
    FindSplits(s, p, a, b);
    var f := Find(s, p, a);
    if f.Spot? && b != [] {
      LandsOnText(s, p, a);
      NegativeStep(s, f.at, b);
      if Has(s, f.at, '[') { NegativeIndex(s, f.at + 1, 0, b); }
    } else if f.Spot? {
      assert b == [] && a == path;
    }
  }

  lemma {:induction false} NothingNegative(path: seq<Step>)
    ensures FirstNegative(path[..FirstNegative(path)]) == FirstNegative(path)
  {
    if path != [] && !Negative(path[0]) {
      var j := FirstNegative(path[1..]);
      NothingNegative(path[1..]);
      assert path[..j + 1][1..] == path[1..][..j];
    }
  }

  lemma {:induction false} NegativeStep(s: string, q: nat, path: seq<Step>)
    requires q <= |s| && path != [] && Negative(path[0]) && SkipWs(s, q) == q
    ensures Find(s, q, path) == if Has(s, q, '[') then FindNth(s, q + 1, 0, path) else Missing
  {
    hide FindNth, FindName;
  }

  /** A search leads to a place without white space in front of it. */
  lemma {:induction false} LandsOnText(s: string, p: nat, path: seq<Step>)
    requires p <= |s| && Find(s, p, path).Spot?
    ensures SkipWs(s, Find(s, p, path).at) == Find(s, p, path).at
  {
    hide FindName, FindNth;
    FindSplits(s, p, path, []);
    assert path + [] == path;
    SkipTwice(s, Find(s, p, path).at);
  }

  // ----- text that ends where a key starts -----

  /** The key of a member has no text to end in just when its opening quote is the last
      character of the text. */
  lemma LoneQuoteIff(s: string, p: nat)
    requires p <= |s|
    ensures ReadMember(s, p).LoneQuote? <==> SkipWs(s, p) + 1 == |s| && s[|s| - 1] == '"'
  {
    hide SkipWs, Walk;
  }

  /** The members from p on, none of them with the key, come to a lone quote. */
  predicate RunsOut(s: string, p: nat, key: string)
    requires p <= |s|
    decreases |s| - p
  {
    var m := ReadMember(s, p);
    m.LoneQuote? || (m.Pair? && m.key != key &&
    var n := SkipWs(s, m.vend);
    if Has(s, n, ',') then RunsOut(s, n + 1, key) else !Has(s, n, '}') && RunsOut(s, n, key))
  }

  /** The steps before the j-th lead to an object, and the members of that object come to a
      lone quote before they come to the key of the j-th. */
  predicate OverrunAt(s: string, p: nat, path: seq<Step>, j: nat)
    requires p <= |s| && j < |path|
  {
    var f := Find(s, p, path[..j]);
    path[j].Name? && f.Spot? && Has(s, f.at, '{') && RunsOut(s, f.at + 1, path[j].key)
  }

  lemma {:induction false} NameRunsOut(s: string, p: nat, x: Step)
    requires p <= |s| && x.Name?
    ensures FindName(s, p, [x]) == Overrun <==> RunsOut(s, p, x.key)
    decreases |s| - p
  {
    hide ReadMember, SkipWs;
    var m := ReadMember(s, p);
    if m.Pair? && m.key != x.key {
      var n := SkipWs(s, m.vend);
      NameRunsOut(s, if Has(s, n, ',') then n + 1 else n, x);
    }
  }

  lemma {:induction false} NthHasNoKeys(s: string, p: nat, idx: nat, x: Step)
    requires p <= |s| && x.Nth?
    ensures FindNth(s, p, idx, [x]) != Overrun
    decreases |s| - p, if x.i >= idx then x.i - idx else 0
  {
    hide Walk, SkipWs;
    if p < |s| {
      var n := SkipWs(s, Walk(s, SkipWs(s, p)));
      if Has(s, n, ',') {
        NthHasNoKeys(s, n + 1, idx + 1, x);
      } else if n != p || x.i > idx {
        NthHasNoKeys(s, n, idx + 1, x);
      }
    }
  }

  lemma {:induction false} StepRunsOut(s: string, p: nat, x: Step)
    requires p <= |s|
    ensures Find(s, p, [x]) == Overrun <==> OverrunAt(s, p, [x], 0)
  {
    hide FindName, FindNth, RunsOut;
    var q := SkipWs(s, p);
    assert [x][..0] == [];
    if Has(s, q, '{') && x.Name? { NameRunsOut(s, q + 1, x); }
    if Has(s, q, '[') && x.Nth? { NthHasNoKeys(s, q + 1, 0, x); }
  }

  /** A search copies without bound exactly when some step of its path does. */
  lemma {:induction false} OverrunIff(s: string, p: nat, path: seq<Step>)
    requires p <= |s|
    ensures Find(s, p, path) == Overrun <==> exists j :: 0 <= j < |path| && OverrunAt(s, p, path, j)
    decreases |path|
  {
    hide Find, OverrunAt;
    if path == [] {
      FindNothing(s, p);
    } else {
      var a, b := [path[0]], path[1..];
      var f := Find(s, p, a);
      assert a + b == path;
      FindSplits(s, p, a, b);
      StepRunsOut(s, p, path[0]);
      FirstStep(s, p, path);
      if f.Spot? { OverrunIff(s, f.at, b); }
      forall j | 0 < j < |path|
        ensures OverrunAt(s, p, path, j) <==> f.Spot? && OverrunAt(s, f.at, b, j - 1)
      {
        LaterStep(s, p, path, j);
      }
      if f.Spot? && (exists j :: 0 <= j < |b| && OverrunAt(s, f.at, b, j)) {
        var j :| 0 <= j < |b| && OverrunAt(s, f.at, b, j);
        assert OverrunAt(s, p, path, j + 1);
      }
    }
  }

  lemma FindNothing(s: string, p: nat)
    requires p <= |s|
    ensures Find(s, p, []).Spot?
  {
  }

  lemma FirstStep(s: string, p: nat, path: seq<Step>)
    requires p <= |s| && path != []
    ensures OverrunAt(s, p, path, 0) <==> OverrunAt(s, p, [path[0]], 0)
  {
    hide Find, RunsOut;
    assert path[..0] == [path[0]][..0];
  }

  lemma LaterStep(s: string, p: nat, path: seq<Step>, j: nat)
    requires p <= |s| && 0 < j < |path|
    ensures var f := Find(s, p, [path[0]]);
            OverrunAt(s, p, path, j) <==> f.Spot? && OverrunAt(s, f.at, path[1..], j - 1)
  {
    hide Find, RunsOut;
    assert path[..j] == [path[0]] + path[1..][..j - 1];
    FindSplits(s, p, [path[0]], path[1..][..j - 1]);
  }

  predicate EndsInQuote(s: string) { s != "" && s[|s| - 1] == '"' }

  /** So a search copies without bound only on text that ends in a quote. */
  lemma {:induction false} OverrunEndsInQuote(s: string, p: nat, path: seq<Step>)
    requires p <= |s| && Find(s, p, path) == Overrun
    ensures EndsInQuote(s)
    decreases |path|, |s| - p + 1, 0
  {
    hide FindName, FindNth, Walk;
    var q := SkipWs(s, p);
    if path != [] && Has(s, q, '{') && path[0].Name? {
      NameOverrun(s, q + 1, path);
    } else if path != [] && Has(s, q, '[') && path[0].Nth? {
      NthOverrun(s, q + 1, 0, path);
    }
  }

  lemma {:induction false} NameOverrun(s: string, p: nat, path: seq<Step>)
    requires p <= |s| && path != [] && path[0].Name? && FindName(s, p, path) == Overrun
    ensures EndsInQuote(s)
    decreases |path|, |s| - p, 0
  {
    hide ReadMember, SkipWs, Find;
    LoneQuoteIff(s, p);
    var m := ReadMember(s, p);
    if m.Pair? && m.key == path[0].key {
      OverrunEndsInQuote(s, m.vstart, path[1..]);
    } else if m.Pair? {
      var n := SkipWs(s, m.vend);
      NameOverrun(s, if Has(s, n, ',') then n + 1 else n, path);
    }
  }

  lemma {:induction false} NthOverrun(s: string, p: nat, idx: nat, path: seq<Step>)
    requires p <= |s| && path != [] && path[0].Nth? && FindNth(s, p, idx, path) == Overrun
    ensures EndsInQuote(s)
    decreases |path|, |s| - p, if path[0].i >= idx then path[0].i - idx else 0
  {
    hide Walk, SkipWs, Find;
    var q := SkipWs(s, p);
    var n := SkipWs(s, Walk(s, q));
    if idx == path[0].i {
      OverrunEndsInQuote(s, q, path[1..]);
    } else {
      NthOverrun(s, if Has(s, n, ',') then n + 1 else n, idx + 1, path);
    }
  }

  /** The text `{"` searched for a key. */
  lemma OverrunHappens()
    ensures Find("{\"", 0, [Name("a")]) == Overrun
  {
    var s := "{\"";
    assert SkipWs(s, 0) == 0 && SkipWs(s, 1) == 1;
    LoneQuoteIff(s, 1);
  }
}
