/** llListSort of src/builtins.c: an exchange sort of a list in groups of `stride` items,
    ordered by the first item of each group. */
module ListSort {
  import opened Values
  import opened TextOrder

  // ----- the order -----

  /** Whether the loop exchanges two groups with these heads; values of different kinds stay
      as they are. */
  predicate Swaps(x: SValue, y: SValue, asc: bool) {
    if IsNum(x) && IsNum(y) then if asc then AsReal(x) > AsReal(y) else AsReal(x) < AsReal(y)
    else if IsText(x) && IsText(y) then if asc then StrLess(y.text, x.text) else StrLess(x.text, y.text)
    else false
  }

  lemma {:induction false} LessTransitive(a: string, b: string, c: string)
    requires StrLess(a, b) && StrLess(b, c)
    ensures StrLess(a, c)
    decreases |a|
  {
    if a != "" && b != "" && c != "" && a[0] == b[0] == c[0] {
      LessTransitive(a[1..], b[1..], c[1..]);
    }
  }

  /** After an exchange the two heads are in order. */
  lemma {:induction false} SwapsOnce(x: SValue, y: SValue, asc: bool)
    requires Swaps(x, y, asc)
    ensures !Swaps(y, x, asc)
  {
    if IsText(x) { StrLessTotal(x.text, y.text); }
  }

  /** A head that moves to the front goes before everything its predecessor went before. */
  lemma {:induction false} SwapsOrder(x: SValue, y: SValue, z: SValue, asc: bool)
    requires Swaps(x, y, asc) && !Swaps(x, z, asc)
    ensures !Swaps(y, z, asc)
  {
    if IsText(x) && IsText(z) {
      StrLessTotal(x.text, z.text);
      if Swaps(y, z, asc) {
        if asc { LessTransitive(z.text, y.text, x.text); } else { LessTransitive(x.text, y.text, z.text); }
      }
    }
  }

  // ----- groups -----

  /** The multiples of the stride: where groups start. */
  predicate Head(p: int, stride: nat)
    requires stride > 0
    decreases p
  {
    p == 0 || (p >= stride && Head(p - stride, stride))
  }

  /** Between a head and the next there is none. */
  lemma {:induction false} HeadsApart(p: int, r: int, stride: nat)
    requires stride > 0 && Head(p, stride) && p < r < p + stride
    ensures !Head(r, stride)
    decreases p
  {
    if p != 0 { HeadsApart(p - stride, r - stride, stride); }
  }

  /** The groups of a list, as a multiset; items left over at the end form a short group. */
  function Groups(q: seq<SValue>, stride: nat): multiset<seq<SValue>>
    requires stride > 0
    decreases |q|
  {
    if q == [] then multiset{}
    else if |q| <= stride then multiset{q}
    else multiset{q[..stride]} + Groups(q[stride..], stride)
  }

  lemma {:induction false} GroupsConcat(a: seq<SValue>, b: seq<SValue>, stride: nat)
    requires stride > 0 && Head(|a|, stride)
    ensures Groups(a + b, stride) == Groups(a, stride) + Groups(b, stride)
    decreases |a|
  {
    if a == [] {
      assert a + b == b;
    } else if |a| == stride {
      if b == [] { assert a + b == a; } else { assert (a + b)[..stride] == a && (a + b)[stride..] == b; }
    } else {
      assert (a + b)[..stride] == a[..stride] && (a + b)[stride..] == a[stride..] + b;
      GroupsConcat(a[stride..], b, stride);
    }
  }

  /** Exchanging two groups: x at the first place, y at the second. */
  lemma {:induction false} GroupsExchanged(a: seq<SValue>, x: seq<SValue>, b: seq<SValue>, y: seq<SValue>,
                                           c: seq<SValue>, stride: nat)
    requires stride > 0 && Head(|a|, stride) && Head(|b|, stride) && |x| == |y| == stride
    ensures Groups(a + (x + (b + (y + c))), stride) == Groups(a + (y + (b + (x + c))), stride)
  {
    GroupsConcat(a, x + (b + (y + c)), stride);
    GroupsConcat(x, b + (y + c), stride);
    GroupsConcat(b, y + c, stride);
    GroupsConcat(y, c, stride);
    GroupsConcat(a, y + (b + (x + c)), stride);
    GroupsConcat(y, b + (x + c), stride);
    GroupsConcat(b, x + c, stride);
    GroupsConcat(x, c, stride);
  }

  // ----- exchanging -----

  /** The n items from i on exchanged with those from j on. */
  function Traded(q: seq<SValue>, i: nat, j: nat, n: nat): (r: seq<SValue>)
    requires i + n <= j && j + n <= |q|
    ensures |r| == |q|
  {
    seq(|q|, p requires 0 <= p < |q| =>
      if i <= p < i + n then q[p - i + j] else if j <= p < j + n then q[p - j + i] else q[p])
  }

  /** The groups at i and j exchanged; a short one at the end only as far as it goes. */
  function Exchanged(q: seq<SValue>, i: nat, j: nat, stride: nat): (r: seq<SValue>)
    requires i + stride <= j <= |q|
    ensures |r| == |q|
  {
    Traded(q, i, j, if j + stride <= |q| then stride else |q| - j)
  }

  /** One more item exchanged. */
  lemma {:induction false} TradedStep(q: seq<SValue>, i: nat, j: nat, n: nat)
    requires i + n < j && j + n < |q|
    ensures var r := Traded(q, i, j, n);
            && Traded(q, i, j, n + 1) == r[i + n := r[j + n]][j + n := r[i + n]]
            && multiset(Traded(q, i, j, n + 1)) == multiset(r)
  {
    var r := Traded(q, i, j, n);
    assert r[i + n] == q[i + n] && r[j + n] == q[j + n];
    assert Traded(q, i, j, n + 1) == r[i + n := r[j + n]][j + n := r[i + n]];
  }

  lemma {:induction false} HeadDifference(i: int, j: int, stride: nat)
    requires stride > 0 && Head(i, stride) && Head(j, stride) && i <= j
    ensures Head(j - i, stride)
    decreases i
  {
    if i != 0 { HeadDifference(i - stride, j - stride, stride); }
  }

  lemma {:induction false} FiveParts(q: seq<SValue>, i: nat, i2: nat, j: nat, j2: nat)
    requires i <= i2 <= j <= j2 <= |q|
    ensures q == q[..i] + (q[i..i2] + (q[i2..j] + (q[j..j2] + q[j2..])))
  {
    assert q == q[..i] + q[i..];
    assert q[i..] == q[i..i2] + q[i2..];
    assert q[i2..] == q[i2..j] + q[j..];
    assert q[j..] == q[j..j2] + q[j2..];
  }

  lemma {:induction false} TradedAt(q: seq<SValue>, i: nat, j: nat, n: nat, p: nat)
    requires i + n <= j && j + n <= |q| && p < |q|
    ensures Traded(q, i, j, n)[p] ==
            if i <= p < i + n then q[p - i + j] else if j <= p < j + n then q[p - j + i] else q[p]
  {
  }

  /** A stretch of the list after trading. */
  lemma {:induction false} TradedSlice(q: seq<SValue>, i: nat, j: nat, n: nat, from: nat, to: nat, at: nat)
    requires i + n <= j && j + n <= |q| && from <= to <= |q| && at + (to - from) <= |q|
    requires (to <= i && at == from) || (from == i && to == i + n && at == j) || (i + n <= from && to <= j
        && at == from)
          || (from == j && to == j + n && at == i) || (j + n <= from && at == from)
    ensures Traded(q, i, j, n)[from..to] == q[at..at + (to - from)]
  {
    hide Traded;
    var r := Traded(q, i, j, n);
    forall k | 0 <= k < to - from ensures r[from..to][k] == q[at..at + (to - from)][k] {
      TradedAt(q, i, j, n, from + k);
    }
  }

  lemma {:induction false} BothEnds(q: seq<SValue>, i: nat, j: nat)
    requires i <= |q| && j <= |q|
    ensures q[0..i] == q[..i] && q[j..|q|] == q[j..]
  {
  }

  lemma {:induction false} ExchangedParts(q: seq<SValue>, i: nat, j: nat, stride: nat)
    requires i + stride <= j && j + stride <= |q|
    ensures Exchanged(q, i, j, stride) ==
            q[..i] + (q[j..j + stride] + (q[i + stride..j] + (q[i..i + stride] + q[j + stride..])))
  {
    hide Traded;
    var r := Exchanged(q, i, j, stride);
    FiveParts(r, i, i + stride, j, j + stride);
    BothEnds(q, i, j + stride);
    BothEnds(r, i, j + stride);
    TradedSlice(q, i, j, stride, 0, i, 0);
    TradedSlice(q, i, j, stride, i, i + stride, j);
    TradedSlice(q, i, j, stride, i + stride, j, i + stride);
    TradedSlice(q, i, j, stride, j, j + stride, i);
    TradedSlice(q, i, j, stride, j + stride, |q|, j + stride);
  }

  lemma {:induction false} ExchangedGroups(q: seq<SValue>, i: nat, j: nat, stride: nat)
    requires stride > 0 && i + stride <= j && j + stride <= |q| && Head(i, stride) && Head(j, stride)
    ensures Groups(Exchanged(q, i, j, stride), stride) == Groups(q, stride)
  {
    hide Groups, Exchanged;
    HeadDifference(i, j, stride);
    FiveParts(q, i, i + stride, j, j + stride);
    ExchangedParts(q, i, j, stride);
    GroupsExchanged(q[..i], q[i..i + stride], q[i + stride..j], q[j..j + stride], q[j + stride..], stride);
  }

  lemma {:induction false} TradedPermutes(q: seq<SValue>, i: nat, j: nat, n: nat)
    requires i + n <= j && j + n <= |q|
    ensures multiset(Traded(q, i, j, n)) == multiset(q)
    decreases n
  {
    hide Traded;
    if n == 0 {
      TradedNothing(q, i, j);
    } else {
      TradedPermutes(q, i, j, n - 1);
      TradedStep(q, i, j, n - 1);
    }
  }

  /** The inner loop of llListSort: exchanges the groups at i and j, item by item. */
  method Exchange(a: array<SValue>, i: nat, j: nat, stride: nat)
    requires stride > 0 && i + stride <= j < a.Length
    modifies a
    ensures a[..] == Exchanged(old(a[..]), i, j, stride) && multiset(a[..]) == multiset(old(a[..]))
  {
    hide Traded;
    ghost var q := a[..];
    var k := 0;
    TradedNothing(q, i, j);
    while k < stride && i + k < a.Length && j + k < a.Length
      invariant 0 <= k <= stride && j + k <= a.Length
      invariant a[..] == Traded(q, i, j, k)
    {
      TradedStep(q, i, j, k);
      a[i + k], a[j + k] := a[j + k], a[i + k];
      k := k + 1;
    }
    TradedPermutes(q, i, j, k);
    assert k == if j + stride <= |q| then stride else |q| - j;
  }

  lemma TradedNothing(q: seq<SValue>, i: nat, j: nat)
    requires i <= j <= |q|
    ensures Traded(q, i, j, 0) == q
  {
  }

  // ----- sorting -----

  /** The heads from position lo up to hi go in order with all heads behind them. */
  predicate Ordered(q: seq<SValue>, hi: int, stride: nat, asc: bool)
    requires stride > 0
  {
    forall p, r :: 0 <= p < r < |q| && p < hi && Head(p, stride) && Head(r, stride) ==> !Swaps(q[p], q[r], asc)
  }

  /** The head at i goes in order with those behind it and before j. */
  predicate Least(q: seq<SValue>, i: int, j: int, stride: nat, asc: bool)
    requires stride > 0
  {
    0 <= i < |q| && forall r :: i < r < j && r < |q| && Head(r, stride) ==> !Swaps(q[i], q[r], asc)
  }

  /** What an exchange does to heads. */
  lemma {:induction false} ExchangedHeads(q: seq<SValue>, i: nat, j: nat, stride: nat, p: nat)
    requires stride > 0 && i + stride <= j < |q| && Head(i, stride) && Head(j, stride) && p < |q| && Head(p, stride)
    ensures Exchanged(q, i, j, stride)[p] == if p == i then q[j] else if p == j then q[i] else q[p]
  {
    if i < p < i + stride { HeadsApart(i, p, stride); }
    if j < p < j + stride { HeadsApart(j, p, stride); }
    ExchangedAt(q, i, j, stride, p);
  }

  lemma {:induction false} ExchangedAt(q: seq<SValue>, i: nat, j: nat, stride: nat, p: nat)
    requires stride > 0 && i + stride <= j < |q| && p < |q|
    ensures var r := Exchanged(q, i, j, stride);
            (p == i ==> r[p] == q[j]) && (p == j ==> r[p] == q[i]) &&
            (!(i <= p < i + stride) && !(j <= p < j + stride) ==> r[p] == q[p])
  {
  }

  lemma {:induction false} ExchangeKeeps(q: seq<SValue>, i: nat, j: nat, stride: nat, asc: bool)
    requires stride > 0 && i + stride <= j < |q| && Head(i, stride) && Head(j, stride) && Swaps(q[i], q[j], asc)
    requires Ordered(q, i, stride, asc) && Least(q, i, j, stride, asc)
    ensures var r := Exchanged(q, i, j, stride); Ordered(r, i, stride, asc) && Least(r, i, j + 1, stride, asc)
  {
    hide Exchanged, Swaps, Head;
    var r := Exchanged(q, i, j, stride);
    forall p | 0 <= p < |q| && Head(p, stride)
      ensures r[p] == if p == i then q[j] else if p == j then q[i] else q[p]
    {
      ExchangedHeads(q, i, j, stride, p);
    }
    SwapsOnce(q[i], q[j], asc);
    forall p | i < p < j + 1 && p < |q| && Head(p, stride) ensures !Swaps(r[i], r[p], asc) {
      if p != j { SwapsOrder(q[i], q[j], q[p], asc); }
    }
  }

  lemma {:induction false} LeastStart(q: seq<SValue>, i: nat, stride: nat, asc: bool)
    requires stride > 0 && i < |q| && Head(i, stride)
    ensures Least(q, i, i + stride, stride, asc)
  {
    forall r | i < r < i + stride ensures !Head(r, stride) { HeadsApart(i, r, stride); }
  }

  lemma {:induction false} LeastStep(q: seq<SValue>, i: nat, j: nat, stride: nat, asc: bool)
    requires stride > 0 && i < j < |q| && Head(j, stride)
    requires Least(q, i, j + 1, stride, asc) || (Least(q, i, j, stride, asc) && !Swaps(q[i], q[j], asc))
    ensures Least(q, i, j + stride, stride, asc)
  {
    hide Head, Swaps;
    forall r | j < r < j + stride ensures !Head(r, stride) { HeadsApart(j, r, stride); }
  }

  lemma {:induction false} OrderedStep(q: seq<SValue>, i: nat, j: nat, stride: nat, asc: bool)
    requires stride > 0 && i < |q| <= j && Head(i, stride)
    requires Ordered(q, i, stride, asc) && Least(q, i, j, stride, asc)
    ensures Ordered(q, i + stride, stride, asc)
  {
    hide Head, Swaps;
    forall r | i < r < i + stride ensures !Head(r, stride) { HeadsApart(i, r, stride); }
  }

  /** The last group is whole when the length is a multiple of the stride. */
  lemma {:induction false} RoomForGroup(n: nat, j: nat, stride: nat)
    requires stride > 0 && Head(n, stride) && Head(j, stride) && j < n
    ensures j + stride <= n
  {
    if n < j + stride { HeadsApart(j, n, stride); }
  }

  // ----- the sort as a function -----

  /** The inner loop from j on: the head at i is exchanged with every lesser one behind it. */
  function Round(q: seq<SValue>, i: nat, j: nat, stride: nat, asc: bool): (r: seq<SValue>)
    requires stride > 0 && i + stride <= j
    ensures |r| == |q|
    decreases |q| - j
  {
    if j >= |q| then q
    else Round(if Swaps(q[i], q[j], asc) then Exchanged(q, i, j, stride) else q, i, j + stride, stride, asc)
  }

  /** The outer loop from i on. */
  function SortedFrom(q: seq<SValue>, i: nat, stride: nat, asc: bool): (r: seq<SValue>)
    requires stride > 0
    ensures |r| == |q|
    decreases |q| - i
  {
    if i >= |q| then q else SortedFrom(Round(q, i, i + stride, stride, asc), i + stride, stride, asc)
  }

  /** The stride in use: at least 1. */
  function Stride(step: int): (s: nat)
    ensures s > 0
  {
    if step < 1 then 1 else step
  }

  /** llListSort */
  function Sorted(q: seq<SValue>, step: int, asc: bool): seq<SValue> { SortedFrom(q, 0, Stride(step), asc) }

  /** llListSort, on a copy of its list. */
  method Sort(a: array<SValue>, step: int, asc: bool)
    modifies a
    ensures a[..] == Sorted(old(a[..]), step, asc)
  {
    hide Exchanged, Swaps;
    var stride := if step < 1 then 1 else step;
    var i := 0;
    while i < a.Length
      invariant 0 <= i && SortedFrom(a[..], i, stride, asc) == Sorted(old(a[..]), step, asc)
    {
      var j := i + stride;
      ghost var q := a[..];
      while j < a.Length
        invariant i + stride <= j && Round(a[..], i, j, stride, asc) == Round(q, i, i + stride, stride, asc)
      {
        if Swaps(a[i], a[j], asc) { Exchange(a, i, j, stride); }
        j := j + stride;
      }
      i := i + stride;
    }
  }

  // ----- what the sort keeps -----

  lemma {:induction false} RoundPermutes(q: seq<SValue>, i: nat, j: nat, stride: nat, asc: bool)
    requires stride > 0 && i + stride <= j
    ensures multiset(Round(q, i, j, stride, asc)) == multiset(q)
    decreases |q| - j
  {
    hide Swaps, Traded;
    if j < |q| {
      TradedPermutes(q, i, j, if j + stride <= |q| then stride else |q| - j);
      RoundPermutes(if Swaps(q[i], q[j], asc) then Exchanged(q, i, j, stride) else q, i, j + stride, stride, asc);
    }
  }

  /** The sort permutes the items of every list. */
  lemma {:induction false} SortedPermutes(q: seq<SValue>, i: nat, stride: nat, asc: bool)
    requires stride > 0
    ensures multiset(SortedFrom(q, i, stride, asc)) == multiset(q)
    decreases |q| - i
  {
    hide Round;
    if i < |q| {
      RoundPermutes(q, i, i + stride, stride, asc);
      SortedPermutes(Round(q, i, i + stride, stride, asc), i + stride, stride, asc);
    }
  }

  lemma {:induction false} RoundOrders(q: seq<SValue>, i: nat, j: nat, stride: nat, asc: bool)
    requires stride > 0 && i + stride <= j && i < |q| && Head(i, stride) && Head(j, stride)
    requires Ordered(q, i, stride, asc) && Least(q, i, j, stride, asc)
    ensures Ordered(Round(q, i, j, stride, asc), i + stride, stride, asc)
    decreases |q| - j
  {
    hide Swaps, Exchanged, Ordered, Least;
    if j < |q| {
      if Swaps(q[i], q[j], asc) { ExchangeKeeps(q, i, j, stride, asc); }
      var r := if Swaps(q[i], q[j], asc) then Exchanged(q, i, j, stride) else q;
      LeastStep(r, i, j, stride, asc);
      RoundOrders(r, i, j + stride, stride, asc);
    } else {
      OrderedStep(q, i, j, stride, asc);
    }
  }

  /** The heads come out in the requested order. */
  lemma {:induction false} SortedOrders(q: seq<SValue>, i: nat, stride: nat, asc: bool)
    requires stride > 0 && Head(i, stride) && Ordered(q, i, stride, asc)
    ensures Ordered(SortedFrom(q, i, stride, asc), |q|, stride, asc)
    decreases |q| - i
  {
    hide Round, Swaps;
    if i < |q| {
      LeastStart(q, i, stride, asc);
      RoundOrders(q, i, i + stride, stride, asc);
      SortedOrders(Round(q, i, i + stride, stride, asc), i + stride, stride, asc);
    }
  }

  /** A value heads a group. */
  predicate HasHead(q: seq<SValue>, x: SValue, stride: nat)
    requires stride > 0
  {
    exists p :: 0 <= p < |q| && Head(p, stride) && q[p] == x
  }

  lemma {:induction false} RoundKeepsHeads(q: seq<SValue>, i: nat, j: nat, stride: nat, asc: bool, x: SValue)
    requires stride > 0 && i + stride <= j && Head(i, stride) && Head(j, stride) && HasHead(q, x, stride)
    ensures HasHead(Round(q, i, j, stride, asc), x, stride)
    decreases |q| - j
  {
    hide Swaps, Exchanged;
    if j < |q| {
      var r := if Swaps(q[i], q[j], asc) then Exchanged(q, i, j, stride) else q;
      if Swaps(q[i], q[j], asc) {
        var p :| 0 <= p < |q| && Head(p, stride) && q[p] == x;
        var p' := if p == i then j else if p == j then i else p;
        ExchangedHeads(q, i, j, stride, p');
        assert r[p'] == x;
      }
      RoundKeepsHeads(r, i, j + stride, stride, asc, x);
    }
  }

  lemma {:induction false} SortedKeepsHeads(q: seq<SValue>, i: nat, stride: nat, asc: bool, x: SValue)
    requires stride > 0 && Head(i, stride) && HasHead(q, x, stride)
    ensures HasHead(SortedFrom(q, i, stride, asc), x, stride)
    decreases |q| - i
  {
    hide Round, HasHead;
    if i < |q| {
      RoundKeepsHeads(q, i, i + stride, stride, asc, x);
      SortedKeepsHeads(Round(q, i, i + stride, stride, asc), i + stride, stride, asc, x);
    }
  }

  // ----- whole groups -----

  /** No head is to be exchanged with that of a short group at the end. */
  predicate ShortStays(q: seq<SValue>, stride: nat, asc: bool)
    requires stride > 0
  {
    forall p, l :: 0 <= p < l < |q| && Head(p, stride) && Head(l, stride) && l + stride > |q| ==>
      !Swaps(q[p], q[l], asc)
  }

  /** There is no short group when the length is a multiple of the stride. */
  lemma {:induction false} NoShortGroup(q: seq<SValue>, stride: nat, asc: bool)
    requires stride > 0 && Head(|q|, stride)
    ensures ShortStays(q, stride, asc)
  {
    forall l | 0 <= l < |q| && Head(l, stride) ensures l + stride <= |q| { RoomForGroup(|q|, l, stride); }
  }

  lemma {:induction false} ExchangeStays(q: seq<SValue>, i: nat, j: nat, stride: nat, asc: bool)
    requires stride > 0 && i + stride <= j < |q| && Head(i, stride) && Head(j, stride) && Swaps(q[i], q[j], asc)
    requires ShortStays(q, stride, asc)
    ensures j + stride <= |q| && ShortStays(Exchanged(q, i, j, stride), stride, asc)
  {
    hide Swaps, Exchanged, Head;
    var r := Exchanged(q, i, j, stride);
    forall p | 0 <= p < |q| && Head(p, stride)
      ensures r[p] == if p == i then q[j] else if p == j then q[i] else q[p]
    {
      ExchangedHeads(q, i, j, stride, p);
    }
  }

  lemma {:induction false} RoundKeepsGroups(q: seq<SValue>, i: nat, j: nat, stride: nat, asc: bool)
    requires stride > 0 && i + stride <= j && Head(i, stride) && Head(j, stride) && ShortStays(q, stride, asc)
    ensures var r := Round(q, i, j, stride, asc);
            ShortStays(r, stride, asc) && Groups(r, stride) == Groups(q, stride)
    decreases |q| - j
  {
    hide Swaps, Exchanged, ShortStays, Groups;
    if j < |q| {
      var r := if Swaps(q[i], q[j], asc) then Exchanged(q, i, j, stride) else q;
      if Swaps(q[i], q[j], asc) {
        ExchangeStays(q, i, j, stride, asc);
        ExchangedGroups(q, i, j, stride);
      }
      RoundKeepsGroups(r, i, j + stride, stride, asc);
    }
  }

  /** Then the sort permutes whole groups. */
  lemma {:induction false} SortedKeepsGroups(q: seq<SValue>, i: nat, stride: nat, asc: bool)
    requires stride > 0 && Head(i, stride) && ShortStays(q, stride, asc)
    ensures Groups(SortedFrom(q, i, stride, asc), stride) == Groups(q, stride)
    decreases |q| - i
  {
    hide Round, ShortStays, Groups;
    if i < |q| {
      RoundKeepsGroups(q, i, i + stride, stride, asc);
      SortedKeepsGroups(Round(q, i, i + stride, stride, asc), i + stride, stride, asc);
    }
  }

  /** The short group is the only one of fewer items. */
  lemma {:induction false} ShortGroup(q: seq<SValue>, l: nat, stride: nat)
    requires stride > 0 && Head(l, stride) && l < |q| < l + stride
    ensures q[l..] in Groups(q, stride)
    ensures forall g :: g in Groups(q, stride) && |g| < stride ==> g == q[l..]
    decreases |q|
  {
    if l > 0 {
      ShortGroup(q[stride..], l - stride, stride);
      assert q[stride..][l - stride..] == q[l..];
    } else {
      assert q[0..] == q;
    }
  }

  /** A sorted list whose groups are those it had has kept its short group, so nothing was
      to go behind that. */
  lemma {:induction false} GroupsTorn(q: seq<SValue>, stride: nat, asc: bool, p: nat, l: nat)
    requires stride > 0 && p < l < |q| < l + stride && Head(p, stride) && Head(l, stride)
    requires Swaps(q[p], q[l], asc)
    ensures Groups(SortedFrom(q, 0, stride, asc), stride) != Groups(q, stride)
  {
    hide SortedFrom, Groups, Swaps, Head;
    var r := SortedFrom(q, 0, stride, asc);
    if Groups(r, stride) == Groups(q, stride) {
      FirstHead(stride);
      ShortGroup(q, l, stride);
      ShortGroup(r, l, stride);
      assert r[l] == r[l..][0] == q[l..][0] == q[l];
      SortedOrders(q, 0, stride, asc);
      SortedKeepsHeads(q, 0, stride, asc, q[p]);
      var h :| 0 <= h < |r| && Head(h, stride) && r[h] == q[p];
      if h > l { HeadsApart(l, h, stride); }
      if h == l { SwapsOnce(q[p], q[l], asc); }
    }
  }

  lemma FirstHead(stride: nat)
    requires stride > 0
    ensures Head(0, stride)
  {
  }

  /** For every list: the sort permutes whole groups exactly when nothing is to go behind a
      short group at the end. */
  lemma {:induction false} GroupsKeptIff(q: seq<SValue>, step: int, asc: bool)
    ensures var stride := Stride(step);
            Groups(Sorted(q, step, asc), stride) == Groups(q, stride) <==>
            Head(|q|, stride) || ShortStays(q, stride, asc)
  {
    hide SortedFrom, Groups, Swaps;
    var stride := Stride(step);
    if Head(|q|, stride) { NoShortGroup(q, stride, asc); }
    if ShortStays(q, stride, asc) {
      SortedKeepsGroups(q, 0, stride, asc);
    } else {
      var p, l :| 0 <= p < l < |q| && Head(p, stride) && Head(l, stride) && l + stride > |q| && Swaps(q[p], q[l], asc);
      if l + stride > |q| && !Head(|q|, stride) { GroupsTorn(q, stride, asc, p, l); }
    }
  }

  /** Items, order and groups of the result, for any list. */
  lemma {:induction false} SortedIs(q: seq<SValue>, step: int, asc: bool)
    ensures var r, stride := Sorted(q, step, asc), Stride(step);
            && |r| == |q| && multiset(r) == multiset(q)
            && Ordered(r, |r|, stride, asc)
            && (Head(|q|, stride) || ShortStays(q, stride, asc) ==> Groups(r, stride) == Groups(q, stride))
  {
    hide SortedFrom, Groups, Swaps;
    var stride := Stride(step);
    SortedPermutes(q, 0, stride, asc);
    SortedOrders(q, 0, stride, asc);
    if Head(|q|, stride) { NoShortGroup(q, stride, asc); }
    if ShortStays(q, stride, asc) { SortedKeepsGroups(q, 0, stride, asc); }
  }

  // ----- the order, without the loop's own test -----

  /** Numbers in order of size. */
  predicate NumbersInOrder(x: SValue, y: SValue, asc: bool)
    requires IsNum(x) && IsNum(y)
  {
    var a, b := AsReal(x), AsReal(y);
    if asc then a <= b else a >= b
  }

  /** Texts in order of the first place where they differ. */
  ghost predicate TextsInOrder(x: SValue, y: SValue, asc: bool)
    requires IsText(x) && IsText(y)
  {
    x.text == y.text || if asc then Before(x.text, y.text) else Before(y.text, x.text)
  }

  lemma {:induction false} TimesIsHead(k: nat, stride: nat)
    requires stride > 0
    ensures Head(k * stride, stride)
    decreases k
  {
    if k > 0 {
      assert k * stride == (k - 1) * stride + stride && (k - 1) * stride >= 0;
      TimesIsHead(k - 1, stride);
    }
  }

  lemma MultipleIsHead(p: nat, stride: nat)
    requires stride > 0 && p % stride == 0
    ensures Head(p, stride)
  {
    assert p == p / stride * stride;
    TimesIsHead(p / stride, stride);
  }

  /** Every item at a multiple of the stride goes in order with those behind it, numbers with
      numbers by size and texts with texts by their first difference. */
  lemma {:induction false} HeadsInOrder(q: seq<SValue>, step: int, asc: bool, p: nat, r: nat)
    requires p < r < |q| && p % (if step < 1 then 1 else step) == 0 && r % (if step < 1 then 1 else step) == 0
    ensures var s := Sorted(q, step, asc);
            && |s| == |q|
            && (IsNum(s[p]) && IsNum(s[r]) ==> NumbersInOrder(s[p], s[r], asc))
            && (IsText(s[p]) && IsText(s[r]) ==> TextsInOrder(s[p], s[r], asc))
  {
    hide SortedFrom, Head, Groups, ShortStays;
    var stride := Stride(step);
    var s := Sorted(q, step, asc);
    MultipleIsHead(p, stride);
    MultipleIsHead(r, stride);
    SortedIs(q, step, asc);
    if IsText(s[p]) && IsText(s[r]) {
      OneComesFirst(s[p].text, s[r].text);
      LessIsBefore(s[p].text, s[r].text);
      LessIsBefore(s[r].text, s[p].text);
    }
  }

  /** Lists that divide into groups of the stride come out as the same groups. */
  lemma {:induction false} WholeGroups(q: seq<SValue>, step: int, asc: bool)
    requires |q| % (if step < 1 then 1 else step) == 0
    ensures var stride := if step < 1 then 1 else step;
            Groups(Sorted(q, step, asc), stride) == Groups(q, stride)
  {
    hide SortedFrom, Groups, Head, ShortStays;
    MultipleIsHead(|q|, Stride(step));
    SortedIs(q, step, asc);
  }

  datatype Kind = Number | Text | Other

  function KindOf(v: SValue): Kind { if IsNum(v) then Number else if IsText(v) then Text else Other }

  predicate SameHeads(a: seq<SValue>, b: seq<SValue>, stride: nat)
    requires stride > 0
  {
    |a| == |b| && forall p :: 0 <= p < |a| && Head(p, stride) ==>
      KindOf(a[p]) == KindOf(b[p]) && (KindOf(a[p]).Other? ==> a[p] == b[p])
  }

  lemma {:induction false} RoundKeepsKinds(q: seq<SValue>, i: nat, j: nat, stride: nat, asc: bool)
    requires stride > 0 && i + stride <= j && Head(i, stride) && Head(j, stride)
    ensures SameHeads(q, Round(q, i, j, stride, asc), stride)
    decreases |q| - j
  {
    hide Exchanged, Head;
    if j < |q| {
      var r := if Swaps(q[i], q[j], asc) then Exchanged(q, i, j, stride) else q;
      if Swaps(q[i], q[j], asc) {
        forall p | 0 <= p < |q| && Head(p, stride)
          ensures r[p] == if p == i then q[j] else if p == j then q[i] else q[p]
        {
          ExchangedHeads(q, i, j, stride, p);
        }
      }
      assert SameHeads(q, r, stride);
      HeadBehind(j, stride);
      RoundKeepsKinds(r, i, j + stride, stride, asc);
    }
  }

  lemma HeadBehind(j: nat, stride: nat)
    requires stride > 0 && Head(j, stride)
    ensures Head(j + stride, stride)
  {
  }

  lemma {:induction false} SortedKeepsKinds(q: seq<SValue>, i: nat, stride: nat, asc: bool)
    requires stride > 0 && Head(i, stride)
    ensures SameHeads(q, SortedFrom(q, i, stride, asc), stride)
    decreases |q| - i
  {
    hide Round, Head;
    if i < |q| {
      HeadBehind(i, stride);
      RoundKeepsKinds(q, i, i + stride, stride, asc);
      SortedKeepsKinds(Round(q, i, i + stride, stride, asc), i + stride, stride, asc);
    }
  }

  /** At every multiple of the stride stands a value of the kind that stood there, and the
      very same value when it is neither a number nor a text: numbers and texts are sorted
      past each other. */
  lemma {:induction false} KindsStay(q: seq<SValue>, step: int, asc: bool, p: nat)
    requires p < |q| && p % (if step < 1 then 1 else step) == 0
    ensures var s := Sorted(q, step, asc);
            && |s| == |q| && (IsNum(s[p]) <==> IsNum(q[p])) && (IsText(s[p]) <==> IsText(q[p]))
            && (!IsNum(q[p]) && !IsText(q[p]) ==> s[p] == q[p])
  {
    hide SortedFrom, Head;
    FirstHead(Stride(step));
    MultipleIsHead(p, Stride(step));
    SortedKeepsKinds(q, 0, Stride(step), asc);
  }

  /** Sorting 2, "b", 1 by twos puts the 1 in front of the "b" that belongs to the 2. */
  lemma {:induction false} ShortGroupMixes()
    ensures var q := [Int(2), Str("b"), Int(1)];
            && Sorted(q, 2, true) == [Int(1), Str("b"), Int(2)]
            && Groups(Sorted(q, 2, true), 2) != Groups(q, 2)
  {
    hide Groups;
    var q, r := [Int(2), Str("b"), Int(1)], [Int(1), Str("b"), Int(2)];
    assert Exchanged(q, 0, 2, 2) == r;
    assert Round(q, 0, 2, 2, true) == Round(r, 0, 4, 2, true) == r;
    assert SortedFrom(q, 0, 2, true) == SortedFrom(r, 2, 2, true);
    assert Round(r, 2, 4, 2, true) == r && SortedFrom(r, 4, 2, true) == r;
    assert Head(0, 2) && Head(2, 2);
    GroupsTorn(q, 2, true, 0, 2);
  }
}
