/** The order of strcmp, by the first place where two texts differ. */
module TextOrder {
  import opened Values

  /** Up to k the texts agree; there a ends first, or has the lesser character. */
  predicate LessAt(a: string, b: string, k: nat) {
    && k <= |a| && k < |b| && a[..k] == b[..k]
    && (k < |a| ==> a[k] < b[k])
  }

  ghost predicate Before(a: string, b: string) { exists k: nat :: LessAt(a, b, k) }

  /** strcmp finds the lesser of two texts by the first place where they differ. */
  lemma {:induction false} LessIsBefore(a: string, b: string)
    ensures StrLess(a, b) <==> Before(a, b)
    decreases |a|
  {
    if StrLess(a, b) {
      if a == "" || a[0] < b[0] {
        assert LessAt(a, b, 0);
      } else {
        LessIsBefore(a[1..], b[1..]);
        var k: nat :| LessAt(a[1..], b[1..], k);
        assert a[..k + 1] == [a[0]] + a[1..][..k] && b[..k + 1] == [b[0]] + b[1..][..k];
        assert LessAt(a, b, k + 1);
      }
    }
    if Before(a, b) {
      var k: nat :| LessAt(a, b, k);
      if k > 0 {
        assert a[0] == a[..k][0] == b[..k][0] == b[0];
        assert a[1..][..k - 1] == a[..k][1..] && b[1..][..k - 1] == b[..k][1..];
        assert LessAt(a[1..], b[1..], k - 1);
        LessIsBefore(a[1..], b[1..]);
      }
    }
  }

  /** Of two texts one comes before the other, or they are equal, and only one of the three. */
  lemma {:induction false} OneComesFirst(a: string, b: string)
    ensures !(Before(a, b) && Before(b, a)) && (Before(a, b) || Before(b, a) || a == b) && !Before(a, a)
    decreases |a|
  {
    LessIsBefore(a, b);
    LessIsBefore(b, a);
    LessIsBefore(a, a);
    StrLessTotal(a, b);
    StrLessTotal(a, a);
  }

  lemma {:induction false} StrLessTotal(a: string, b: string)
    ensures !(StrLess(a, b) && StrLess(b, a)) && (StrLess(a, b) || StrLess(b, a) || a == b)
    decreases |a|
  {
    if a != "" && b != "" && a[0] == b[0] {
      StrLessTotal(a[1..], b[1..]);
      assert a == [a[0]] + a[1..] && b == [b[0]] + b[1..];
    }
  }
}
