/** Numbers written as bytes, by what the bytes stand for. */
module Positional {
  import opened MachineWords

  /** The number that bytes stand for, high byte first. */
  function FromBig(b: seq<Byte>): nat {
    if b == [] then 0 else FromBig(b[..|b| - 1]) * 256 + b[|b| - 1]
  }

  /** The number that bytes stand for, low byte first. */
  function FromLittle(b: seq<Byte>): nat {
    if b == [] then 0 else b[0] + FromLittle(b[1..]) * 256
  }

  function Power256(k: nat): (p: nat)
    ensures p > 0
  {
    if k == 0 then 1 else 256 * Power256(k - 1)
  }

  lemma WordSizes()
    ensures Power256(4) == TWO32 && Power256(8) == TWO64
  {
    assert Power256(2) == 0x1_0000 && Power256(6) == 0x1_0000_0000_0000;
  }

  /** k bytes stand for a number below 256^k, and different bytes for different numbers. */
  lemma {:induction false} BigBound(b: seq<Byte>)
    ensures FromBig(b) < Power256(|b|)
    decreases |b|
  {
    if b != [] { BigBound(b[..|b| - 1]); }
  }

  lemma {:induction false} BigIsFaithful(a: seq<Byte>, b: seq<Byte>)
    requires |a| == |b| && FromBig(a) == FromBig(b)
    ensures a == b
    decreases |a|
  {
    if a != [] {
      var n := |a| - 1;
      LastByte(FromBig(a[..n]), a[n], FromBig(b[..n]), b[n]);
      BigIsFaithful(a[..n], b[..n]);
      assert a == a[..n] + [a[n]] && b == b[..n] + [b[n]];
    }
  }

  lemma {:induction false} LittleIsFaithful(a: seq<Byte>, b: seq<Byte>)
    requires |a| == |b| && FromLittle(a) == FromLittle(b)
    ensures a == b
    decreases |a|
  {
    if a != [] {
      LastByte(FromLittle(a[1..]), a[0], FromLittle(b[1..]), b[0]);
      LittleIsFaithful(a[1..], b[1..]);
      assert a == [a[0]] + a[1..] && b == [b[0]] + b[1..];
    }
  }

  lemma LastByte(x: nat, a: Byte, y: nat, b: Byte)
    requires x * 256 + a == y * 256 + b
    ensures x == y && a == b
  {
  }

  /** Taking a number apart at its low byte. */
  lemma LowByte(x: nat, p: nat)
    requires p > 0
    ensures x / 256 % p * 256 + x % 256 == x % (256 * p)
  {
    var h, b := x / 256, x % 256;
    var q, m := h / p, h % p;
    assert h == p * q + m;
    Parts(x, h, b, p, q, m);
  }

  lemma Parts(x: nat, h: nat, b: nat, p: nat, q: nat, m: nat)
    requires p > 0 && x == 256 * h + b && b < 256 && h == p * q + m && m < p
    ensures x % (256 * p) == m * 256 + b
  {
    var d, r := 256 * p, m * 256 + b;
    assert x == d * q + r && 0 <= r < d by { assert 256 * (p * q) == d * q; }
    Remainder(x, d, q, r);
  }

  lemma Remainder(x: nat, d: nat, q: nat, r: nat)
    requires d > 0 && x == d * q + r && r < d
    ensures x % d == r
  {
    var e: int := x / d - q;
    assert d * e == r - x % d;
    Beyond(d, e);
  }

  lemma Beyond(d: nat, e: int)
    ensures (e >= 1 ==> d * e >= d) && (e <= -1 ==> d * e + d <= 0)
  {
    if e >= 1 { assert d * (e - 1) >= 0; }
    if e <= -1 { assert d * (-e - 1) >= 0; }
  }
}
