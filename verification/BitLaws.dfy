/** The bit operators of src/vm.c, told bit by bit. */
module BitLaws {
  import opened MachineWords
  import opened Values
  import opened OperatorLaws

  /** Bit i of the two's complement of an integer. */
  predicate Bit(x: int, i: nat)
    decreases i
  {
    if i == 0 then x % 2 == 1 else Bit(x / 2, i - 1)
  }

  /** 64 bits fix a word. */
  lemma {:induction false} BitsFix(x: int, y: int, n: nat)
    requires -x <= Pow2(n) && x < Pow2(n) && -y <= Pow2(n) && y < Pow2(n)
    requires forall i: nat :: i <= n ==> (Bit(x, i) <==> Bit(y, i))
    ensures x == y
    decreases n
  {
    assert Bit(x, 0) <==> Bit(y, 0);
    if n > 0 {
      forall i: nat | i <= n - 1 ensures Bit(x / 2, i) <==> Bit(y / 2, i) {
        assert Bit(x, i + 1) <==> Bit(y, i + 1);
      }
      BitsFix(x / 2, y / 2, n - 1);
    }
  }

  lemma WordBitsFix(x: int, y: int)
    requires InWord(x) && InWord(y) && forall i: nat :: i < 64 ==> (Bit(x, i) <==> Bit(y, i))
    ensures x == y
  {
    Powers();
    BitsFix(x, y, 63);
  }

  lemma Powers()
    ensures Pow2(63) == TWO63 && Pow2(64) == TWO64
  {
    hide Pow2;
    PowFour();
    PowSum(4, 4);
    PowSum(8, 8);
    PowSum(16, 16);
    PowSum(32, 32);
    PowSum(63, 1);
  }

  lemma PowFour()
    ensures Pow2(1) == 2 && Pow2(4) == 16
  {
    assert Pow2(2) == 4;
  }

  lemma {:induction false} PowSum(a: nat, b: nat)
    ensures Pow2(a + b) == Pow2(a) * Pow2(b)
    decreases a
  {
    if a > 0 { PowSum(a - 1, b); }
  }

  /** Low bits do not see what is added above them. */
  lemma {:induction false} BitBelow(x: int, k: int, n: nat, i: nat)
    requires i < n
    ensures Bit(x + k * Pow2(n), i) <==> Bit(x, i)
    decreases i
  {
    var p := Pow2(n - 1);
    assert k * Pow2(n) == 2 * (k * p);
    Halves(x, k * p);
    if i > 0 { BitBelow(x / 2, k, n - 1, i - 1); }
  }

  lemma Halves(x: int, y: int)
    ensures (x + 2 * y) / 2 == x / 2 + y && (x + 2 * y) % 2 == x % 2
  {
  }

  /** A number and the word it wraps to have the same 64 bits. */
  lemma {:induction false} WrapBits(x: int, i: nat)
    requires i < 64
    ensures Bit(Wrap64(x), i) <==> Bit(x, i)
  {
    var k := Wraps(x);
    Powers();
    BitBelow(x, k, 64, i);
  }

  lemma {:induction false} PatternBits(x: int, i: nat)
    requires i < 64
    ensures Bit(Pattern(x), i) <==> Bit(x, i)
  {
    Powers();
    assert Pattern(x) == x + (-(x / TWO64)) * TWO64;
    BitBelow(x, -(x / TWO64), 64, i);
  }

  // ----- and, or, exclusive or -----

  predicate Joined(op: int, a: bool, b: bool) {
    if op == OP_AND then a && b else if op == OP_OR then a || b else a != b
  }

  lemma {:induction false} BitsBit(op: int, a: nat, b: nat, i: nat)
    ensures Bit(Bits(op, a, b), i) <==> Joined(op, Bit(a, i), Bit(b, i))
    decreases i
  {
    if a == 0 && b == 0 {
      NoBits(i);
    } else {
      BitsStep(op, a, b);
      if i > 0 { BitsBit(op, a / 2, b / 2, i - 1); }
    }
  }

  lemma BitsStep(op: int, a: nat, b: nat)
    requires !(a == 0 && b == 0)
    ensures Bits(op, a, b) / 2 == Bits(op, a / 2, b / 2)
    ensures Bits(op, a, b) % 2 == 1 <==> Joined(op, a % 2 == 1, b % 2 == 1)
  {
    hide Bits, OneBit;
    BitsUnfold(op, a, b);
    JoinedBit(op, a % 2, b % 2);
  }

  lemma BitsUnfold(op: int, a: nat, b: nat)
    requires !(a == 0 && b == 0)
    ensures Bits(op, a, b) == 2 * Bits(op, a / 2, b / 2) + OneBit(op, a % 2, b % 2)
  {
  }

  lemma JoinedBit(op: int, p: nat, q: nat)
    requires p < 2 && q < 2
    ensures OneBit(op, p, q) == 1 <==> Joined(op, p == 1, q == 1)
  {
    if p == 0 { assert p * q == 0; } else { assert p * q == q; }
  }

  lemma {:induction false} NoBits(i: nat)
    ensures !Bit(0, i)
    decreases i
  {
    if i > 0 { NoBits(i - 1); }
  }

  /** `&`, `|` and `^` of integers work bit by bit. */
  lemma BitByBit(op: int, l: int, r: int)
    requires op == OP_AND || op == OP_OR || op == OP_XOR
    ensures var d := EvalBinary(op, Int(l), Int(r));
            && d.Int? && InWord(d.i)
            && forall i: nat :: i < 64 ==>
                 (Bit(d.i, i) <==>
                  if op == OP_AND then Bit(l, i) && Bit(r, i)
                  else if op == OP_OR then Bit(l, i) || Bit(r, i)
                  else Bit(l, i) != Bit(r, i))
  {
    hide Bits, Bit;
    var d := EvalBinary(op, Int(l), Int(r)).i;
    var b := Bits(op, Pattern(l), Pattern(r));
    var k := Wraps(b);
    forall i: nat | i < 64 ensures Bit(d, i) <==> Joined(op, Bit(l, i), Bit(r, i)) {
      WrapBits(b, i);
      BitsBit(op, Pattern(l), Pattern(r), i);
      PatternBits(l, i);
      PatternBits(r, i);
    }
  }

  /** `~` turns every bit over, and gives -1 for what is no integer. */
  lemma {:induction false} Complement(x: int, i: nat)
    ensures var d := EvalUnary(OP_TILDE, Int(x)); d.Int? && (Bit(d.i, i) <==> !Bit(x, i)) && (InWord(x) ==> InWord(d.i))
    decreases i
  {
    var d := EvalUnary(OP_TILDE, Int(x)).i;
    assert d / 2 == EvalUnary(OP_TILDE, Int(x / 2)).i;
    if i > 0 { Complement(x / 2, i - 1); }
  }

  lemma ComplementOfOthers(v: SValue)
    requires !v.Int?
    ensures EvalUnary(OP_TILDE, v) == Int(-1)
  {
  }

  // ----- shifts -----

  /** The distance a shift goes: the right side modulo 32. */
  predicate Distance(r: int, s: nat) { s < 32 && (r - s) % 32 == 0 }

  lemma DistanceIs(r: int, s: nat)
    requires Distance(r, s)
    ensures s == r % 32
  {
  }

  lemma {:induction false} BitUp(x: int, s: nat, i: nat)
    ensures Bit(x * Pow2(s), i) <==> i >= s && Bit(x, i - s)
    decreases s
  {
    if s > 0 {
      var y := x * Pow2(s - 1);
      assert x * Pow2(s) == 2 * y;
      if i > 0 { BitUp(x, s - 1, i - 1); }
    }
  }

  lemma {:induction false} BitDown(x: int, s: nat, i: nat)
    ensures Bit(x / Pow2(s), i) <==> Bit(x, i + s)
    decreases s
  {
    if s > 0 {
      HalfFirst(x, Pow2(s - 1));
      BitDown(x / 2, s - 1, i);
    }
  }

  lemma HalfFirst(x: int, p: nat)
    requires p > 0
    ensures x / (2 * p) == x / 2 / p
  {
    var h, b := x / 2, x % 2;
    var q, m := h / p, h % p;
    TwiceUp(h, p, q, m);
    assert x == 2 * p * q + (2 * m + b) && 0 <= 2 * m + b < 2 * p;
    Quotient(x, 2 * p, q, 2 * m + b);
  }

  lemma TwiceUp(h: int, p: nat, q: int, m: int)
    requires p > 0 && q == h / p && m == h % p
    ensures 2 * h == 2 * p * q + 2 * m && 0 <= m < p
  {
    assert h == p * q + m;
  }

  lemma Quotient(x: int, d: nat, q: int, m: int)
    requires d > 0 && x == d * q + m && 0 <= m < d
    ensures x / d == q
  {
    var e := x / d - q;
    assert d * e == m - x % d;
    if e > 0 { Grows(d, 1, e); }
    if e < 0 { Grows(d, e, -1); }
  }

  lemma Grows(d: nat, a: int, b: int)
    requires a <= b
    ensures d * a <= d * b
  {
    assert d * (b - a) >= 0;
  }

  /** `<<` moves the bits up, and fills with zeros. */
  lemma ShiftUp(l: int, r: int, s: nat)
    requires Distance(r, s)
    ensures var d := EvalBinary(OP_SHL, Int(l), Int(r));
            && d.Int? && InWord(d.i)
            && forall i: nat :: i < 64 ==> (Bit(d.i, i) <==> i >= s && Bit(l, i - s))
  {
    hide Bit, Pow2, Pattern;
    DistanceIs(r, s);
    var d := EvalBinary(OP_SHL, Int(l), Int(r)).i;
    var x := Pattern(l) * Pow2(s);
    var k := Wraps(x);
    forall i: nat | i < 64 ensures Bit(d, i) <==> i >= s && Bit(l, i - s) {
      WrapBits(x, i);
      BitUp(Pattern(l), s, i);
      if i >= s { PatternBits(l, i - s); }
    }
  }

  /** `>>` moves the bits down; the sign moves in from above. */
  lemma ShiftDown(l: int, r: int, s: nat)
    requires Distance(r, s)
    ensures var d := EvalBinary(OP_SHR, Int(l), Int(r));
            d.Int? && (InWord(l) ==> InWord(d.i)) && forall i: nat :: Bit(d.i, i) <==> Bit(l, i + s)
  {
    hide Bit, Pow2, InWord;
    DistanceIs(r, s);
    var d := EvalBinary(OP_SHR, Int(l), Int(r)).i;
    forall i: nat ensures Bit(d, i) <==> Bit(l, i + s) { BitDown(l, s, i); }
    Smaller(l, Pow2(s));
    InWordIs(l);
    InWordIs(d);
  }

  lemma Smaller(x: int, p: nat)
    requires p > 0
    ensures if x >= 0 then 0 <= x / p <= x else x <= x / p < 0
  {
    Apart(x, p, x / p, x % p);
  }

  lemma Apart(x: int, p: nat, q: int, m: int)
    requires p > 0 && x == p * q + m && 0 <= m < p
    ensures if x >= 0 then 0 <= q <= x else x <= q < 0
  {
    if q >= 0 {
      AtLeast(q, p);
    } else {
      AtLeast(-q - 1, p);
      AtLeast(-q, p);
      assert p * q == -(-q * p) == -((-q - 1) * p) - p;
    }
  }

  // ----- other operands -----

  /** The integer a number is read as. */
  predicate ReadAs(v: SValue, a: int) {
    match v
    case Int(i) => a == i
    case Float(x) => TowardZero(x, a)
    case _ => false
  }

  const BIT_OPS := {OP_AND, OP_OR, OP_XOR, OP_SHL, OP_SHR}

  /** Floats are read as integers, and both operands as 0 when one is no number. */
  lemma OtherOperands(op: int, l: SValue, r: SValue, a: int, b: int)
    requires op in BIT_OPS && if IsNum(l) && IsNum(r) then ReadAs(l, a) && ReadAs(r, b) else a == b == 0
    ensures EvalBinary(op, l, r) == EvalBinary(op, Int(a), Int(b))
  {
    hide Bits, Pow2, Wrap64, Pattern, ReadAs, AsInt;
    if IsNum(l) && IsNum(r) {
      ReadingIs(l, a);
      ReadingIs(r, b);
    }
    ReadingIs(Int(a), a);
    ReadingIs(Int(b), b);
  }

  lemma ReadingIs(v: SValue, a: int)
    requires IsNum(v) && ReadAs(v, a)
    ensures AsInt(v) == a
  {
  }
}
