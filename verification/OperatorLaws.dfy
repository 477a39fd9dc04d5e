/** What the operators, casts and tests of src/vm.c compute, told by laws of their results. */
module OperatorLaws {
  import opened MachineWords
  import opened Values
  import opened TextOrder

  // ----- words -----

  predicate InWord(x: int) { -TWO63 <= x < TWO63 }

  predicate Congruent(x: int, y: int) { (x - y) % TWO64 == 0 }

  /** A congruence and the range fix a word. */
  lemma WordUnique(x: int, y: int)
    requires InWord(x) && InWord(y) && Congruent(x, y)
    ensures x == y
  {
  }

  lemma Wraps(x: int) returns (k: int)
    ensures Wrap64(x) == x + k * TWO64 && InWord(Wrap64(x)) && Congruent(Wrap64(x), x)
  {
    k := -((x + TWO63) / TWO64);
    assert (x + TWO63) % TWO64 == x + TWO63 + k * TWO64;
    Multiple(k);
  }

  lemma Multiple(k: int)
    ensures (k * TWO64) % TWO64 == 0
  {
  }

  lemma WrapsNothing(x: int)
    requires InWord(x)
    ensures Wrap64(x) == x
  {
  }

  /** Sums, differences and products of integers are the words congruent to them. */
  lemma IntegerArithmetic(l: int, r: int)
    ensures var s := EvalBinary(OP_PLUS, Int(l), Int(r)); s.Int? && InWord(s.i) && Congruent(s.i, l + r)
    ensures var d := EvalBinary(OP_MINUS, Int(l), Int(r)); d.Int? && InWord(d.i) && Congruent(d.i + r, l)
    ensures var p := EvalBinary(OP_STAR, Int(l), Int(r)); p.Int? && InWord(p.i) && Congruent(p.i, l * r)
  {
    var k := Wraps(l + r);
    var k1 := Wraps(l - r);
    var k2 := Wraps(l * r);
  }

  // ----- quotients -----

  function Magnitude(x: int): nat { if x < 0 then -x else x }

  /** Division is with a remainder that is less than the divisor and has the sign of the
      dividend. The least integer by -1 has no quotient among words. */
  lemma IntegerDivision(l: int, r: int)
    requires InWord(l) && InWord(r) && r != 0 && !(l == -TWO63 && r == -1)
    ensures var q, m := EvalBinary(OP_SLASH, Int(l), Int(r)), EvalBinary(OP_PERCENT, Int(l), Int(r));
            && q.Int? && m.Int? && l == q.i * r + m.i
            && Magnitude(m.i) < Magnitude(r) && (m.i > 0 ==> l > 0) && (m.i < 0 ==> l < 0)
  {
    QuotientFits(l, r);
    WrapsNothing(CDiv(l, r));
    WrapsNothing(CMod(l, r));
  }

  lemma QuotientFits(l: int, r: int)
    requires InWord(l) && InWord(r) && r != 0 && !(l == -TWO63 && r == -1)
    ensures InWord(CDiv(l, r)) && InWord(CMod(l, r)) && l == CDiv(l, r) * r + CMod(l, r)
    ensures var m := CMod(l, r); Magnitude(m) < Magnitude(r) && (m > 0 ==> l > 0) && (m < 0 ==> l < 0)
  {
    hide CDiv, CMod;
    Remainder(l, r);
    QuotientInWord(l, r);
  }

  lemma Remainder(l: int, r: int)
    requires r != 0
    ensures l == CDiv(l, r) * r + CMod(l, r)
    ensures Magnitude(CMod(l, r)) < Magnitude(r) && Magnitude(CMod(l, r)) <= Magnitude(l)
    ensures (CMod(l, r) > 0 ==> l > 0) && (CMod(l, r) < 0 ==> l < 0)
  {
    var a: int, b: int := Magnitude(l), Magnitude(r);
    var q: int, m: int := a / b, a % b;
    assert a == q * b + m && 0 <= m < b;
    NotMore(a, b);
    SignedProduct(q, l, r);
    assert CMod(l, r) == if l < 0 then -m else m;
  }

  lemma NotMore(a: nat, b: nat)
    requires b > 0
    ensures a % b <= a
  {
    if a < b {
      assert a % b == a;
    }
  }

  lemma QuotientInWord(l: int, r: int)
    requires InWord(l) && r != 0 && !(l == -TWO63 && r == -1)
    ensures InWord(CDiv(l, r))
  {
    hide InWord;
    QuotientBound(Magnitude(l), Magnitude(r));
    InWordIs(l);
    InWordIs(CDiv(l, r));
  }

  lemma InWordIs(x: int)
    ensures InWord(x) <==> -TWO63 <= x < TWO63
  {
  }

  lemma QuotientBound(a: nat, b: nat)
    requires b > 0
    ensures 0 <= a / b <= a && (b >= 2 && a > 0 ==> a / b < a) && (b == 1 ==> a / b == a)
  {
    var q: nat, m: nat := a / b, a % b;
    assert a == q * b + m;
    AtLeast(q, b);
  }

  lemma AtLeast(q: nat, b: nat)
    requires b > 0
    ensures q * b >= q && (b >= 2 ==> q * b >= 2 * q) && (b == 1 ==> q * b == q)
  {
    if b >= 2 { MonotoneIn(q, 2, b); } else { MonotoneIn(q, 1, b); }
  }

  lemma MonotoneIn(q: nat, a: nat, b: nat)
    requires a <= b
    ensures q * a <= q * b
  {
  }

  lemma SignedProduct(q: int, l: int, r: int)
    ensures (if (l < 0) != (r < 0) then -q else q) * r == if l < 0 then -(q * Magnitude(r)) else q * Magnitude(r)
  {
  }

  /** Between integers, division by zero gives a float, and a remainder of zero. */
  lemma DivisionByZero(l: int)
    ensures EvalBinary(OP_SLASH, Int(l), Int(0)) == Float(0.0) && EvalBinary(OP_PERCENT, Int(l), Int(0)) == Int(0)
  {
  }

  // ----- floats -----

  /** The value is the number x. */
  predicate Denotes(v: SValue, x: real) {
    match v
    case Int(i) => x == i as real
    case Float(f) => x == f
    case _ => false
  }

  predicate MixedNumbers(l: SValue, r: SValue) { (l.Float? && (r.Int? || r.Float?)) || (l.Int? && r.Float?) }

  /** With a float on either side the result is the float that arithmetic of numbers gives,
      and zero for a quotient by zero; the remainder is the integer 0. */
  lemma FloatArithmetic(l: SValue, r: SValue, x: real, y: real)
    requires MixedNumbers(l, r) && Denotes(l, x) && Denotes(r, y)
    ensures EvalBinary(OP_PLUS, l, r) == Float(x + y)
    ensures var d := EvalBinary(OP_MINUS, l, r); d.Float? && d.f + y == x
    ensures EvalBinary(OP_STAR, l, r) == Float(x * y)
    ensures var q := EvalBinary(OP_SLASH, l, r); q.Float? && (if y == 0.0 then q.f == 0.0 else q.f * y == x)
    ensures EvalBinary(OP_PERCENT, l, r) == Int(0)
  {
    hide BitOp, Compare, SvEqual, Truthy;
  }

  // ----- text and lists -----

  /** The text of both, one behind the other. */
  lemma TextSum(l: SValue, r: SValue)
    requires (l.Str? || l.Key?) && (r.Str? || r.Key?)
    ensures var s := EvalBinary(OP_PLUS, l, r);
            && s.Str? && |s.text| == |l.text| + |r.text|
            && (forall k :: 0 <= k < |l.text| ==> s.text[k] == l.text[k])
            && (forall k :: 0 <= k < |r.text| ==> s.text[|l.text| + k] == r.text[k])
  {
  }

  /** The items of both; a value beside a list counts as one item. */
  lemma ListSum(a: seq<SValue>, b: seq<SValue>, v: SValue)
    requires !v.List?
    ensures EvalBinary(OP_PLUS, List(a), List(b)) == List(a + b)
    ensures EvalBinary(OP_PLUS, List(a), v) == List(a + [v]) && EvalBinary(OP_PLUS, v, List(b)) == List([v] + b)
  {
  }

  // ----- vectors -----

  /** Vectors and rotations add and subtract member by member, and the difference and what
      was taken off make up the whole. */
  lemma VectorSum(a: SValue, b: SValue)
    requires a.Vec? && b.Vec?
    ensures var s := EvalBinary(OP_PLUS, a, b); s == Vec(a.x + b.x, a.y + b.y, a.z + b.z)
    ensures var d := EvalBinary(OP_MINUS, a, b); d.Vec? && EvalBinary(OP_PLUS, d, b) == a
  {
  }

  lemma RotationSum(a: SValue, b: SValue)
    requires a.Rot? && b.Rot?
    ensures EvalBinary(OP_PLUS, a, b) == Rot(a.x + b.x, a.y + b.y, a.z + b.z, a.w + b.w)
    ensures var d := EvalBinary(OP_MINUS, a, b); d.Rot? && EvalBinary(OP_PLUS, d, b) == a
  {
  }

  /** Scaling by a number from either side, by the real part of a rotation, and back. */
  lemma Scaling(v: SValue, k: SValue, x: real, q: SValue)
    requires v.Vec? && Denotes(k, x) && q.Rot?
    ensures EvalBinary(OP_STAR, v, k) == EvalBinary(OP_STAR, k, v) == Vec(v.x * x, v.y * x, v.z * x)
    ensures EvalBinary(OP_STAR, v, q) == Vec(v.x * q.w, v.y * q.w, v.z * q.w)
  {
  }

  lemma ScalingBack(v: SValue, k: SValue, x: real)
    requires v.Vec? && Denotes(k, x)
    ensures var d := EvalBinary(OP_SLASH, v, k);
            d.Vec? && (if x == 0.0 then d == Vec(0.0, 0.0, 0.0) else EvalBinary(OP_STAR, d, k) == v)
  {
    if x != 0.0 {
      Divides(v.x, x);
      Divides(v.y, x);
      Divides(v.z, x);
      Scaling(Vec(v.x / x, v.y / x, v.z / x), k, x, Rot(0.0, 0.0, 0.0, 1.0));
    }
  }

  lemma Divides(a: real, x: real)
    requires x != 0.0
    ensures a / x * x == a
  {
  }

  const EX := Vec(1.0, 0.0, 0.0)
  const EY := Vec(0.0, 1.0, 0.0)
  const EZ := Vec(0.0, 0.0, 1.0)

  function Dot(a: SValue, b: SValue): SValue { EvalBinary(OP_STAR, a, b) }
  function Cross(a: SValue, b: SValue): SValue { EvalBinary(OP_PERCENT, a, b) }
  function Times(k: real, v: SValue): SValue { EvalBinary(OP_STAR, Float(k), v) }
  function Sum(a: SValue, b: SValue): SValue { EvalBinary(OP_PLUS, a, b) }

  /** The product of vectors is symmetric, linear, and that of the unit vectors: no other
      product is. */
  lemma DotLaws(a: SValue, b: SValue, c: SValue, k: real)
    requires a.Vec? && b.Vec? && c.Vec?
    ensures Dot(a, b).Float? && Dot(a, b) == Dot(b, a)
    ensures Dot(Sum(a, b), c) == Sum(Dot(a, c), Dot(b, c)) && Dot(Times(k, a), c) == Times(k, Dot(a, c))
    ensures Dot(EX, EX) == Dot(EY, EY) == Dot(EZ, EZ) == Float(1.0)
    ensures Dot(EX, EY) == Dot(EY, EZ) == Dot(EZ, EX) == Float(0.0)
  {
    hide EvalBinary, Dot, Times, Sum;
    DotTurns(a, b);
    DotSum(a, b, c);
    DotTimes(k, a, c);
    DotUnits();
  }

  lemma DotIs(u: SValue, v: SValue)
    requires u.Vec? && v.Vec?
    ensures Dot(u, v) == Float(u.x * v.x + u.y * v.y + u.z * v.z)
  {
  }

  lemma DotTurns(a: SValue, b: SValue)
    requires a.Vec? && b.Vec?
    ensures Dot(a, b).Float? && Dot(a, b) == Dot(b, a)
  {
    hide Dot;
    DotIs(a, b);
    DotIs(b, a);
  }

  lemma DotUnits()
    ensures Dot(EX, EX) == Dot(EY, EY) == Dot(EZ, EZ) == Float(1.0)
    ensures Dot(EX, EY) == Dot(EY, EZ) == Dot(EZ, EX) == Float(0.0)
  {
  }

  lemma FloatSum(x: real, y: real, k: real)
    ensures Sum(Float(x), Float(y)) == Float(x + y) && Times(k, Float(x)) == Float(k * x)
  {
  }

  lemma DotSum(a: SValue, b: SValue, c: SValue)
    requires a.Vec? && b.Vec? && c.Vec?
    ensures Dot(Sum(a, b), c) == Sum(Dot(a, c), Dot(b, c))
  {
    hide EvalBinary, Dot, Sum;
    SumIs(a, b);
    DotIs(Sum(a, b), c);
    DotIs(a, c);
    DotIs(b, c);
    FloatSum(Dot(a, c).f, Dot(b, c).f, 0.0);
    ThirdDistributes(a.x, b.x, c.x);
    ThirdDistributes(a.y, b.y, c.y);
    ThirdDistributes(a.z, b.z, c.z);
  }

  lemma DotTimes(k: real, a: SValue, c: SValue)
    requires a.Vec? && c.Vec?
    ensures Dot(Times(k, a), c) == Times(k, Dot(a, c))
  {
    hide EvalBinary, Dot, Times;
    TimesIs(k, a);
    DotIs(Times(k, a), c);
    DotIs(a, c);
    FloatSum(Dot(a, c).f, 0.0, k);
    Factor(k, a.x, c.x);
    Factor(k, a.y, c.y);
    Factor(k, a.z, c.z);
    Distributes3(k, a.x * c.x, a.y * c.y, a.z * c.z);
  }

  lemma ThirdDistributes(x: real, y: real, z: real)
    ensures (x + y) * z == x * z + y * z
  {
  }

  lemma Factor(k: real, x: real, z: real)
    ensures (x * k) * z == k * (x * z)
  {
  }

  lemma Distributes3(k: real, x: real, y: real, z: real)
    ensures k * (x + y + z) == k * x + k * y + k * z
  {
  }

  /** `%` of vectors is the cross product: antisymmetric, linear, and right-handed on the
      unit vectors. */
  lemma CrossLaws(a: SValue, b: SValue, c: SValue, k: real)
    requires a.Vec? && b.Vec? && c.Vec?
    ensures Cross(a, b).Vec? && Cross(a, b) == Times(-1.0, Cross(b, a))
    ensures Cross(Sum(a, b), c) == Sum(Cross(a, c), Cross(b, c))
    ensures Cross(Times(k, a), c) == Times(k, Cross(a, c))
    ensures Cross(EX, EY) == EZ && Cross(EY, EZ) == EX && Cross(EZ, EX) == EY
  {
    hide EvalBinary, Cross, Times, Sum;
    CrossTurns(a, b);
    CrossSum(a, b, c);
    CrossTimes(a, c, k);
    CrossUnits();
  }

  lemma CrossTurns(a: SValue, b: SValue)
    requires a.Vec? && b.Vec?
    ensures Cross(a, b).Vec? && Cross(a, b) == Times(-1.0, Cross(b, a))
  {
  }

  lemma CrossIs(a: SValue, b: SValue)
    requires a.Vec? && b.Vec?
    ensures Cross(a, b) == Vec(a.y * b.z - a.z * b.y, a.z * b.x - a.x * b.z, a.x * b.y - a.y * b.x)
  {
  }

  lemma CrossUnits()
    ensures Cross(EX, EY) == EZ && Cross(EY, EZ) == EX && Cross(EZ, EX) == EY
  {
    hide Cross;
    CrossIs(EX, EY);
    CrossIs(EY, EZ);
    CrossIs(EZ, EX);
  }

  lemma CrossSum(a: SValue, b: SValue, c: SValue)
    requires a.Vec? && b.Vec? && c.Vec?
    ensures Cross(Sum(a, b), c) == Sum(Cross(a, c), Cross(b, c))
  {
    ThirdDistributes(a.x, b.x, c.y);
    ThirdDistributes(a.x, b.x, c.z);
    ThirdDistributes(a.y, b.y, c.x);
    ThirdDistributes(a.y, b.y, c.z);
    ThirdDistributes(a.z, b.z, c.x);
    ThirdDistributes(a.z, b.z, c.y);
  }

  lemma CrossTimes(a: SValue, c: SValue, k: real)
    requires a.Vec? && c.Vec?
    ensures Cross(Times(k, a), c) == Times(k, Cross(a, c))
  {
    hide EvalBinary, Cross, Times;
    TimesIs(k, a);
    CrossIs(a, c);
    TimesIs(k, Cross(a, c));
    CrossIs(Times(k, a), c);
    Determinant(k, a.y, c.z, a.z, c.y);
    Determinant(k, a.z, c.x, a.x, c.z);
    Determinant(k, a.x, c.y, a.y, c.x);
  }

  lemma TimesIs(k: real, v: SValue)
    requires v.Vec?
    ensures Times(k, v) == Vec(v.x * k, v.y * k, v.z * k)
  {
  }

  lemma Determinant(k: real, p: real, q: real, r: real, s: real)
    ensures (p * k) * q - (r * k) * s == (p * q - r * s) * k
  {
    TakeIn(k, p, q);
    TakeIn(k, r, s);
    Less(p * q, r * s, k);
  }

  lemma TakeIn(k: real, p: real, x: real)
    ensures (p * k) * x == (p * x) * k == p * (x * k)
  {
  }

  lemma Less(p: real, q: real, k: real)
    ensures (p - q) * k == p * k - q * k
  {
  }

  // ----- rotations -----

  const ONE := Rot(0.0, 0.0, 0.0, 1.0)
  const RI := Rot(1.0, 0.0, 0.0, 0.0)
  const RJ := Rot(0.0, 1.0, 0.0, 0.0)
  const RK := Rot(0.0, 0.0, 1.0, 0.0)

  function Product(a: SValue, b: SValue): SValue { EvalBinary(OP_STAR, a, b) }

  /** The products of Hamilton's units. */
  lemma HamiltonUnits()
    ensures Product(RI, RI) == Product(RJ, RJ) == Product(RK, RK) == Rot(0.0, 0.0, 0.0, -1.0)
    ensures Product(RI, RJ) == RK && Product(RJ, RK) == RI && Product(RK, RI) == RJ
    ensures Product(RJ, RI) == Rot(0.0, 0.0, -1.0, 0.0) && Product(RK, RJ) == Rot(-1.0, 0.0, 0.0, 0.0)
    ensures Product(RI, RK) == Rot(0.0, -1.0, 0.0, 0.0)
  {
    hide Product;
    UnitRow(RI);
    UnitRow(RJ);
    UnitRow(RK);
  }

  lemma UnitRow(a: SValue)
    requires a.Rot?
    ensures Product(a, RI) == Rot(a.w, a.z, -a.y, -a.x)
    ensures Product(a, RJ) == Rot(-a.z, a.w, a.x, -a.y)
    ensures Product(a, RK) == Rot(a.y, -a.x, a.w, -a.z)
  {
    hide Product;
    ProductIs(a, RI);
    ProductIs(a, RJ);
    ProductIs(a, RK);
  }

  lemma ProductIs(a: SValue, b: SValue)
    requires a.Rot? && b.Rot?
    ensures Product(a, b) ==
            Rot(a.w * b.x + a.x * b.w + a.y * b.z - a.z * b.y, a.w * b.y - a.x * b.z + a.y * b.w + a.z * b.x,
                a.w * b.z + a.x * b.y - a.y * b.x + a.z * b.w, a.w * b.w - a.x * b.x - a.y * b.y - a.z * b.z)
  {
  }

  lemma HamiltonOne(q: SValue)
    requires q.Rot?
    ensures Product(ONE, q) == Product(q, ONE) == q
  {
    hide Product;
    ProductIs(ONE, q);
    ProductIs(q, ONE);
  }

  function VectorPart(q: SValue): SValue
    requires q.Rot?
  {
    Vec(q.x, q.y, q.z)
  }

  /** The product of rotations by its vector and its real part: what the products of vectors
      and the scalings make of the parts. */
  lemma HamiltonProduct(a: SValue, b: SValue)
    requires a.Rot? && b.Rot?
    ensures var p, u, v := Product(a, b), VectorPart(a), VectorPart(b);
            && p.Rot? && Dot(u, v) == Float(a.w * b.w - p.w)
            && VectorPart(p) == Sum(Sum(Times(a.w, v), Times(b.w, u)), Cross(u, v))
  {
    hide EvalBinary, Product, Cross, Times, Sum, Dot;
    var u, v := VectorPart(a), VectorPart(b);
    ProductIs(a, b);
    DotIs(u, v);
    CrossIs(u, v);
    TimesIs(a.w, v);
    TimesIs(b.w, u);
    SumIs(Times(a.w, v), Times(b.w, u));
    SumIs(Sum(Times(a.w, v), Times(b.w, u)), Cross(u, v));
  }

  lemma SumIs(u: SValue, v: SValue)
    requires u.Vec? && v.Vec?
    ensures Sum(u, v) == Vec(u.x + v.x, u.y + v.y, u.z + v.z)
  {
  }

  predicate Unlike(l: SValue, r: SValue) {
    !(l.Vec? && r.Vec?) && !(l.Rot? && r.Rot?) && !(IsNum(l) && IsNum(r))
  }

  /** What is left: no other operands add up, and no other remainder is anything but 0. */
  lemma NoArithmetic(l: SValue, r: SValue)
    ensures Unlike(l, r) && !(IsText(l) && IsText(r)) && !l.List? && !r.List? ==> EvalBinary(OP_PLUS, l, r) == Void
    ensures Unlike(l, r) ==> EvalBinary(OP_MINUS, l, r) == Void
    ensures Unlike(l, r) && !(l.Vec? && (r.Rot? || IsNum(r))) && !(IsNum(l) && r.Vec?) ==>
              EvalBinary(OP_STAR, l, r) == Void
    ensures !(l.Vec? || IsNum(l)) || !IsNum(r) ==> EvalBinary(OP_SLASH, l, r) == Void
    ensures !(l.Vec? && r.Vec?) && !(l.Int? && r.Int?) ==> EvalBinary(OP_PERCENT, l, r) == Int(0)
  {
    hide BitOp, Compare, SvEqual, Truthy;
  }

  // ----- token numbers -----

  /** The byte code names operators by these numbers. */
  lemma ArithmeticTokens()
    ensures EvalBinary(42, Int(5), Int(3)) == Int(8) && EvalBinary(43, Int(5), Int(3)) == Int(2)
    ensures EvalBinary(44, Int(5), Int(3)) == Int(15) && EvalBinary(45, Int(7), Int(3)) == Int(2)
    ensures EvalBinary(46, Int(5), Int(4)) == Int(1)
  {
    hide BitOp, Compare, SvEqual, Truthy;
  }

  lemma TestTokens()
    ensures EvalBinary(51, Int(5), Int(0)) == Int(0) && EvalBinary(52, Int(5), Int(0)) == Int(1)
    ensures EvalBinary(54, Int(3), Int(3)) == Int(1) && EvalBinary(55, Int(3), Int(3)) == Int(0)
  {
    hide Plus, Minus, Star, Slash, Percent, BitOp, Compare;
  }

  lemma OrderTokens()
    ensures EvalBinary(56, Int(3), Int(3)) == Int(1) && EvalBinary(56, Int(5), Int(3)) == Int(0)
    ensures EvalBinary(57, Int(3), Int(3)) == Int(1) && EvalBinary(57, Int(3), Int(5)) == Int(0)
    ensures EvalBinary(58, Int(3), Int(5)) == Int(1) && EvalBinary(58, Int(3), Int(3)) == Int(0)
    ensures EvalBinary(59, Int(5), Int(3)) == Int(1) && EvalBinary(59, Int(3), Int(3)) == Int(0)
  {
    hide Plus, Minus, Star, Slash, Percent, BitOp, SvEqual, Truthy;
  }

  lemma BitTokens()
    ensures EvalBinary(47, Int(5), Int(3)) == Int(1) && EvalBinary(48, Int(5), Int(3)) == Int(7)
    ensures EvalBinary(49, Int(5), Int(3)) == Int(6)
  {
    hide Plus, Minus, Star, Slash, Percent, Compare, SvEqual, Truthy, Bits, Pow2;
    FiveAndThree();
  }

  lemma FiveAndThree()
    ensures Bits(47, 5, 3) == 1 && Bits(48, 5, 3) == 7 && Bits(49, 5, 3) == 6
  {
  }

  lemma ShiftTokens()
    ensures EvalBinary(60, Int(5), Int(3)) == Int(40) && EvalBinary(61, Int(40), Int(3)) == Int(5)
  {
    hide Plus, Minus, Star, Slash, Percent, Compare, SvEqual, Truthy, Bits, Pow2;
    EightIsTwoThrice();
  }

  lemma EightIsTwoThrice()
    ensures Pow2(3) == 8
  {
  }

  lemma UnaryTokens()
    ensures EvalUnary(43, Int(5)) == Int(-5) && EvalUnary(50, Int(5)) == Int(-6) && EvalUnary(53, Int(5)) == Int(0)
    ensures EvalUnary(42, Int(5)) == Int(5) && Bump(62, Int(5)) == Int(6) && Bump(63, Int(5)) == Int(4)
  {
  }

  /** And types by these. */
  lemma TypeTags()
    ensures Tag(Void) == 0 && Tag(Int(7)) == 1 && Tag(Float(7.0)) == 2 && Tag(Str("a")) == 3 && Tag(Key("a")) == 4
    ensures Tag(Vec(1.0, 2.0, 3.0)) == 5 && Tag(Rot(1.0, 2.0, 3.0, 4.0)) == 6 && Tag(List([])) == 7
  {
  }

  // ----- comparisons -----

  predicate Says(v: SValue, b: bool) { v == Int(if b then 1 else 0) }

  const ORDERS := {OP_LT, OP_GT, OP_LE, OP_GE}

  /** Numbers compare by what they denote, integers and floats with each other: exactly one
      of less, equal and greater holds, and `<=` and `>=` are the denials of the others. */
  lemma NumberOrder(l: SValue, r: SValue, x: real, y: real)
    requires Denotes(l, x) && Denotes(r, y)
    ensures Says(EvalBinary(OP_LT, l, r), x < y) && Says(EvalBinary(OP_GT, l, r), x > y)
    ensures Says(EvalBinary(OP_LE, l, r), !(x > y)) && Says(EvalBinary(OP_GE, l, r), !(x < y))
    ensures Says(EvalBinary(OP_EQ, l, r), x == y) && Says(EvalBinary(OP_NEQ, l, r), x != y)
  {
  }

  /** Lists compare by how long they are, for equality too. */
  lemma ListOrder(a: seq<SValue>, b: seq<SValue>)
    ensures Says(EvalBinary(OP_LT, List(a), List(b)), |a| < |b|)
    ensures Says(EvalBinary(OP_GT, List(a), List(b)), |a| > |b|)
    ensures Says(EvalBinary(OP_LE, List(a), List(b)), |a| <= |b|)
    ensures Says(EvalBinary(OP_GE, List(a), List(b)), |a| >= |b|)
    ensures Says(EvalBinary(OP_EQ, List(a), List(b)), |a| == |b|)
    ensures Says(EvalBinary(OP_NEQ, List(a), List(b)), |a| != |b|)
  {
  }

  /** Strings and keys compare by the first place where they differ; `<=` and `>=` never
      hold of them. */
  lemma TextOrdering(l: SValue, r: SValue)
    requires (l.Str? || l.Key?) && (r.Str? || r.Key?)
    ensures Says(EvalBinary(OP_LT, l, r), Before(l.text, r.text))
    ensures Says(EvalBinary(OP_GT, l, r), Before(r.text, l.text))
    ensures Says(EvalBinary(OP_LE, l, r), false) && Says(EvalBinary(OP_GE, l, r), false)
    ensures Says(EvalBinary(OP_EQ, l, r), l.text == r.text) && Says(EvalBinary(OP_NEQ, l, r), l.text != r.text)
  {
    LessIsBefore(l.text, r.text);
    LessIsBefore(r.text, l.text);
  }

  /** Vectors and rotations are equal when all their members are, and are not ordered. */
  lemma MemberEquality(l: SValue, r: SValue, op: int)
    requires (l.Vec? && r.Vec?) || (l.Rot? && r.Rot?)
    ensures var same := l.x == r.x && l.y == r.y && l.z == r.z && (l.Rot? ==> l.w == r.w);
            Says(EvalBinary(OP_EQ, l, r), same) && Says(EvalBinary(OP_NEQ, l, r), !same)
    ensures op in ORDERS ==> Says(EvalBinary(op, l, r), false)
  {
  }

  /** Values of different kinds are neither equal nor ordered. */
  lemma DifferentKinds(l: SValue, r: SValue, op: int)
    requires Tag(l) != Tag(r) && !(Tag(l) in {INTEGER, FLOAT} && Tag(r) in {INTEGER, FLOAT})
    requires !(Tag(l) in {STRING, KEY} && Tag(r) in {STRING, KEY})
    ensures Says(EvalBinary(OP_EQ, l, r), false) && Says(EvalBinary(OP_NEQ, l, r), true)
    ensures op in ORDERS ==> Says(EvalBinary(op, l, r), false)
  {
    hide Plus, Minus, Star, Slash, Percent, BitOp, Truthy;
  }

  // ----- truth -----

  /** The value of a type that counts as false, and that a variable of the type starts with. */
  predicate IsDefault(v: SValue) {
    match v
    case Void => true
    case Int(i) => i == 0
    case Float(f) => f == 0.0
    case Str(s) => s == ""
    case Key(s) => s == "00000000-0000-0000-0000-000000000000"
    case Vec(x, y, z) => x == y == z == 0.0
    case Rot(x, y, z, w) => x == y == z == 0.0 && w == 1.0
    case List(items) => items == []
  }

  /** Of every type exactly the initial value is false; `!`, `&&` and `||` go by that. */
  lemma Truth(v: SValue, u: SValue)
    ensures Truthy(v) <==> !IsDefault(v)
    ensures DefaultOf(Tag(v)) == v <==> IsDefault(v)
    ensures Says(EvalUnary(OP_NOT, v), IsDefault(v))
    ensures Says(EvalBinary(OP_LAND, v, u), !(IsDefault(v) || IsDefault(u)))
    ensures Says(EvalBinary(OP_LOR, v, u), !(IsDefault(v) && IsDefault(u)))
  {
  }

  lemma DefaultsHaveTheirType(t: int)
    ensures Tag(DefaultOf(t)) == if INTEGER <= t <= LIST then t else VOID
    ensures IsDefault(DefaultOf(t))
  {
  }

  // ----- signs and steps -----

  /** A value and its negation sum up to nothing. */
  lemma Negation(v: SValue)
    ensures var n := EvalUnary(OP_MINUS, v);
            match v
            case Int(i) => n.Int? && InWord(n.i) && Congruent(n.i + i, 0)
            case Float(f) => n.Float? && n.f + f == 0.0
            case Vec(_, _, _) => n.Vec? && EvalBinary(OP_PLUS, n, v) == Vec(0.0, 0.0, 0.0)
            case Rot(_, _, _, _) => n.Rot? && EvalBinary(OP_PLUS, n, v) == Rot(0.0, 0.0, 0.0, 0.0)
            case _ => n == v
  {
    if v.Int? { var k := Wraps(-v.i); }
  }

  /** `++` and `--` are one up and one down, and leave alone what is not a number. */
  lemma Steps(v: SValue)
    ensures var up, down := Bump(OP_INC, v), Bump(OP_DEC, v);
            match v
            case Int(i) => up == EvalBinary(OP_PLUS, v, Int(1)) && down == EvalBinary(OP_MINUS, v, Int(1))
            case Float(f) => up == Float(f + 1.0) && down == Float(f - 1.0)
            case _ => up == down == v
  {
  }

  // ----- conversions -----

  /** The integer next to a number on the side of zero. */
  predicate TowardZero(x: real, a: int) {
    if x >= 0.0 then a >= 0 && a as real <= x < a as real + 1.0 else a <= 0 && a as real - 1.0 < x <= a as real
  }

  /** A float cast to an integer loses its fraction, an integer cast to a float nothing. */
  lemma NumberCasts(h: Host, x: real, i: int)
    ensures var d := DoCast(h, Float(x), INTEGER); d.Int? && TowardZero(x, d.i)
    ensures var d := DoCast(h, Int(i), FLOAT); d.Float? && Denotes(Int(i), d.f) && DoCast(h, d, INTEGER) == Int(i)
  {
  }

  /** Strings and keys keep their text, a value becomes the list that holds it, and what
      cannot be converted becomes the initial value of the type. */
  lemma OtherCasts(h: Host, v: SValue, t: string)
    ensures DoCast(h, Str(t), KEY) == Key(t) && DoCast(h, Str(t), STRING) == Str(t)
    ensures !v.List? ==> DoCast(h, v, LIST) == List([v])
    ensures v.List? || v.Vec? || v.Rot? || v.Void? ==>
              forall to :: to in {INTEGER, FLOAT, KEY, VECTOR, ROTATION} && to != Tag(v) ==>
                IsDefault(DoCast(h, v, to)) && Tag(DoCast(h, v, to)) == to
    ensures v.Int? || v.Float? || v.Key? ==>
              forall to :: to in {VECTOR, ROTATION} ==> IsDefault(DoCast(h, v, to)) && Tag(DoCast(h, v, to)) == to
    ensures v.Int? || v.Float? ==> DoCast(h, v, KEY) == Key(NULL_KEY)
    ensures DoCast(h, v, Tag(v)) == v
  {
  }

  /** Text is read, and values are shown, by the conversions of libc. */
  lemma LibcCasts(h: Host, v: SValue, t: string)
    ensures DoCast(h, Str(t), INTEGER) == DoCast(h, Key(t), INTEGER) == Int(h.parseInt(t))
    ensures DoCast(h, Str(t), FLOAT) == DoCast(h, Key(t), FLOAT) == Float(h.parseFloat(t))
    ensures var (x, y, z) := h.parseVec(t); DoCast(h, Str(t), VECTOR) == Vec(x, y, z)
    ensures var (x, y, z, w) := h.parseRot(t); DoCast(h, Str(t), ROTATION) == Rot(x, y, z, w)
    ensures !v.Str? ==> DoCast(h, v, STRING) == Str(h.show(v))
  {
  }

  /** Storing a value in a cell of a type converts integers to floats, and strings to keys
      and back, and nothing else. */
  lemma Coercions(v: SValue, to: int)
    ensures var c := Coerce(v, to);
            if v.Int? && to == FLOAT then c.Float? && Denotes(v, c.f)
            else if (v.Str? || v.Key?) && to in {STRING, KEY} then Tag(c) == to && c.text == v.text
            else c == v
  {
  }

  /** The members are named by the codes of their letters; vectors have no fourth. */
  lemma Members(v: SValue, axis: int)
    ensures v.Vec? ==> MemberOf(v, 120) == v.x && MemberOf(v, 121) == v.y && MemberOf(v, 122) == v.z
    ensures v.Rot? ==> MemberOf(v, 120) == v.x && MemberOf(v, 121) == v.y && MemberOf(v, 122) == v.z
    ensures v.Rot? ==> MemberOf(v, 115) == v.w
    ensures !(v.Rot? && axis in {115, 120, 121, 122}) && !(v.Vec? && axis in {120, 121, 122}) ==>
              MemberOf(v, axis) == 0.0
  {
  }
}
