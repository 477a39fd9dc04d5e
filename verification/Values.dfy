/** The LSL value domain of src/value.c and the pure operators of src/vm.c:
    coercion, truthiness, equality, binary operators and casts. */
module Values {
  import opened MachineWords

  // Tags of SVType; the byte code stores them as raw numbers.
  const VOID := 0
  const INTEGER := 1
  const FLOAT := 2
  const STRING := 3
  const KEY := 4
  const VECTOR := 5
  const ROTATION := 6
  const LIST := 7

  // Operator tokens, numbered as the compiler numbers them.
  const OP_ASSIGN := 36
  const OP_PLUS_ASSIGN := 37
  const OP_MINUS_ASSIGN := 38
  const OP_STAR_ASSIGN := 39
  const OP_SLASH_ASSIGN := 40
  const OP_PERCENT_ASSIGN := 41
  const OP_PLUS := 42
  const OP_MINUS := 43
  const OP_STAR := 44
  const OP_SLASH := 45
  const OP_PERCENT := 46
  const OP_AND := 47
  const OP_OR := 48
  const OP_XOR := 49
  const OP_TILDE := 50
  const OP_LAND := 51
  const OP_LOR := 52
  const OP_NOT := 53
  const OP_EQ := 54
  const OP_NEQ := 55
  const OP_LE := 56
  const OP_GE := 57
  const OP_LT := 58
  const OP_GT := 59
  const OP_SHL := 60
  const OP_SHR := 61
  const OP_INC := 62
  const OP_DEC := 63

  const NULL_KEY := "00000000-0000-0000-0000-000000000000"

  datatype SValue =
    | Void
    | Int(i: int)
    | Float(f: real)
    | Str(text: string)
    | Key(text: string)
    | Vec(x: real, y: real, z: real)
    | Rot(x: real, y: real, z: real, w: real)
    | List(items: seq<SValue>)

  /** One call of a built-in, as the rest of the emulator sees it. */
  datatype Call = Call(name: string, args: seq<SValue>)

  /** Everything the interpreter takes from libc or from the built-in table.
      A built-in's result may depend on every built-in call made so far, the current
      one last. With `strict` set, an integer division by zero is reported as a fault;
      the emulator itself runs with `strict` off. */
  datatype Host = Host(
    strict: bool,
    ofBits: int -> real,                          // bit pattern of a double
    pun: SValue -> real,                          // u.f read from a value that is not a float
    show: SValue -> string,                       // sv_to_string
    parseInt: string -> int,                      // strtoll
    parseFloat: string -> real,                   // strtod
    parseVec: string -> (real, real, real),       // sscanf
    parseRot: string -> (real, real, real, real), // sscanf
    konst: string -> SValue,                      // builtins_const
    builtin: seq<Call> -> SValue)                 // builtins_lookup and the call

  function Tag(v: SValue): (t: int)
    ensures VOID <= t <= LIST
  {
    match v
    case Void => VOID
    case Int(_) => INTEGER
    case Float(_) => FLOAT
    case Str(_) => STRING
    case Key(_) => KEY
    case Vec(_, _, _) => VECTOR
    case Rot(_, _, _, _) => ROTATION
    case List(_) => LIST
  }

  predicate IsNum(v: SValue) { v.Int? || v.Float? }

  predicate IsText(v: SValue) { v.Str? || v.Key? }

  /** The value a variable of a type starts with. */
  function DefaultOf(t: int): SValue {
    if t == INTEGER then Int(0)
    else if t == FLOAT then Float(0.0)
    else if t == STRING then Str("")
    else if t == KEY then Key(NULL_KEY)
    else if t == VECTOR then Vec(0.0, 0.0, 0.0)
    else if t == ROTATION then Rot(0.0, 0.0, 0.0, 1.0)
    else if t == LIST then List([])
    else Void
  }

  function Coerce(v: SValue, to: int): SValue {
    if to == FLOAT && v.Int? then Float(v.i as real)
    else if to == KEY && v.Str? then Key(v.text)
    else if to == STRING && v.Key? then Str(v.text)
    else v
  }

  function Truthy(v: SValue): bool {
    match v
    case Void => false
    case Int(i) => i != 0
    case Float(f) => f != 0.0
    case Str(s) => s != ""
    case Key(s) => s != NULL_KEY
    case Vec(x, y, z) => !(x == 0.0 && y == 0.0 && z == 0.0)
    case Rot(x, y, z, w) => !(x == 0.0 && y == 0.0 && z == 0.0 && w == 1.0)
    case List(items) => |items| > 0
  }

  function Bool(b: bool): SValue { Int(if b then 1 else 0) }

  /** Lists compare by length only; numbers compare across int and float. */
  function SvEqual(a: SValue, b: SValue): bool {
    if a.Int? && b.Int? then a.i == b.i
    else if IsNum(a) && IsNum(b) then AsReal(a) == AsReal(b)
    else if IsText(a) && IsText(b) then a.text == b.text
    else if a.Vec? && b.Vec? then a == b
    else if a.Rot? && b.Rot? then a == b
    else a.List? && b.List? && |a.items| == |b.items|
  }

  // ----- machine arithmetic -----

  /** Two's complement reading of the low 64 bits. */
  function Wrap64(x: int): int { (x + TWO63) % TWO64 - TWO63 }

  /** C's conversion of a double to an integer drops the fraction. */
  function Trunc(r: real): int { if r >= 0.0 then r.Floor else -((-r).Floor) }

  /** C's `/` truncates toward zero and `%` takes the sign of the dividend. */
  function CDiv(a: int, b: int): int
    requires b != 0
  {
    var q := (if a < 0 then -a else a) / (if b < 0 then -b else b);
    if (a < 0) != (b < 0) then -q else q
  }

  function CMod(a: int, b: int): int
    requires b != 0
  {
    a - CDiv(a, b) * b
  }

  /** Bit pattern of a 64-bit integer. */
  function Pattern(x: int): nat { x % TWO64 }

  /** Two bits combined. */
  function OneBit(op: int, p: nat, q: nat): (bit: nat)
    requires p < 2 && q < 2
    ensures bit < 2
  {
    if op == OP_AND then p * q else if op == OP_OR then p + q - p * q else (p + q) % 2
  }

  /** Bitwise combination of two patterns, least significant bit first. */
  function Bits(op: int, a: nat, b: nat): nat
    decreases a + b
  {
    if a == 0 && b == 0 then 0
    else 2 * Bits(op, a / 2, b / 2) + OneBit(op, a % 2, b % 2)
  }

  /** Combining numbers of n bits gives one of n bits. */
  lemma {:induction false} BitsBound(op: int, a: nat, b: nat, n: nat)
    requires a < Pow2(n) && b < Pow2(n)
    ensures Bits(op, a, b) < Pow2(n)
    decreases n
  {
    hide OneBit;
    if n > 0 { BitsBound(op, a / 2, b / 2, n - 1); }
  }

  function Pow2(n: nat): (r: nat)
    ensures r > 0
  {
    if n == 0 then 1 else 2 * Pow2(n - 1)
  }

  // ----- binary operators -----

  function AsReal(v: SValue): real
    requires IsNum(v)
  {
    if v.Int? then v.i as real else v.f
  }

  function AsInt(v: SValue): int
    requires IsNum(v)
  {
    if v.Int? then v.i else Trunc(v.f)
  }

  function Items(v: SValue): seq<SValue> { if v.List? then v.items else [v] }

  function Plus(l: SValue, r: SValue): SValue {
    if IsText(l) && IsText(r) then Str(l.text + r.text)
    else if l.Vec? && r.Vec? then Vec(l.x + r.x, l.y + r.y, l.z + r.z)
    else if l.Rot? && r.Rot? then Rot(l.x + r.x, l.y + r.y, l.z + r.z, l.w + r.w)
    else if l.List? || r.List? then List(Items(l) + Items(r))
    else if l.Int? && r.Int? then Int(Wrap64(l.i + r.i))
    else if IsNum(l) && IsNum(r) then Float(AsReal(l) + AsReal(r))
    else Void
  }

  function Minus(l: SValue, r: SValue): SValue {
    if l.Vec? && r.Vec? then Vec(l.x - r.x, l.y - r.y, l.z - r.z)
    else if l.Rot? && r.Rot? then Rot(l.x - r.x, l.y - r.y, l.z - r.z, l.w - r.w)
    else if l.Int? && r.Int? then Int(Wrap64(l.i - r.i))
    else if IsNum(l) && IsNum(r) then Float(AsReal(l) - AsReal(r))
    else Void
  }

  function Scale(v: SValue, k: real): SValue
    requires v.Vec?
  {
    Vec(v.x * k, v.y * k, v.z * k)
  }

  /** Vector times rotation only scales by the real part, as the source notes. */
  function Star(l: SValue, r: SValue): SValue {
    if l.Vec? && r.Vec? then Float(l.x * r.x + l.y * r.y + l.z * r.z)
    else if l.Vec? && IsNum(r) then Scale(l, AsReal(r))
    else if IsNum(l) && r.Vec? then Scale(r, AsReal(l))
    else if l.Vec? && r.Rot? then Scale(l, r.w)
    else if l.Rot? && r.Rot? then
      Rot(l.w * r.x + l.x * r.w + l.y * r.z - l.z * r.y,
          l.w * r.y - l.x * r.z + l.y * r.w + l.z * r.x,
          l.w * r.z + l.x * r.y - l.y * r.x + l.z * r.w,
          l.w * r.w - l.x * r.x - l.y * r.y - l.z * r.z)
    else if l.Int? && r.Int? then Int(Wrap64(l.i * r.i))
    else if IsNum(l) && IsNum(r) then Float(AsReal(l) * AsReal(r))
    else Void
  }

  /** Division by zero gives a float zero even between integers. */
  function Slash(l: SValue, r: SValue): SValue {
    if l.Vec? && IsNum(r) then
      var k := AsReal(r);
      if k != 0.0 then Vec(l.x / k, l.y / k, l.z / k) else Vec(0.0, 0.0, 0.0)
    else if l.Int? && r.Int? && r.i != 0 then Int(Wrap64(CDiv(l.i, r.i)))
    else if IsNum(l) && IsNum(r) then
      if AsReal(r) != 0.0 then Float(AsReal(l) / AsReal(r)) else Float(0.0)
    else Void
  }

  function Percent(l: SValue, r: SValue): SValue {
    if l.Vec? && r.Vec? then
      Vec(l.y * r.z - l.z * r.y, l.z * r.x - l.x * r.z, l.x * r.y - l.y * r.x)
    else if l.Int? && r.Int? && r.i != 0 then Int(Wrap64(CMod(l.i, r.i)))
    else Int(0)
  }

  /** Bit operators read anything that is not a pair of numbers as 0 and 0. */
  function BitOp(op: int, l: SValue, r: SValue): SValue {
    var num := IsNum(l) && IsNum(r);
    var a := if num then AsInt(l) else 0;
    var b := if num then AsInt(r) else 0;
    if op == OP_SHL then Int(Wrap64(Pattern(a) * Pow2(b % 32)))
    else if op == OP_SHR then Int(a / Pow2(b % 32))
    else Int(Wrap64(Bits(op, Pattern(a), Pattern(b))))
  }

  /** strcmp(a, b) < 0 */
  predicate StrLess(a: string, b: string) {
    if b == "" then false
    else if a == "" then true
    else a[0] < b[0] || (a[0] == b[0] && StrLess(a[1..], b[1..]))
  }

  /** Ordering operators; `<=` and `>=` on strings are always false. */
  function Compare(op: int, l: SValue, r: SValue): SValue {
    if IsNum(l) && IsNum(r) then
      var a, b := AsReal(l), AsReal(r);
      Bool(if op == OP_LT then a < b else if op == OP_GT then a > b
           else if op == OP_LE then a <= b else a >= b)
    else if l.List? && r.List? then
      var a, b := |l.items|, |r.items|;
      Bool(if op == OP_LT then a < b else if op == OP_GT then a > b
           else if op == OP_LE then a <= b else a >= b)
    else if IsText(l) && IsText(r) then
      Bool(if op == OP_LT then StrLess(l.text, r.text)
           else if op == OP_GT then StrLess(r.text, l.text) else false)
    else Int(0)
  }

  function EvalBinary(op: int, l: SValue, r: SValue): SValue {
    if op == OP_PLUS then Plus(l, r)
    else if op == OP_MINUS then Minus(l, r)
    else if op == OP_STAR then Star(l, r)
    else if op == OP_SLASH then Slash(l, r)
    else if op == OP_PERCENT then Percent(l, r)
    else if op == OP_AND || op == OP_OR || op == OP_XOR || op == OP_SHL || op == OP_SHR then BitOp(op, l, r)
    else if op == OP_LAND then Bool(Truthy(l) && Truthy(r))
    else if op == OP_LOR then Bool(Truthy(l) || Truthy(r))
    else if op == OP_EQ then Bool(SvEqual(l, r))
    else if op == OP_NEQ then Bool(!SvEqual(l, r))
    else if op == OP_LT || op == OP_GT || op == OP_LE || op == OP_GE then Compare(op, l, r)
    else Void
  }

  predicate IsZeroDivision(op: int, l: SValue, r: SValue) {
    op == OP_SLASH && l.Int? && r.Int? && r.i == 0
  }

  // ----- unary operators and casts -----

  function Negate(v: SValue): SValue {
    match v
    case Int(i) => Int(Wrap64(-i))
    case Float(f) => Float(-f)
    case Vec(x, y, z) => Vec(-x, -y, -z)
    case Rot(x, y, z, w) => Rot(-x, -y, -z, -w)
    case _ => v
  }

  function EvalUnary(op: int, v: SValue): SValue {
    if op == OP_MINUS then Negate(v)
    else if op == OP_NOT then Bool(!Truthy(v))
    else if op == OP_TILDE then Int(if v.Int? then -1 - v.i else -1)
    else v
  }

  /** `++` for OP_INC, `--` for every other operator. */
  function Bump(op: int, v: SValue): SValue {
    var d := if op == OP_INC then 1 else -1;
    if v.Int? then Int(Wrap64(v.i + d))
    else if v.Float? then Float(v.f + d as real)
    else v
  }

  function MemberOf(v: SValue, axis: int): real {
    if v.Vec? || v.Rot? then
      if axis == 'x' as int then v.x
      else if axis == 'y' as int then v.y
      else if axis == 'z' as int then v.z
      else if axis == 's' as int && v.Rot? then v.w
      else 0.0
    else 0.0
  }

  function DoCast(h: Host, v: SValue, to: int): SValue {
    if Tag(v) == to then v
    else if to == INTEGER then
      Int(if v.Float? then Trunc(v.f) else if IsText(v) then h.parseInt(v.text) else 0)
    else if to == FLOAT then
      Float(if v.Int? then v.i as real else if IsText(v) then h.parseFloat(v.text) else 0.0)
    else if to == STRING then Str(h.show(v))
    else if to == KEY then Key(if v.Str? then v.text else NULL_KEY)
    else if to == VECTOR then
      if v.Str? then var t := h.parseVec(v.text); Vec(t.0, t.1, t.2) else Vec(0.0, 0.0, 0.0)
    else if to == ROTATION then
      if v.Str? then var t := h.parseRot(v.text); Rot(t.0, t.1, t.2, t.3) else Rot(0.0, 0.0, 0.0, 1.0)
    else if to == LIST then List([v])
    else v
  }
}
