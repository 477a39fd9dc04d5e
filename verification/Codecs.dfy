/** Base64 (section 4 of RFC 4648) and URL escaping, as src/builtins.c does them on bytes. */
module Codecs {
  import opened MachineWords

  const UPPER := "ABCDEFGHIJKLMNOPQRSTUVWXYZ"
  const LOWER := "abcdefghijklmnopqrstuvwxyz"
  const NUMERALS := "0123456789"

  /** The table B64. */
  function B64(): string { UPPER + LOWER + NUMERALS + "+/" }

  // ----- the alphabet -----

  /** The character for a six-bit value. */
  function Digit(v: int): (c: char)
    requires 0 <= v < 64
  {
    if v < 26 then 'A' + (v as char) else if v < 52 then 'a' + ((v - 26) as char)
    else if v < 62 then '0' + ((v - 52) as char) else if v == 62 then '+' else '/'
  }

  lemma {:induction false} Table()
    ensures B64() == seq(64, i requires 0 <= i < 64 => Digit(i))
  {
    assert UPPER == seq(26, i requires 0 <= i < 26 => Digit(i));
    assert LOWER == seq(26, i requires 0 <= i < 26 => Digit(i + 26));
    assert NUMERALS == seq(10, i requires 0 <= i < 10 => Digit(i + 52));
  }

  /** The value of a character, as an index into the table: -1 for padding, -2 for others. */
  function Value(c: char): (v: int)
    ensures -2 <= v < 64
  {
    if 'A' <= c <= 'Z' then c as int - 'A' as int
    else if 'a' <= c <= 'z' then c as int - 'a' as int + 26
    else if '0' <= c <= '9' then c as int - '0' as int + 52
    else if c == '+' then 62 else if c == '/' then 63 else if c == '=' then -1 else -2
  }

  lemma DigitValue(v: int)
    requires 0 <= v < 64
    ensures Value(Digit(v)) == v
  {
  }

  lemma ValueDigit(c: char)
    requires Value(c) >= 0
    ensures Digit(Value(c)) == c
  {
  }

  lemma {:induction false} InTable(c: char)
    requires Value(c) >= 0
    ensures Value(c) < |B64()| && B64()[Value(c)] == c
  {
    Table();
    ValueDigit(c);
  }

  /** b64v: looks the character up in the table. */
  method CharValue(c: char) returns (v: int)
    ensures v == Value(c)
  {
    hide B64, Digit, Value;
    Table();
    for i := 0 to 64
      invariant forall k :: 0 <= k < i ==> B64()[k] != c
    {
      assert B64()[i] == Digit(i);
      if B64()[i] == c {
        DigitValue(i);
        return i;
      }
    }
    NotInTable(c);
    v := if c == '=' then -1 else -2;
  }

  lemma {:induction false} NotInTable(c: char)
    requires |B64()| == 64 && forall k :: 0 <= k < 64 ==> B64()[k] != c
    ensures Value(c) == if c == '=' then -1 else -2
  {
    hide B64;
    if Value(c) >= 0 {
      InTable(c);
      assert false;
    }
  }

  // ----- encoding -----

  /** Section 4 of RFC 4648: 24 bits to four characters; two or one bytes at the end are
      filled up with zero bits, and with padding characters. */
  function Encode(b: seq<Byte>): (t: string)
    decreases |b|
  {
    if b == [] then ""
    else if |b| == 1 then [Digit(b[0] / 4), Digit(b[0] % 4 * 16), '=', '=']
    else if |b| == 2 then [Digit(b[0] / 4), Digit(b[0] % 4 * 16 + b[1] / 16), Digit(b[1] % 16 * 4), '=']
    else [Digit(b[0] / 4), Digit(b[0] % 4 * 16 + b[1] / 16), Digit(b[1] % 16 * 4 + b[2] / 64), Digit(b[2] % 64)]
         + Encode(b[3..])
  }

  /** The four characters that the loop of llStringToBase64 takes from a 24-bit word, for
      n bytes in it. */
  function Quad(v: nat, n: nat): (t: string)
    requires v < 0x100_0000
  {
    [Digit(v / 0x4_0000 % 64), Digit(v / 0x1000 % 64),
     if n > 1 then Digit(v / 64 % 64) else '=', if n > 2 then Digit(v % 64) else '=']
  }

  lemma {:induction false} FirstDigits(x: Byte, y: Byte, z: Byte)
    ensures var v := x * 0x1_0000 + y * 0x100 + z;
            v / 0x4_0000 % 64 == x / 4 && v / 0x1000 % 64 == x % 4 * 16 + y / 16
  {
    FirstLinear(x / 4, x % 4, y / 16, y % 16, z);
  }

  /** The same with the parts of the bytes named. */
  lemma {:induction false} FirstLinear(x1: nat, x0: nat, y1: nat, y0: nat, z: nat)
    requires x1 < 64 && x0 < 4 && y1 < 16 && y0 < 16 && z < 256
    ensures var v := (x1 * 4 + x0) * 0x1_0000 + (y1 * 16 + y0) * 0x100 + z;
            v / 0x4_0000 % 64 == x1 && v / 0x1000 % 64 == x0 * 16 + y1
  {
    var v := (x1 * 4 + x0) * 0x1_0000 + (y1 * 16 + y0) * 0x100 + z;
    assert v / 0x4_0000 == x1;
    assert v / 0x1000 == x1 * 64 + (x0 * 16 + y1);
  }

  lemma {:induction false} LastDigits(x: Byte, y: Byte, z: Byte)
    ensures var v := x * 0x1_0000 + y * 0x100 + z;
            v / 64 % 64 == y % 16 * 4 + z / 64 && v % 64 == z % 64
  {
    LastLinear(x, y / 16, y % 16, z / 64, z % 64);
  }

  lemma {:induction false} LastLinear(x: nat, y1: nat, y0: nat, z1: nat, z0: nat)
    requires x < 256 && y1 < 16 && y0 < 16 && z1 < 4 && z0 < 64
    ensures var v := x * 0x1_0000 + (y1 * 16 + y0) * 0x100 + (z1 * 64 + z0);
            v / 64 % 64 == y0 * 4 + z1 && v % 64 == z0
  {
    var v := x * 0x1_0000 + (y1 * 16 + y0) * 0x100 + (z1 * 64 + z0);
    assert v / 64 == (x * 16 + y1) * 64 + (y0 * 4 + z1);
  }

  /** The word that the loop builds from up to three bytes, with zeros for missing ones. */
  function Word24(b: seq<Byte>): (v: nat)
    ensures v < 0x100_0000
  {
    var x: int, y: int, z: int :=
      if |b| > 0 then b[0] else 0, if |b| > 1 then b[1] else 0, if |b| > 2 then b[2] else 0;
    x * 0x1_0000 + y * 0x100 + z
  }

  lemma {:induction false} EncodeStep(b: seq<Byte>)
    requires b != []
    ensures Encode(b) == Quad(Word24(b), |b|) + (if |b| > 3 then Encode(b[3..]) else "")
  {
    hide Digit;
    var x, y, z := b[0], if |b| > 1 then b[1] else 0, if |b| > 2 then b[2] else 0;
    FirstDigits(x, y, z);
    LastDigits(x, y, z);
    assert Encode([]) == "";
    if |b| == 3 { assert b[3..] == []; }
  }

  /** llStringToBase64 */
  method StringToBase64(t: seq<Byte>) returns (out: string)
    ensures out == Encode(t)
  {
    hide Digit, Encode, Quad;
    out := "";
    var i := 0;
    assert t[0..] == t;
    EncodeNothing();
    while i < |t|
      invariant 0 <= i && Encode(t) == out + (if i < |t| then Encode(t[i..]) else "")
      decreases |t| - i
    {
      var x: int, y: int, z: int := t[i], 0, 0;
      if i + 1 < |t| { y := t[i + 1]; }
      if i + 2 < |t| { z := t[i + 2]; }
      var v := x * 0x1_0000 + y * 0x100 + z;
      assert v == Word24(t[i..]);
      EncodeStep(t[i..]);
      out := out + Quad(v, |t| - i);
      if i + 3 < |t| { assert t[i..][3..] == t[i + 3..]; }
      i := i + 3;
    }
  }

  lemma EncodeNothing()
    ensures Encode([]) == ""
  {
  }

  // ----- decoding -----

  /** What the loop of llBase64ToString writes for the rest of a text: an accumulator of 32
      bits that is never masked, of which the low `bits` bits have not been written. */
  function Decode(t: string, buf: nat, bits: nat): (b: seq<Byte>)
    decreases |t|
  {
    if t == "" then []
    else
      var v := Value(t[0]);
      if v < 0 then Decode(t[1..], buf, bits)
      else
        var buf' := (buf * 64 + v) % TWO32;
        if bits == 2 then [buf' % 256] + Decode(t[1..], buf', 0)
        else if bits == 4 then [buf' / 4 % 256] + Decode(t[1..], buf', 2)
        else if bits == 6 then [buf' / 16 % 256] + Decode(t[1..], buf', 4)
        else Decode(t[1..], buf', bits + 6)
  }

  /** A step of the accumulator keeps its low bits, whatever was in it before. */
  lemma {:induction false} Push(buf: nat, v: nat)
    requires v < 64
    ensures var b := (buf * 64 + v) % TWO32; b % 0x1000 == buf % 64 * 64 + v && b % 64 == v
  {
    var b := (buf * 64 + v) % TWO32;
    var k := (buf * 64 + v) / TWO32;
    assert buf * 64 + v == k * 0x10_0000 * 0x1000 + b;
    assert buf * 64 + v == buf / 64 * 0x1000 + (buf % 64 * 64 + v);
    assert b == (buf / 64 - k * 0x10_0000) * 0x1000 + (buf % 64 * 64 + v);
  }

  lemma {:induction false} Window16(b: nat)
    ensures b / 16 % 256 == b % 0x1000 / 16
  {
    assert b / 16 == b / 0x1000 * 256 + b % 0x1000 / 16;
  }

  lemma {:induction false} Window4(b: nat)
    ensures b / 4 % 256 == b % 0x1000 % 0x400 / 4
  {
    var q, low := b / 0x1000, b % 0x1000;
    var h, m := low / 0x400, low % 0x400;
    var k := m / 4;
    Quarter(b, q * 0x400 + h * 256 + k, m % 4);
    Octet(q * 0x400 + h * 256 + k, q * 4 + h, k);
  }

  lemma {:induction false} Window1(b: nat)
    ensures b % 256 == b % 0x1000 % 256
  {
    var q, low := b / 0x1000, b % 0x1000;
    Octet(b, q * 16 + low / 256, low % 256);
  }

  lemma Quarter(a: nat, q: nat, r: nat)
    requires a == q * 4 + r && r < 4
    ensures a / 4 == q
  {
  }

  lemma Octet(a: nat, q: nat, r: nat)
    requires a == q * 256 + r && r < 256
    ensures a % 256 == r
  {
  }

  /** Reading one digit. */
  lemma {:induction false} DecodeDigit(v: nat, rest: string, buf: nat, bits: nat)
    requires v < 64 && bits in {0, 2, 4, 6}
    ensures var b := (buf * 64 + v) % TWO32; var low := buf % 64 * 64 + v;
            && b % 64 == v
            && Decode([Digit(v)] + rest, buf, bits) ==
               if bits == 2 then [low % 256] + Decode(rest, b, 0)
               else if bits == 4 then [low % 0x400 / 4] + Decode(rest, b, 2)
               else if bits == 6 then [low / 16] + Decode(rest, b, 4)
               else Decode(rest, b, 6)
  {
    hide Digit, Value;
    DigitValue(v);
    Push(buf, v);
    var b := (buf * 64 + v) % TWO32;
    Window16(b);
    Window4(b);
    Window1(b);
    assert ([Digit(v)] + rest)[1..] == rest;
  }

  lemma {:induction false} DecodePads(buf: nat, bits: nat)
    ensures Decode("=", buf, bits) == [] && Decode("==", buf, bits) == []
  {
    assert "=="[1..] == "=";
  }

  /** The digits of three bytes. */
  function D0(x: Byte): (d: int) ensures 0 <= d < 64 { x / 4 }
  function D1(x: Byte, y: Byte): (d: int) ensures 0 <= d < 64 { x % 4 * 16 + y / 16 }
  function D2(y: Byte, z: Byte): (d: int) ensures 0 <= d < 64 { y % 16 * 4 + z / 64 }
  function D3(z: Byte): (d: int) ensures 0 <= d < 64 { z % 64 }

  lemma {:induction false} Group(x: Byte, y: Byte, z: Byte, e: string, buf: nat) returns (buf': nat)
    ensures Decode([Digit(D0(x))] + ([Digit(D1(x, y))] + ([Digit(D2(y, z))] + ([Digit(D3(z))] + e))), buf, 0)
         == [x, y, z] + Decode(e, buf', 0)
  {
    hide Digit, Value, Decode, D0, D1, D2, D3;
    var r3 := [Digit(D3(z))] + e;
    var r2 := [Digit(D2(y, z))] + r3;
    var r1 := [Digit(D1(x, y))] + r2;
    var b0 := (buf * 64 + D0(x)) % TWO32;
    var b1 := (b0 * 64 + D1(x, y)) % TWO32;
    var b2 := (b1 * 64 + D2(y, z)) % TWO32;
    buf' := (b2 * 64 + D3(z)) % TWO32;
    Parts(x, y, z);
    DecodeDigit(D0(x), r1, buf, 0);
    DecodeDigit(D1(x, y), r2, b0, 6);
    DecodeDigit(D2(y, z), r3, b1, 4);
    DecodeDigit(D3(z), e, b2, 2);
  }

  lemma {:induction false} TwoLeft(x: Byte, y: Byte, buf: nat)
    ensures Decode([Digit(D0(x))] + ([Digit(D1(x, y))] + ([Digit(D2(y, 0))] + "=")), buf, 0) == [x, y]
  {
    hide Digit, Value, Decode, D0, D1, D2, D3;
    var r2 := [Digit(D2(y, 0))] + "=";
    var b0 := (buf * 64 + D0(x)) % TWO32;
    var b1 := (b0 * 64 + D1(x, y)) % TWO32;
    Parts(x, y, 0);
    DecodeDigit(D0(x), [Digit(D1(x, y))] + r2, buf, 0);
    DecodeDigit(D1(x, y), r2, b0, 6);
    DecodeDigit(D2(y, 0), "=", b1, 4);
    DecodePads((b1 * 64 + D2(y, 0)) % TWO32, 2);
  }

  lemma {:induction false} OneLeft(x: Byte, buf: nat)
    ensures Decode([Digit(D0(x))] + ([Digit(D1(x, 0))] + "=="), buf, 0) == [x]
  {
    hide Digit, Value, Decode, D0, D1;
    var b0 := (buf * 64 + D0(x)) % TWO32;
    Parts(x, 0, 0);
    DecodeDigit(D0(x), [Digit(D1(x, 0))] + "==", buf, 0);
    DecodeDigit(D1(x, 0), "==", b0, 6);
    DecodePads((b0 * 64 + D1(x, 0)) % TWO32, 4);
  }

  /** Decoding what was encoded gives the bytes back, whatever the accumulator held. */
  lemma {:induction false} RoundTrip(b: seq<Byte>, buf: nat)
    ensures Decode(Encode(b), buf, 0) == b
    decreases |b|
  {
    hide Digit, Value, Decode, Encode, D0, D1, D2, D3;
    if b == [] {
      DecodeNothing(buf);
      EncodeNothing();
    } else if |b| == 1 {
      OneLeft(b[0], buf);
      EncodesOne(b);
    } else if |b| == 2 {
      TwoLeft(b[0], b[1], buf);
      EncodesTwo(b);
    } else {
      var buf' := Group(b[0], b[1], b[2], Encode(b[3..]), buf);
      EncodesThree(b);
      RoundTrip(b[3..], buf');
      assert b == [b[0], b[1], b[2]] + b[3..];
    }
  }

  lemma {:induction false} EncodesOne(b: seq<Byte>)
    requires |b| == 1
    ensures Encode(b) == [Digit(D0(b[0]))] + ([Digit(D1(b[0], 0))] + "==") && b == [b[0]]
  {
    hide Digit;
  }

  lemma {:induction false} EncodesTwo(b: seq<Byte>)
    requires |b| == 2
    ensures Encode(b) == [Digit(D0(b[0]))] + ([Digit(D1(b[0], b[1]))] + ([Digit(D2(b[1], 0))] + "="))
    ensures b == [b[0], b[1]]
  {
    hide Digit;
  }

  lemma {:induction false} EncodesThree(b: seq<Byte>)
    requires |b| >= 3
    ensures Encode(b) ==
            [Digit(D0(b[0]))] +
            ([Digit(D1(b[0], b[1]))] + ([Digit(D2(b[1], b[2]))] + ([Digit(D3(b[2]))] + Encode(b[3..]))))
  {
    hide Digit;
  }

  lemma DecodeNothing(buf: nat)
    ensures Decode("", buf, 0) == []
  {
  }

  /** Three bytes as four digits, and back. */
  lemma {:induction false} Parts(x: Byte, y: Byte, z: Byte)
    ensures (D0(x) * 64 + D1(x, y)) / 16 == x
    ensures (D1(x, y) * 64 + D2(y, z)) % 0x400 / 4 == y
    ensures (D2(y, z) * 64 + D3(z)) % 256 == z
  {
    FirstPart(x, y);
    SecondPart(x, y, z);
    LastPart(y, z);
  }

  lemma {:induction false} FirstPart(x: Byte, y: Byte)
    ensures (D0(x) * 64 + D1(x, y)) / 16 == x
  {
    assert D0(x) * 64 + D1(x, y) == x * 16 + y / 16;
  }

  lemma {:induction false} SecondPart(x: Byte, y: Byte, z: Byte)
    ensures (D1(x, y) * 64 + D2(y, z)) % 0x400 / 4 == y
  {
    SecondLinear(x % 4, y / 16, y % 16, z / 64);
  }

  lemma {:induction false} SecondLinear(x0: nat, y1: nat, y0: nat, z1: nat)
    requires x0 < 4 && y1 < 16 && y0 < 16 && z1 < 4
    ensures ((x0 * 16 + y1) * 64 + (y0 * 4 + z1)) % 0x400 / 4 == y1 * 16 + y0
  {
    var v := (x0 * 16 + y1) * 64 + (y0 * 4 + z1);
    var r := (y1 * 16 + y0) * 4 + z1;
    assert v == x0 * 0x400 + r && r < 0x400;
    assert v % 0x400 == r;
    Quarter(r, y1 * 16 + y0, z1);
  }

  lemma {:induction false} LastPart(y: Byte, z: Byte)
    ensures (D2(y, z) * 64 + D3(z)) % 256 == z
  {
    assert D2(y, z) * 64 + D3(z) == y % 16 * 256 + z;
  }

  /** llBase64ToString: the bytes written, before a NUL among them ends the string. */
  method Base64ToString(t: string) returns (out: seq<Byte>)
    ensures out == Decode(t, 0, 0)
  {
    hide Value;
    out := [];
    var buf, bits := 0, 0;
    assert t[0..] == t;
    for i := 0 to |t|
      invariant bits in {0, 2, 4, 6} && 0 <= buf
      invariant Decode(t, 0, 0) == out + Decode(t[i..], buf, bits)
    {
      assert t[i..][1..] == t[i + 1..];
      var v := CharValue(t[i]);
      if v < 0 { continue; }
      buf := (buf * 64 + v) % TWO32;
      bits := bits + 6;
      if bits >= 8 {
        bits := bits - 8;
        out := out + [buf / (if bits == 0 then 1 else if bits == 2 then 4 else 16) % 256];
      }
    }
  }

  // ----- integers -----

  /** A C string ends at its first NUL. */
  function UpToNul(b: seq<Byte>): (r: seq<Byte>)
    ensures |r| <= |b| && r == b[..|r|] && 0 !in r && (|r| < |b| ==> b[|r|] == 0)
  {
    if b == [] || b[0] == 0 then [] else [b[0]] + UpToNul(b[1..])
  }

  /** Strings come back from base64 up to their first NUL: all of a string of a script,
      which has none. */
  lemma {:induction false} StringRoundTrip(b: seq<Byte>)
    ensures UpToNul(Decode(Encode(b), 0, 0)) == UpToNul(b)
    ensures UpToNul(Decode(Encode(b), 0, 0)) == b <==> 0 !in b
  {
    hide Decode, Encode;
    RoundTrip(b, 0);
  }

  /** The four low bytes of an integer, high byte first. */
  function Bytes4(v: int): (b: seq<Byte>)
    ensures |b| == 4
  {
    [v / 0x100_0000 % 256, v / 0x1_0000 % 256, v / 0x100 % 256, v % 256]
  }

  function FromBytes(b: seq<Byte>): int
    requires |b| >= 4
  {
    var x: int, y: int, z: int, w: int := b[0], b[1], b[2], b[3];
    x * 0x100_0000 + y * 0x1_0000 + z * 0x100 + w
  }

  /** What llIntegerToBase64 gives: the bytes pass through a C string. */
  function IntegerText(v: int): string { Encode(UpToNul(Bytes4(v))) }

  /** What llBase64ToInteger gives: 0 for fewer than four bytes before a NUL. */
  function IntegerFrom(t: string): int {
    var b := UpToNul(Decode(t, 0, 0));
    if |b| < 4 then 0 else FromBytes(b)
  }

  /** llIntegerToBase64 */
  method IntegerToBase64(v: int) returns (t: string)
    ensures t == IntegerText(v)
  {
    t := StringToBase64(UpToNul(Bytes4(v)));
  }

  /** llBase64ToInteger */
  method Base64ToInteger(t: string) returns (v: int)
    ensures v == IntegerFrom(t)
  {
    var out := Base64ToString(t);
    var b := UpToNul(out);
    v := if |b| < 4 then 0 else FromBytes(b);
  }

  lemma {:induction false} BytesBack(v: int)
    ensures FromBytes(Bytes4(v)) == v % TWO32
  {
    var a, b, c := v / 0x100, v / 0x1_0000, v / 0x100_0000;
    assert v == a * 0x100 + v % 256 && b == a / 256 && c == b / 256;
    assert a == b * 256 + a % 256 && b == c * 256 + b % 256;
    assert v == c / 256 * TWO32 + FromBytes(Bytes4(v));
  }

  /** An integer that goes through base64 comes back modulo 2^32, or as 0 when one of its
      four low bytes is zero; so exactly the integers from 0 to 2^32 - 1 without a zero
      byte, and 0, come back unchanged. */
  lemma {:induction false} IntegerRoundTrip(v: int)
    ensures IntegerFrom(IntegerText(v)) == if 0 in Bytes4(v) then 0 else v % TWO32
    ensures IntegerFrom(IntegerText(v)) == v <==> v == 0 || (0 < v < TWO32 && 0 !in Bytes4(v))
  {
    hide Decode, Encode, Bytes4, FromBytes;
    var b := UpToNul(Bytes4(v));
    RoundTrip(b, 0);
    BytesBack(v);
    if 0 !in Bytes4(v) { assert b == Bytes4(v); }
    assert UpToNul(b) == b;
    ZeroBytes();
  }

  lemma ZeroBytes()
    ensures 0 in Bytes4(0)
  {
    assert Bytes4(0)[0] == 0;
  }

  // ----- URLs -----

  /** Characters that need no escape. */
  predicate Unreserved(c: Byte) {
    || '0' as int <= c <= '9' as int || 'A' as int <= c <= 'Z' as int || 'a' as int <= c <= 'z' as int
    || c == '-' as int || c == '_' as int || c == '.' as int || c == '~' as int
  }

  const PERCENT: Byte := '%' as int

  function Hex(v: int): Byte
    requires 0 <= v < 16
  {
    if v < 10 then '0' as int + v else 'A' as int + v - 10
  }

  /** hexd */
  function HexValue(c: Byte): (v: int)
    ensures -1 <= v < 16
  {
    if '0' as int <= c <= '9' as int then c - '0' as int
    else if 'a' as int <= c <= 'f' as int then c - 'a' as int + 10
    else if 'A' as int <= c <= 'F' as int then c - 'A' as int + 10
    else -1
  }

  function EscapeByte(c: Byte): seq<Byte> {
    if Unreserved(c) then [c] else [PERCENT, Hex(c / 16), Hex(c % 16)]
  }

  function Escape(t: seq<Byte>): seq<Byte> {
    if t == [] then [] else EscapeByte(t[0]) + Escape(t[1..])
  }

  function Unescape(t: seq<Byte>): seq<Byte>
    decreases |t|
  {
    if t == [] then []
    else if t[0] == PERCENT && |t| > 2 && HexValue(t[1]) >= 0 && HexValue(t[2]) >= 0 then
      [HexValue(t[1]) * 16 + HexValue(t[2])] + Unescape(t[3..])
    else [t[0]] + Unescape(t[1..])
  }

  /** llEscapeURL */
  method EscapeURL(t: seq<Byte>) returns (out: seq<Byte>)
    ensures out == Escape(t)
  {
    out := [];
    assert t[0..] == t;
    for i := 0 to |t|
      invariant Escape(t) == out + Escape(t[i..])
    {
      assert t[i..][1..] == t[i + 1..];
      out := out + EscapeByte(t[i]);
    }
  }

  lemma {:induction false} UnescapeAt(t: seq<Byte>, i: nat)
    requires i < |t|
    ensures Unescape(t[i..]) ==
            if t[i] == PERCENT && i + 2 < |t| && HexValue(t[i + 1]) >= 0 && HexValue(t[i + 2]) >= 0 then
              [HexValue(t[i + 1]) * 16 + HexValue(t[i + 2])] + Unescape(t[i + 3..])
            else [t[i]] + Unescape(t[i + 1..])
  {
    hide HexValue;
    var r := t[i..];
    assert r[1..] == t[i + 1..];
    if i + 2 < |t| { assert r[3..] == t[i + 3..]; }
  }

  /** llUnescapeURL */
  method UnescapeURL(t: seq<Byte>) returns (out: seq<Byte>)
    ensures out == Unescape(t)
  {
    hide HexValue, Unescape;
    out := [];
    var i := 0;
    assert t[0..] == t;
    while i < |t|
      invariant 0 <= i <= |t| && Unescape(t) == out + Unescape(t[i..])
    {
      UnescapeAt(t, i);
      if t[i] == PERCENT && i + 2 < |t| {
        var hi, lo := HexValue(t[i + 1]), HexValue(t[i + 2]);
        if hi >= 0 && lo >= 0 {
          out := out + [hi * 16 + lo];
          i := i + 3;
          continue;
        }
      }
      out := out + [t[i]];
      i := i + 1;
    }
    UnescapeNothing();
    assert t[i..] == [] && out + [] == out;
  }

  lemma UnescapeNothing()
    ensures Unescape([]) == []
  {
  }

  lemma {:induction false} UnescapeByte(c: Byte, rest: seq<Byte>)
    ensures Unescape(EscapeByte(c) + rest) == [c] + Unescape(rest)
  {
    var e := EscapeByte(c) + rest;
    if Unreserved(c) {
      assert e[1..] == rest;
    } else {
      assert e[3..] == rest;
      assert HexValue(Hex(c / 16)) == c / 16 && HexValue(Hex(c % 16)) == c % 16;
    }
  }

  /** Unescaping an escaped text gives it back, percent signs and all. */
  lemma {:induction false} UrlRoundTrip(t: seq<Byte>)
    ensures Unescape(Escape(t)) == t
  {
    if t != [] {
      UnescapeByte(t[0], Escape(t[1..]));
      UrlRoundTrip(t[1..]);
    }
  }
}
