/** Base64, URL escapes and the bytes of integers, read by their tables and their positions. */
module CodecLaws {
  import opened MachineWords
  import opened Positional
  import opened Codecs
  import Slbc

  // ----- base64 -----

  const CAPITALS := "ABCDEFGHIJKLMNOPQRSTUVWXYZ"
  const SMALL := "abcdefghijklmnopqrstuvwxyz"
  const TEN := "0123456789"

  /** Table 1 of RFC 4648. */
  const ALPHABET := CAPITALS + SMALL + TEN + "+/"

  lemma AlphabetIs()
    ensures |ALPHABET| == 64 && B64() == ALPHABET
  {
  }

  lemma AlphabetSize()
    ensures |ALPHABET| == 64
  {
  }

  lemma DigitIs(v: int)
    requires 0 <= v < 64
    ensures |ALPHABET| == 64 && Digit(v) == ALPHABET[v]
  {
    hide Digit;
    AlphabetIs();
    Table();
  }

  predicate AllDigits(d: string) { forall i :: 0 <= i < |d| ==> d[i] in ALPHABET }

  /** The place of a digit in the alphabet. */
  ghost function Place(c: char): (v: nat)
    requires c in ALPHABET
    ensures v < |ALPHABET| && ALPHABET[v] == c
  {
    var v :| 0 <= v < |ALPHABET| && ALPHABET[v] == c;
    v
  }

  /** The number that digits of base 64 stand for, the highest first. */
  ghost function FromDigits(d: string): nat
    requires AllDigits(d)
  {
    if d == "" then 0 else FromDigits(d[..|d| - 1]) * 64 + Place(d[|d| - 1])
  }

  lemma PlaceIs(v: nat)
    requires v < 64
    ensures Digit(v) in ALPHABET && Place(Digit(v)) == v
  {
    hide Digit, Value;
    AlphabetIs();
    DigitIs(v);
    var u := Place(Digit(v));
    DigitIs(u);
    DigitValue(u);
    DigitValue(v);
  }

  lemma MoreDigits(d: string, v: nat)
    requires AllDigits(d) && v < 64
    ensures AllDigits(d + [Digit(v)]) && FromDigits(d + [Digit(v)]) == FromDigits(d) * 64 + v
  {
    hide Digit;
    PlaceIs(v);
    assert (d + [Digit(v)])[..|d|] == d;
  }

  lemma OneDigit(a: nat)
    requires a < 64
    ensures AllDigits([Digit(a)]) && FromDigits([Digit(a)]) == a
  {
    hide Digit;
    MoreDigits("", a);
    assert "" + [Digit(a)] == [Digit(a)];
    assert FromDigits("") == 0;
  }

  lemma TwoDigits(a: nat, b: nat)
    requires a < 64 && b < 64
    ensures AllDigits([Digit(a), Digit(b)]) && FromDigits([Digit(a), Digit(b)]) == a * 64 + b
  {
    hide FromDigits, Digit, AllDigits;
    OneDigit(a);
    MoreDigits([Digit(a)], b);
    assert [Digit(a)] + [Digit(b)] == [Digit(a), Digit(b)];
  }

  lemma ThreeDigits(a: nat, b: nat, c: nat)
    requires a < 64 && b < 64 && c < 64
    ensures AllDigits([Digit(a), Digit(b), Digit(c)])
    ensures FromDigits([Digit(a), Digit(b), Digit(c)]) == (a * 64 + b) * 64 + c
  {
    hide FromDigits, Digit, AllDigits;
    TwoDigits(a, b);
    MoreDigits([Digit(a), Digit(b)], c);
    assert [Digit(a), Digit(b)] + [Digit(c)] == [Digit(a), Digit(b), Digit(c)];
  }

  lemma FourDigits(a: nat, b: nat, c: nat, d: nat)
    requires a < 64 && b < 64 && c < 64 && d < 64
    ensures AllDigits([Digit(a), Digit(b), Digit(c), Digit(d)])
    ensures FromDigits([Digit(a), Digit(b), Digit(c), Digit(d)]) == ((a * 64 + b) * 64 + c) * 64 + d
  {
    hide FromDigits, Digit, AllDigits;
    ThreeDigits(a, b, c);
    MoreDigits([Digit(a), Digit(b), Digit(c)], d);
    assert [Digit(a), Digit(b), Digit(c)] + [Digit(d)] == [Digit(a), Digit(b), Digit(c), Digit(d)];
  }

  /** The digits stand for x. */
  ghost predicate Spells(d: string, x: nat) { AllDigits(d) && FromDigits(d) == x }

  /** Section 4 of RFC 4648: three bytes as one number spell four digits; what is left at the
      end is shifted up to whole digits, and padded. */
  ghost predicate Base64(b: seq<Byte>, t: string)
    decreases |b|
  {
    if |b| == 0 then t == ""
    else if |b| == 1 then |t| == 4 && Spells(t[..2], FromBig(b) * 16) && t[2..] == "=="
    else if |b| == 2 then |t| == 4 && Spells(t[..3], FromBig(b) * 4) && t[3..] == "="
    else |t| >= 4 && Spells(t[..4], FromBig(b[..3])) && Base64(b[3..], t[4..])
  }

  lemma FromBigOne(x: Byte)
    ensures FromBig([x]) == x
  {
    assert [x][..0] == [] && FromBig([]) == 0;
  }

  lemma FromBigTwo(x: Byte, y: Byte)
    ensures FromBig([x, y]) == x * 256 + y
  {
    FromBigOne(x);
    assert [x, y][..1] == [x];
  }

  lemma FromBigThree(x: Byte, y: Byte, z: Byte)
    ensures FromBig([x, y, z]) == (x * 256 + y) * 256 + z
  {
    hide FromBig;
    FromBigTwo(x, y);
    FromBigMore([x, y], z);
    assert [x, y] + [z] == [x, y, z];
  }

  lemma FromBigMore(b: seq<Byte>, z: Byte)
    ensures FromBig(b + [z]) == FromBig(b) * 256 + z
  {
    assert (b + [z])[..|b|] == b;
  }

  lemma DigitsOfThree(x: Byte, y: Byte, z: Byte)
    ensures ((x / 4 * 64 + (x % 4 * 16 + y / 16)) * 64 + (y % 16 * 4 + z / 64)) * 64 + z % 64
         == (x * 256 + y) * 256 + z
    ensures x % 4 * 16 + y / 16 < 64 && y % 16 * 4 + z / 64 < 64 && x / 4 < 64
  {
    assert x == x / 4 * 4 + x % 4 && y == y / 16 * 16 + y % 16 && z == z / 64 * 64 + z % 64;
  }

  lemma {:induction false} EncodeIs(b: seq<Byte>)
    ensures Base64(b, Encode(b))
    decreases |b|
  {
    hide Digit, Spells, FromBig;
    if |b| == 1 {
      EncodesAlone(b);
    } else if |b| == 2 {
      EncodesPair(b);
    } else if |b| > 2 {
      EncodesGroup(b);
      EncodeIs(b[3..]);
    }
  }

  lemma EncodesAlone(b: seq<Byte>)
    requires |b| == 1
    ensures var t := Encode(b); |t| == 4 && Spells(t[..2], FromBig(b) * 16) && t[2..] == "=="
  {
    hide Digit, FromDigits, AllDigits, FromBig;
    var x: int := b[0];
    DigitsOfThree(b[0], 0, 0);
    TwoDigits(x / 4, x % 4 * 16);
    FromBigOne(b[0]);
    assert b == [b[0]] && Encode(b)[..2] == [Digit(x / 4), Digit(x % 4 * 16)];
    assert x / 4 * 64 + x % 4 * 16 == x * 16;
  }

  lemma EncodesPair(b: seq<Byte>)
    requires |b| == 2
    ensures var t := Encode(b); |t| == 4 && Spells(t[..3], FromBig(b) * 4) && t[3..] == "="
  {
    hide Digit, FromDigits, AllDigits, FromBig;
    var x: int, y: int := b[0], b[1];
    DigitsOfThree(b[0], b[1], 0);
    ThreeDigits(x / 4, x % 4 * 16 + y / 16, y % 16 * 4);
    FromBigTwo(b[0], b[1]);
    assert b == [b[0], b[1]];
    assert Encode(b)[..3] == [Digit(x / 4), Digit(x % 4 * 16 + y / 16), Digit(y % 16 * 4)];
    assert (x / 4 * 64 + (x % 4 * 16 + y / 16)) * 64 + y % 16 * 4 == (x * 256 + y) * 4;
  }

  lemma EncodesGroup(b: seq<Byte>)
    requires |b| > 2
    ensures var t := Encode(b); |t| >= 4 && Spells(t[..4], FromBig(b[..3])) && t[4..] == Encode(b[3..])
  {
    hide Digit, FromDigits, AllDigits, FromBig;
    var x, y, z := b[0], b[1], b[2];
    DigitsOfThree(x, y, z);
    FourDigits(x / 4, x % 4 * 16 + y / 16, y % 16 * 4 + z / 64, z % 64);
    FromBigThree(x, y, z);
    assert b[..3] == [x, y, z];
  }

  /** One text only is the base64 of given bytes. */
  lemma {:induction false} Base64Once(b: seq<Byte>, t: string)
    ensures Base64(b, t) <==> t == Encode(b)
    decreases |b|
  {
    hide Spells, FromBig, Encode;
    EncodeIs(b);
    var e := Encode(b);
    if Base64(b, t) {
      if |b| == 1 {
        SpellsOnce(t[..2], e[..2], FromBig(b) * 16);
        assert t == t[..2] + t[2..] && e == e[..2] + e[2..];
      } else if |b| == 2 {
        SpellsOnce(t[..3], e[..3], FromBig(b) * 4);
        assert t == t[..3] + t[3..] && e == e[..3] + e[3..];
      } else if |b| > 2 {
        SpellsOnce(t[..4], e[..4], FromBig(b[..3]));
        EncodesGroup(b);
        Base64Once(b[3..], t[4..]);
        assert t == t[..4] + t[4..] && e == e[..4] + e[4..];
      }
    }
  }

  lemma {:induction false} SpellsOnce(t: string, u: string, x: nat)
    requires |t| == |u| && Spells(t, x) && Spells(u, x)
    ensures t == u
    decreases |t|
  {
    hide ALPHABET;
    if t != "" {
      var n := |t| - 1;
      AlphabetSize();
      SameLastDigit(FromDigits(t[..n]), Place(t[n]), FromDigits(u[..n]), Place(u[n]));
      SpellsOnce(t[..n], u[..n], FromDigits(t[..n]));
      assert t == t[..n] + [t[n]] && u == u[..n] + [u[n]];
    }
  }

  lemma SameLastDigit(x: nat, a: nat, y: nat, b: nat)
    requires a < 64 && b < 64 && x * 64 + a == y * 64 + b
    ensures x == y && a == b
  {
  }

  // ----- reading base64 -----

  /** The characters of the alphabet in a text; all others are passed over. */
  function OnlyDigits(t: string): (d: string)
    decreases |t|
  {
    if t == "" then "" else (if t[0] in ALPHABET then [t[0]] else []) + OnlyDigits(t[1..])
  }

  /** Four digits spell three bytes; of the digits left at the end whole bytes are taken, and
      their lowest bits lost. */
  ghost predicate Reads(d: string, b: seq<Byte>)
    requires AllDigits(d)
    decreases |d|
  {
    if |d| < 2 then b == []
    else if |d| == 2 then |b| == 1 && FromBig(b) == FromDigits(d) / 16
    else if |d| == 3 then |b| == 2 && FromBig(b) == FromDigits(d) / 4
    else |b| >= 3 && FromBig(b[..3]) == FromDigits(d[..4]) && Reads(d[4..], b[3..])
  }

  lemma ValueIs(c: char)
    ensures Value(c) >= 0 <==> c in ALPHABET
    ensures Value(c) >= 0 ==> |ALPHABET| == 64 && c == ALPHABET[Value(c)] && c == Digit(Value(c))
  {
    hide Digit, Value;
    AlphabetIs();
    if Value(c) >= 0 {
      InTable(c);
      ValueDigit(c);
    } else if c in ALPHABET {
      var i :| 0 <= i < |ALPHABET| && ALPHABET[i] == c;
      DigitIs(i);
      DigitValue(i);
    }
  }

  lemma DecodeFirst(t: string, buf: nat, bits: nat)
    requires t != ""
    ensures var v := Value(t[0]); var b := (buf * 64 + v) % TWO32;
            Decode(t, buf, bits) ==
            if v < 0 then Decode(t[1..], buf, bits)
            else if bits == 2 then [b % 256] + Decode(t[1..], b, 0)
            else if bits == 4 then [b / 4 % 256] + Decode(t[1..], b, 2)
            else if bits == 6 then [b / 16 % 256] + Decode(t[1..], b, 4)
            else Decode(t[1..], b, bits + 6)
  {
    hide Value;
  }

  /** Characters outside the alphabet change nothing. */
  lemma {:induction false} DecodeSkips(t: string, buf: nat, bits: nat)
    ensures Decode(t, buf, bits) == Decode(OnlyDigits(t), buf, bits)
    decreases |t|
  {
    hide Value, Decode, ALPHABET;
    if t != "" {
      ValueIs(t[0]);
      var d := OnlyDigits(t);
      DecodeFirst(t, buf, bits);
      if d != "" { DecodeFirst(d, buf, bits); }
      if t[0] in ALPHABET {
        assert d[0] == t[0] && d[1..] == OnlyDigits(t[1..]);
        var buf' := (buf * 64 + Value(t[0])) % TWO32;
        DecodeSkips(t[1..], buf', if bits == 2 then 0 else if bits == 4 then 2 else if bits == 6 then 4 else bits + 6);
      } else {
        assert d == OnlyDigits(t[1..]);
        DecodeSkips(t[1..], buf, bits);
      }
    }
  }

  lemma {:induction false} OnlyDigitsAre(t: string)
    ensures AllDigits(OnlyDigits(t))
    decreases |t|
  {
    if t != "" { OnlyDigitsAre(t[1..]); }
  }

  lemma {:induction false} DecodeReads(d: string, buf: nat)
    requires AllDigits(d)
    ensures Reads(d, Decode(d, buf, 0))
    decreases |d|
  {
    hide Decode, FromDigits, Value, Digit, FromBig, ALPHABET;
    if |d| >= 4 {
      var buf' := ReadsGroup(d, buf);
      DecodeReads(d[4..], buf');
    } else if |d| == 3 {
      ReadsThree(d, buf);
    } else if |d| == 2 {
      ReadsTwo(d, buf);
    } else if |d| == 1 {
      ReadsOne(d, buf);
    } else {
      DecodeNothing(buf);
    }
  }

  lemma ReadsOne(d: string, buf: nat)
    requires |d| == 1 && AllDigits(d)
    ensures Decode(d, buf, 0) == []
  {
    hide Value;
    ValueIs(d[0]);
    assert d[1..] == "";
  }

  lemma ReadsTwo(d: string, buf: nat)
    requires |d| == 2 && AllDigits(d)
    ensures var b := Decode(d, buf, 0);
            |b| == 1 && FromBig(b) == FromDigits(d) / 16
  {
    hide Value, Digit, Decode, FromDigits, FromBig, ALPHABET;
    ValueIs(d[0]);
    ValueIs(d[1]);
    var v, w := Value(d[0]), Value(d[1]);
    var b0 := (buf * 64 + v) % TWO32;
    assert d == [Digit(v)] + ([Digit(w)] + "") == [Digit(v), Digit(w)];
    DecodeDigit(v, [Digit(w)] + "", buf, 0);
    DecodeDigit(w, "", b0, 6);
    DecodeEnd((b0 * 64 + w) % TWO32, 4);
    TwoDigits(v, w);
    var x := (v * 64 + w) / 16;
    assert Decode(d, buf, 0) == [x];
    FromBigOne(x);
  }

  lemma DecodeEnd(buf: nat, bits: nat)
    ensures Decode("", buf, bits) == []
  {
  }

  lemma ReadsThree(d: string, buf: nat)
    requires |d| == 3 && AllDigits(d)
    ensures var b := Decode(d, buf, 0);
            |b| == 2 && FromBig(b) == FromDigits(d) / 4
  {
    hide Value, Digit, Decode, FromDigits, FromBig, ALPHABET;
    ValueIs(d[0]);
    ValueIs(d[1]);
    ValueIs(d[2]);
    var v, w, u := Value(d[0]), Value(d[1]), Value(d[2]);
    var b0 := (buf * 64 + v) % TWO32;
    var b1 := (b0 * 64 + w) % TWO32;
    assert d == [Digit(v)] + ([Digit(w)] + ([Digit(u)] + "")) == [Digit(v), Digit(w), Digit(u)];
    DecodeDigit(v, [Digit(w)] + ([Digit(u)] + ""), buf, 0);
    DecodeDigit(w, [Digit(u)] + "", b0, 6);
    DecodeDigit(u, "", b1, 4);
    DecodeEnd((b1 * 64 + u) % TWO32, 2);
    ThreeDigits(v, w, u);
    var x, y := (v * 64 + w) / 16, (w * 64 + u) % 0x400 / 4;
    assert Decode(d, buf, 0) == [x] + [y] == [x, y];
    FromBigTwo(x, y);
    BytesOfThree(v, w, u);
  }

  lemma BytesOfThree(v: nat, w: nat, u: nat)
    requires v < 64 && w < 64 && u < 64
    ensures (v * 64 + w) * 64 + u == ((v * 64 + w) / 16 * 256 + (w * 64 + u) % 0x400 / 4) * 4 + u % 4
    ensures ((v * 64 + w) * 64 + u) / 4 == (v * 64 + w) / 16 * 256 + (w * 64 + u) % 0x400 / 4
    ensures (v * 64 + w) / 16 < 256
  {
    HighBits(v, w);
    MiddleBits(w, u);
  }

  lemma HighBits(v: nat, w: nat)
    requires v < 64 && w < 64
    ensures (v * 64 + w) / 16 == v * 4 + w / 16
  {
  }

  lemma MiddleBits(w: nat, u: nat)
    requires w < 64 && u < 64
    ensures (w * 64 + u) % 0x400 / 4 == w % 16 * 16 + u / 4
  {
    var r := w % 16 * 64 + u;
    assert w * 64 + u == w / 16 * 0x400 + r && r < 0x400;
    assert (w * 64 + u) % 0x400 == r;
    assert r == (w % 16 * 16 + u / 4) * 4 + u % 4;
  }

  lemma LowBits(u: nat, s: nat)
    requires u < 64 && s < 64
    ensures (u * 64 + s) % 256 == u % 4 * 64 + s
  {
    assert u * 64 + s == u / 4 * 256 + (u % 4 * 64 + s);
  }

  lemma BytesOfFour(v: nat, w: nat, u: nat, s: nat)
    requires v < 64 && w < 64 && u < 64 && s < 64
    ensures ((v * 64 + w) * 64 + u) * 64 + s
         == (((v * 64 + w) / 16) * 256 + (w * 64 + u) % 0x400 / 4) * 256 + (u * 64 + s) % 256
  {
    BytesOfThree(v, w, u);
    LowBits(u, s);
  }

  lemma ReadsGroup(d: string, buf: nat) returns (buf': nat)
    requires |d| >= 4 && AllDigits(d)
    ensures var b := Decode(d, buf, 0);
            |b| >= 3 && FromBig(b[..3]) == FromDigits(d[..4]) && b[3..] == Decode(d[4..], buf', 0)
  {
    hide Value, Digit, Decode, FromDigits, FromBig, ALPHABET;
    ValueIs(d[0]);
    ValueIs(d[1]);
    ValueIs(d[2]);
    ValueIs(d[3]);
    var v, w, u, s := Value(d[0]), Value(d[1]), Value(d[2]), Value(d[3]);
    var e := d[4..];
    buf' := GroupRead(v, w, u, s, e, buf);
    assert d == [Digit(v)] + ([Digit(w)] + ([Digit(u)] + ([Digit(s)] + e)));
    FourDigits(v, w, u, s);
    assert d[..4] == [Digit(v), Digit(w), Digit(u), Digit(s)];
    var x, y, z := (v * 64 + w) / 16, (w * 64 + u) % 0x400 / 4, (u * 64 + s) % 256;
    BytesOfFour(v, w, u, s);
    FromBigThree(x, y, z);
    assert Decode(d, buf, 0)[..3] == [x, y, z];
  }

  lemma GroupRead(v: nat, w: nat, u: nat, s: nat, e: string, buf: nat) returns (buf': nat)
    requires v < 64 && w < 64 && u < 64 && s < 64
    ensures (v * 64 + w) / 16 < 256
    ensures Decode([Digit(v)] + ([Digit(w)] + ([Digit(u)] + ([Digit(s)] + e))), buf, 0)
         == [(v * 64 + w) / 16, (w * 64 + u) % 0x400 / 4, (u * 64 + s) % 256] + Decode(e, buf', 0)
  {
    hide Value, Digit, Decode;
    var r3 := [Digit(s)] + e;
    var r2 := [Digit(u)] + r3;
    var r1 := [Digit(w)] + r2;
    var b0 := (buf * 64 + v) % TWO32;
    var b1 := (b0 * 64 + w) % TWO32;
    var b2 := (b1 * 64 + u) % TWO32;
    buf' := (b2 * 64 + s) % TWO32;
    DecodeDigit(v, r1, buf, 0);
    DecodeDigit(w, r2, b0, 6);
    DecodeDigit(u, r3, b1, 4);
    DecodeDigit(s, e, b2, 2);
  }

  /** llBase64ToString of any text: the digits in it, read four by four. */
  lemma DecodeIs(t: string)
    ensures AllDigits(OnlyDigits(t)) && Reads(OnlyDigits(t), Decode(t, 0, 0))
  {
    hide Decode, Reads, AllDigits;
    DecodeSkips(t, 0, 0);
    OnlyDigitsAre(t);
    DecodeReads(OnlyDigits(t), 0);
  }

  // ----- URLs -----

  /** What llEscapeURL leaves as it is. */
  const PLAIN := CAPITALS + SMALL + TEN + "-_.~"
  const BIG_HEX := "0123456789ABCDEF"
  const SMALL_HEX := "0123456789abcdef"

  lemma Ranges(k: char)
    ensures k in CAPITALS <==> 'A' <= k <= 'Z'
    ensures k in SMALL <==> 'a' <= k <= 'z'
    ensures k in TEN <==> '0' <= k <= '9'
  {
    InRange(CAPITALS, 'A', k);
    InRange(SMALL, 'a', k);
    InRange(TEN, '0', k);
  }

  lemma InRange(s: string, first: char, k: char)
    requires |s| <= 26 && first as int < 100 && forall i :: 0 <= i < |s| ==> s[i] as int == first as int + i
    ensures k in s <==> first as int <= k as int < first as int + |s|
  {
    if first as int <= k as int < first as int + |s| { assert s[k as int - first as int] == k; }
  }

  lemma PlainIs(c: Byte)
    ensures Unreserved(c) <==> c as char in PLAIN
  {
    var k := c as char;
    Ranges(k);
    InParts(k);
  }

  lemma InParts(k: char)
    ensures k in PLAIN <==> k in CAPITALS || k in SMALL || k in TEN || k in "-_.~"
  {
    hide CAPITALS, SMALL, TEN;
  }

  lemma HexIs(v: int)
    requires 0 <= v < 16
    ensures |BIG_HEX| == |SMALL_HEX| == 16 && Hex(v) == BIG_HEX[v] as int
  {
  }

  /** An escaped text is made of plain characters, which stand for themselves, and of groups of
      a percent sign and the two hexadecimal digits, in capitals, of any other byte. */
  predicate Escaped(t: seq<Byte>, e: seq<Byte>)
    decreases |t|
  {
    if t == [] then e == []
    else if t[0] as char in PLAIN then |e| >= 1 && e[0] == t[0] && Escaped(t[1..], e[1..])
    else
      && |e| >= 3 && e[0] as char == '%' && |BIG_HEX| == 16
      && e[1] as char == BIG_HEX[t[0] / 16] && e[2] as char == BIG_HEX[t[0] % 16] && Escaped(t[1..], e[3..])
  }

  lemma EscapesByte(c: Byte)
    ensures EscapeByte(c) ==
            if c as char in PLAIN then [c]
            else ['%' as int, BIG_HEX[c / 16] as int, BIG_HEX[c % 16] as int]
  {
    hide Unreserved, Hex;
    PlainIs(c);
    HexIs(c / 16);
    HexIs(c % 16);
  }

  lemma {:induction false} EscapeIs(t: seq<Byte>, e: seq<Byte>)
    ensures Escaped(t, e) <==> e == Escape(t)
    decreases |t|
  {
    hide EscapeByte, PLAIN, BIG_HEX;
    if t != [] {
      var c := EscapeByte(t[0]);
      HexIs(0);
      EscapesByte(t[0]);
      var n := |c|;
      assert Escape(t)[n..] == Escape(t[1..]) && Escape(t)[..n] == c;
      if |e| >= n {
        EscapeIs(t[1..], e[n..]);
        assert e == e[..n] + e[n..];
      }
    }
  }

  /** A character is the hexadecimal digit v, in either case. */
  predicate IsHex(c: Byte, v: nat) {
    v < 16 && |BIG_HEX| == |SMALL_HEX| == 16 && (c as char == BIG_HEX[v] || c as char == SMALL_HEX[v])
  }

  lemma HexValueIs(c: Byte, v: nat)
    ensures HexValue(c) == v <==> IsHex(c, v)
  {
  }

  predicate AnyHex(c: Byte) { exists v: nat :: v < 16 && IsHex(c, v) }

  /** What llUnescapeURL makes of any text: a percent sign with two hexadecimal digits behind
      it stands for a byte, every other character for itself. */
  predicate Unescaped(t: seq<Byte>, u: seq<Byte>)
    decreases |t|
  {
    if t == [] then u == []
    else
      && u != []
      && if t[0] as char == '%' && |t| >= 3 && AnyHex(t[1]) && AnyHex(t[2])
         then IsHex(t[1], u[0] / 16) && IsHex(t[2], u[0] % 16) && Unescaped(t[3..], u[1..])
         else u[0] == t[0] && Unescaped(t[1..], u[1..])
  }

  lemma {:induction false} UnescapeIs(t: seq<Byte>)
    ensures Unescaped(t, Unescape(t))
    decreases |t|
  {
    hide HexValue, IsHex;
    if t != [] {
      var u := Unescape(t);
      if |t| >= 3 {
        HexValues(t[1]);
        HexValues(t[2]);
      }
      if t[0] == PERCENT && |t| > 2 && HexValue(t[1]) >= 0 && HexValue(t[2]) >= 0 {
        var h, l := HexValue(t[1]), HexValue(t[2]);
        assert u[0] == h * 16 + l && u[0] / 16 == h && u[0] % 16 == l && u[1..] == Unescape(t[3..]);
        UnescapeIs(t[3..]);
      } else {
        assert u[0] == t[0] && u[1..] == Unescape(t[1..]);
        UnescapeIs(t[1..]);
      }
    }
  }

  lemma HexValues(c: Byte)
    ensures forall v: nat :: HexValue(c) == v <==> IsHex(c, v)
    ensures AnyHex(c) <==> HexValue(c) >= 0
  {
    hide HexValue, IsHex;
    if HexValue(c) >= 0 { HexValueIs(c, HexValue(c)); }
    forall v: nat ensures HexValue(c) == v <==> IsHex(c, v) { HexValueIs(c, v); }
  }

  // ----- integers as bytes -----

  lemma FromBigFour(x: Byte, y: Byte, z: Byte, w: Byte)
    ensures FromBig([x, y, z, w]) == ((x * 256 + y) * 256 + z) * 256 + w
  {
    hide FromBig;
    FromBigThree(x, y, z);
    FromBigMore([x, y, z], w);
    assert [x, y, z] + [w] == [x, y, z, w];
  }

  /** The four bytes of llIntegerToBase64 stand for the integer modulo 2^32, high byte first,
      and llBase64ToInteger reads four bytes as the number they stand for. */
  lemma IntegerBytes(v: int, b: seq<Byte>)
    requires |b| == 4
    ensures FromBig(Bytes4(v)) == v % TWO32 && FromBytes(b) == FromBig(b)
  {
    var c := Bytes4(v);
    BytesBack(v);
    FromBigFour(c[0], c[1], c[2], c[3]);
    FromBigFour(b[0], b[1], b[2], b[3]);
    assert b == [b[0], b[1], b[2], b[3]];
  }

  lemma FromLittleFour(s: seq<Byte>)
    requires |s| == 4
    ensures var x: int, y: int, z: int, w: int := s[0], s[1], s[2], s[3];
            FromLittle(s) == x + 0x100 * y + 0x1_0000 * z + 0x100_0000 * w
  {
    assert s[1..][1..] == s[2..] && s[2..][1..] == s[3..] && s[3..][1..] == [];
    assert FromLittle(s[3..]) == s[3];
  }

  /** The words of the byte code are stored low byte first, negative ones in two's complement. */
  lemma ScalarBytes(s: seq<Byte>, x: int)
    requires |s| == 4
    ensures Slbc.Le4(s) == FromLittle(s)
    ensures Slbc.IsI32(x) ==> FromLittle(Slbc.EncI32(x)) == x % TWO32
  {
    FromLittleFour(s);
    if Slbc.IsI32(x) { FromLittleFour(Slbc.EncI32(x)); }
  }

  lemma LongScalarBytes(s: seq<Byte>, x: int)
    requires |s| == 8
    ensures Slbc.Le8(s) == FromLittle(s)
    ensures Slbc.IsI64(x) ==> FromLittle(Slbc.EncI64(x)) == x % TWO64
  {
    FromLittleEight(s);
    if Slbc.IsI64(x) { FromLittleEight(Slbc.EncI64(x)); }
  }

  lemma FromLittleEight(s: seq<Byte>)
    requires |s| == 8
    ensures FromLittle(s) == Slbc.Le8(s)
  {
    hide FromLittle, Slbc.Le4;
    ScalarBytes(s[..4], 0);
    ScalarBytes(s[4..], 0);
    FromLittleConcat(s[..4], s[4..]);
    WordSizes();
    assert s == s[..4] + s[4..];
  }

  lemma {:induction false} FromLittleConcat(a: seq<Byte>, b: seq<Byte>)
    ensures FromLittle(a + b) == FromLittle(a) + Power256(|a|) * FromLittle(b)
    decreases |a|
  {
    if a == [] {
      assert a + b == b;
    } else {
      assert (a + b)[1..] == a[1..] + b;
      FromLittleConcat(a[1..], b);
      OneMore(a[0], FromLittle(a[1..]), Power256(|a| - 1), FromLittle(b));
    }
  }

  lemma OneMore(x: nat, m: nat, p: nat, q: nat)
    ensures x + (m + p * q) * 256 == (x + m * 256) + (256 * p) * q
  {
  }
}
