/** MD5, SHA-1 and HMAC of src/builtins.c, against the words of their standards: what stands
    where in a padded message, which number the length field is, in which order the bytes of
    a word come out. */
module DigestLaws {
  import opened MachineWords
  import opened Values
  import opened OperatorLaws
  import opened BitLaws
  import opened Positional
  import opened Digest

  // ----- byte order -----

  lemma {:induction false} ShiftFirst(x: nat, i: nat)
    ensures Shift8(x, i + 1) == Shift8(x / 256, i)
  {
    if i > 0 { ShiftFirst(x, i - 1); }
  }

  /** The low byte comes last. */
  lemma BigSplit(x: nat, k: nat)
    ensures BigEndian(x, k + 1) == BigEndian(x / 256, k) + [x % 256]
  {
    hide Shift8;
    var b, c := BigEndian(x, k + 1), BigEndian(x / 256, k) + [x % 256];
    forall i | 0 <= i <= k ensures b[i] == c[i] {
      if i < k { ShiftFirst(x, k - 1 - i); } else { NoShift(x); }
    }
  }

  /** The low byte comes first. */
  lemma LittleSplit(x: nat, k: nat)
    ensures LittleEndian(x, k + 1) == [x % 256] + LittleEndian(x / 256, k)
  {
    hide Shift8;
    var b, c := LittleEndian(x, k + 1), [x % 256] + LittleEndian(x / 256, k);
    forall i | 0 <= i <= k ensures b[i] == c[i] {
      if i > 0 { ShiftFirst(x, i - 1); } else { NoShift(x); }
    }
  }

  lemma NoShift(x: nat)
    ensures Shift8(x, 0) == x
  {
  }

  /** BigEndian(x, k) is k bytes that stand for x modulo 256^k, high byte first. */
  lemma {:induction false} BigReads(x: nat, k: nat)
    ensures FromBig(BigEndian(x, k)) == x % Power256(k)
    decreases k
  {
    hide BigEndian;
    if k > 0 {
      BigSplit(x, k - 1);
      var b := BigEndian(x, k);
      assert b[..k - 1] == BigEndian(x / 256, k - 1) && b[k - 1] == x % 256;
      BigReads(x / 256, k - 1);
      LowByte(x, Power256(k - 1));
    }
  }

  /** LittleEndian(x, k) is the same, low byte first. */
  lemma {:induction false} LittleReads(x: nat, k: nat)
    ensures FromLittle(LittleEndian(x, k)) == x % Power256(k)
    decreases k
  {
    hide LittleEndian;
    if k > 0 {
      LittleSplit(x, k - 1);
      var b := LittleEndian(x, k);
      assert b[1..] == LittleEndian(x / 256, k - 1) && b[0] == x % 256;
      LittleReads(x / 256, k - 1);
      LowByte(x, Power256(k - 1));
    }
  }

  /** The bytes of word i of a digest. */
  function WordAt(b: seq<Byte>, i: nat): seq<Byte>
    requires 4 * i + 4 <= |b|
  {
    b[4 * i..4 * i + 4]
  }

  lemma {:induction false} BigWordsRead(s: seq<Word>, i: nat)
    requires i < |s|
    ensures FromBig(WordAt(BigWords(s), i)) == s[i]
    decreases |s|
  {
    hide BigEndian, FromBig;
    var n := |s| - 1;
    if i == n {
      WordSizes();
      BigReads(s[n], 4);
      assert WordAt(BigWords(s), i) == BigEndian(s[n], 4);
    } else {
      BigWordsRead(s[..n], i);
      assert WordAt(BigWords(s), i) == WordAt(BigWords(s[..n]), i);
    }
  }

  lemma {:induction false} LittleWordsRead(s: seq<Word>, i: nat)
    requires i < |s|
    ensures FromLittle(WordAt(LittleWords(s), i)) == s[i]
    decreases |s|
  {
    hide LittleEndian, FromLittle;
    var n := |s| - 1;
    if i == n {
      WordSizes();
      LittleReads(s[n], 4);
      assert WordAt(LittleWords(s), i) == LittleEndian(s[n], 4);
    } else {
      LittleWordsRead(s[..n], i);
      assert WordAt(LittleWords(s), i) == WordAt(LittleWords(s[..n]), i);
    }
  }

  // ----- padding -----

  /** A message, a one bit, and the fewest zero bits that leave the last eight bytes of a block
      to the length. */
  predicate Padded(m: seq<Byte>, p: seq<Byte>) {
    && |m| + 9 <= |p| < |m| + 73 && |p| % 64 == 0
    && p[..|m|] == m && p[|m|] == 0x80
    && forall i :: |m| < i < |p| - 8 ==> p[i] == 0
  }

  function LengthField(p: seq<Byte>): seq<Byte>
    requires |p| >= 8
  {
    p[|p| - 8..]
  }

  lemma PaddedOnce(m: seq<Byte>, p: seq<Byte>, q: seq<Byte>)
    requires Padded(m, p) && Padded(m, q) && LengthField(p) == LengthField(q)
    ensures p == q
  {
    assert |p| == |q|;
    forall i | 0 <= i < |p| ensures p[i] == q[i] {
      if i < |m| {
        assert p[i] == p[..|m|][i] == q[..|m|][i];
      } else if i >= |p| - 8 {
        assert p[i] == LengthField(p)[i - (|p| - 8)] == LengthField(q)[i - (|p| - 8)];
      }
    }
  }

  lemma TailPads(m: seq<Byte>, field: seq<Byte>)
    requires |field| == 8
    ensures Padded(m, m + PadTail(|m|, field)) && LengthField(m + PadTail(|m|, field)) == field
  {
    var t := PadTail(|m|, field);
    PaddingFillsBlocks(|m|, field);
    assert t[|t| - 8..] == field;
    assert (m + t)[|m + t| - 8..] == t[|t| - 8..];
  }

  /** Section 3.2 of RFC 1321: the number of bits modulo 2^64, low byte first. */
  lemma Md5Padding(m: seq<Byte>, p: seq<Byte>)
    ensures Padded(m, Md5Pad(m)) && FromLittle(LengthField(Md5Pad(m))) == 8 * |m| % TWO64
    ensures Padded(m, p) && FromLittle(LengthField(p)) == 8 * |m| % TWO64 ==> p == Md5Pad(m)
  {
    hide LittleEndian, FromLittle, PadTail;
    var field := Md5Length(|m|);
    TailPads(m, field);
    WordSizes();
    LittleReads(|m| * 8 % TWO64, 8);
    if Padded(m, p) && FromLittle(LengthField(p)) == 8 * |m| % TWO64 {
      LittleIsFaithful(LengthField(p), field);
      PaddedOnce(m, p, Md5Pad(m));
    }
  }

  /** Section 5.1.1 of FIPS 180-4: the number of bits, high byte first. */
  lemma Sha1Padding(m: seq<Byte>, p: seq<Byte>)
    requires |m| < TWO61
    ensures Padded(m, Sha1Pad(m)) && FromBig(LengthField(Sha1Pad(m))) == 8 * |m|
    ensures Padded(m, p) && FromBig(LengthField(p)) == 8 * |m| ==> p == Sha1Pad(m)
  {
    hide BigEndian, FromBig, PadTail;
    var field := Sha1Length(|m|);
    TailPads(m, field);
    WordSizes();
    BigReads(|m| * 8, 8);
    if Padded(m, p) && FromBig(LengthField(p)) == 8 * |m| {
      BigIsFaithful(LengthField(p), field);
      PaddedOnce(m, p, Sha1Pad(m));
    }
  }

  // ----- chaining -----

  /** The chaining values s[0], s[1], ... that a block function makes of the blocks of p. */
  predicate Chained<S(==)>(f: (S, seq<Byte>) -> S, p: seq<Byte>, s: seq<S>) {
    && |p| == 64 * (|s| - 1)
    && forall i :: 0 <= i < |s| - 1 ==> s[i + 1] == f(s[i], p[64 * i..64 * i + 64])
  }

  lemma {:induction false} ChainIs<S>(f: (S, seq<Byte>) -> S, p: seq<Byte>, s: seq<S>)
    requires Chained(f, p, s)
    ensures Chain(f, s[0], p) == (s[|s| - 1], [])
    decreases |p|
  {
    if |p| > 0 {
      var t, q := s[1..], p[64..];
      forall i | 0 <= i < |t| - 1 ensures t[i + 1] == f(t[i], q[64 * i..64 * i + 64]) {
        var j := i + 1;
        assert s[j + 1] == f(s[j], p[64 * j..64 * j + 64]);
        assert q[64 * i..64 * i + 64] == p[64 * j..64 * j + 64];
      }
      assert s[0 + 1] == f(s[0], p[64 * 0..64 * 0 + 64]);
      ChainIs(f, q, t);
    } else {
      assert |s| == 1;
    }
  }

  lemma {:induction false} ChainingExists<S>(f: (S, seq<Byte>) -> S, p: seq<Byte>, iv: S) returns (s: seq<S>)
    requires |p| % 64 == 0
    ensures |s| > 0 && s[0] == iv && Chained(f, p, s)
    decreases |p|
  {
    if p == [] {
      s := [iv];
    } else {
      var q := p[64..];
      var t := ChainingExists(f, q, f(iv, p[..64]));
      s := [iv] + t;
      forall i | 0 <= i < |s| - 1 ensures s[i + 1] == f(s[i], p[64 * i..64 * i + 64]) {
        if i > 0 {
          var j := i - 1;
          assert t[j + 1] == f(t[j], q[64 * j..64 * j + 64]);
          assert q[64 * j..64 * j + 64] == p[64 * i..64 * i + 64];
        }
      }
    }
  }

  // ----- digests -----

  /** RFC 1321: the digest of the padded message p is the words of the last chaining value, low
      byte first. */
  lemma Md5Is(f: (Words4, seq<Byte>) -> Words4, m: seq<Byte>, p: seq<Byte>, s: seq<Words4>, i: nat)
    requires Padded(m, p) && FromLittle(LengthField(p)) == 8 * |m| % TWO64
    requires |s| > 0 && Chained(f, p, s) && s[0] == [0x67452301, 0xefcdab89, 0x98badcfe, 0x10325476] && i < 4
    ensures |Md5(f, m)| == 16 && FromLittle(WordAt(Md5(f, m), i)) == s[|s| - 1][i]
  {
    hide FromLittle, LittleWords, Chain, Md5Pad, Chained;
    Md5Padding(m, p);
    ChainIs(f, p, s);
    LittleWordsRead(s[|s| - 1], i);
  }

  /** FIPS 180-4: the digest of the padded message p is the words of the last chaining value,
      high byte first. */
  lemma Sha1Is(f: (Words5, seq<Byte>) -> Words5, m: seq<Byte>, p: seq<Byte>, s: seq<Words5>, i: nat)
    requires |m| < TWO61 && Padded(m, p) && FromBig(LengthField(p)) == 8 * |m|
    requires |s| > 0 && Chained(f, p, s) && i < 5
    requires s[0] == [0x67452301, 0xefcdab89, 0x98badcfe, 0x10325476, 0xc3d2e1f0]
    ensures |Sha1(f, m)| == 20 && FromBig(WordAt(Sha1(f, m), i)) == s[|s| - 1][i]
  {
    hide FromBig, BigWords, Chain, Sha1Pad, Chained;
    Sha1Padding(m, p);
    ChainIs(f, p, s);
    BigWordsRead(s[|s| - 1], i);
  }

  // ----- HMAC -----

  /** Byte by byte and bit by bit, b is a with every bit turned over that x has. */
  ghost predicate Flipped(a: seq<Byte>, b: seq<Byte>, x: Byte) {
    |a| == |b| && forall i, j: nat :: 0 <= i < |a| ==> (Bit(b[i], j) <==> Bit(a[i], j) != Bit(x, j))
  }

  /** Section 2 of RFC 2104: a key of more than a block is hashed, and is filled up with zeros. */
  predicate IsKey(f: (Words5, seq<Byte>) -> Words5, k: seq<Byte>, b: seq<Byte>)
    requires |k| < TWO61
  {
    var short := if |k| > 64 then Sha1(f, k) else k;
    |b| == 64 && short <= b && forall i :: |short| <= i < 64 ==> b[i] == 0
  }

  lemma XorFlips(b: seq<Byte>, x: Byte)
    ensures Flipped(b, XorAll(b, x), x)
  {
    hide Bit, Bits;
    var r := XorAll(b, x);
    forall i, j: nat | 0 <= i < |b| ensures Bit(r[i], j) <==> Bit(b[i], j) != Bit(x, j) {
      BitsBit(OP_XOR, b[i], x, j);
    }
  }

  lemma {:induction false} SameByte(a: Byte, b: Byte)
    requires forall j: nat :: Bit(a, j) <==> Bit(b, j)
    ensures a == b
  {
    assert Pow2(4) == 16 && Pow2(8) == 256;
    BitsFix(a, b, 8);
  }

  lemma FlippedOnce(a: seq<Byte>, b: seq<Byte>, c: seq<Byte>, x: Byte)
    requires Flipped(a, b, x) && Flipped(a, c, x)
    ensures b == c
  {
    hide Bit;
    forall i | 0 <= i < |b| ensures b[i] == c[i] {
      forall j: nat ensures Bit(b[i], j) <==> Bit(c[i], j) {
        assert Bit(b[i], j) <==> Bit(a[i], j) != Bit(x, j);
        assert Bit(c[i], j) <==> Bit(a[i], j) != Bit(x, j);
      }
      SameByte(b[i], c[i]);
    }
  }

  lemma KeyOnce(f: (Words5, seq<Byte>) -> Words5, k: seq<Byte>, b: seq<Byte>)
    requires |k| < TWO61
    ensures IsKey(f, k, KeyBlock(f, k)) && (IsKey(f, k, b) ==> b == KeyBlock(f, k))
  {
    hide Sha1;
    var short := if |k| > 64 then Sha1(f, k) else k;
    if IsKey(f, k, b) { assert b == b[..|short|] + b[|short|..]; }
  }

  /** Section 2 of RFC 2104: the text is hashed behind the key with 0x36 flipped in every byte,
      and that digest behind the key with 0x5c flipped in every byte. */
  lemma HmacIs(f: (Words5, seq<Byte>) -> Words5, k: seq<Byte>, m: seq<Byte>, key: seq<Byte>, ipad: seq<Byte>,
               opad: seq<Byte>)
    requires |k| < TWO61 && |m| + 64 < TWO61
    requires IsKey(f, k, key) && Flipped(key, ipad, 0x36) && Flipped(key, opad, 0x5c)
    ensures |ipad| == |opad| == 64 && |Sha1(f, ipad + m)| == 20
    ensures Hmac(f, k, m) == Sha1(f, opad + Sha1(f, ipad + m))
  {
    hide Flipped, Sha1, KeyBlock;
    KeyOnce(f, k, key);
    FlippedLength(key, ipad, 0x36);
    FlippedLength(key, opad, 0x5c);
    XorFlips(key, 0x36);
    XorFlips(key, 0x5c);
    FlippedOnce(key, ipad, XorAll(key, 0x36), 0x36);
    FlippedOnce(key, opad, XorAll(key, 0x5c), 0x5c);
    DigestLength(f, ipad + m);
  }

  lemma FlippedLength(a: seq<Byte>, b: seq<Byte>, x: Byte)
    requires Flipped(a, b, x)
    ensures |a| == |b|
  {
  }

  lemma DigestLength(f: (Words5, seq<Byte>) -> Words5, m: seq<Byte>)
    requires |m| < TWO61
    ensures |Sha1(f, m)| == 20
  {
    hide Chain, Sha1Pad;
  }
}
