/** Message padding and block chaining of MD5 (RFC 1321) and SHA-1 (FIPS 180-4). The round
    functions of one block are a parameter. */
module Digest {
  import opened MachineWords
  import opened Values

  type Word = x: int | 0 <= x < 0x1_0000_0000

  /** The chaining value: four words for MD5, five for SHA-1. */
  type Words4 = s: seq<Word> | |s| == 4 witness [0, 0, 0, 0]
  type Words5 = s: seq<Word> | |s| == 5 witness [0, 0, 0, 0, 0]

  const MD5_IV: Words4 := [0x67452301, 0xefcdab89, 0x98badcfe, 0x10325476]
  const SHA1_IV: Words5 := [0x67452301, 0xEFCDAB89, 0x98BADCFE, 0x10325476, 0xC3D2E1F0]

  /** Chains all whole blocks of m, and keeps what is left over. */
  function Chain<S>(f: (S, seq<Byte>) -> S, s: S, m: seq<Byte>): (r: (S, seq<Byte>))
    ensures |r.1| == |m| % 64
    decreases |m|
  {
    if |m| < 64 then (s, m) else Chain(f, f(s, m[..64]), m[64..])
  }

  /** Feeding a message in two parts. */
  lemma {:induction false} ChainConcat<S>(f: (S, seq<Byte>) -> S, s: S, a: seq<Byte>, b: seq<Byte>)
    ensures var (s', rest) := Chain(f, s, a); Chain(f, s, a + b) == Chain(f, s', rest + b)
    decreases |a|
  {
    if |a| >= 64 {
      assert (a + b)[..64] == a[..64] && (a + b)[64..] == a[64..] + b;
      ChainConcat(f, f(s, a[..64]), a[64..], b);
    }
  }

  function Zeros(n: nat): (z: seq<Byte>)
    ensures |z| == n
  {
    seq(n, _ => 0)
  }

  /** What padding puts behind a message of n bytes: a one bit, the fewest zero bits that
      leave 64 bits to the end of a block, and the length field. */
  function PadTail(n: nat, field: seq<Byte>): (t: seq<Byte>) {
    [0x80] + Zeros((119 - n % 64) % 64) + field
  }

  /** Padding fills whole blocks, with as few zeros as that takes. */
  lemma PaddingFillsBlocks(n: nat, field: seq<Byte>)
    requires |field| == 8
    ensures (n + |PadTail(n, field)|) % 64 == 0
    ensures 9 <= |PadTail(n, field)| <= 72
  {
  }

  // ----- length fields -----

  /** x >> 8 * i */
  function Shift8(x: nat, i: nat): nat { if i == 0 then x else Shift8(x, i - 1) / 256 }

  function LittleEndian(x: nat, k: nat): (b: seq<Byte>)
    ensures |b| == k
  {
    seq(k, i requires 0 <= i < k => Shift8(x, i) % 256)
  }

  function BigEndian(x: nat, k: nat): (b: seq<Byte>)
    ensures |b| == k
  {
    seq(k, i requires 0 <= i < k => Shift8(x, k - 1 - i) % 256)
  }

  /** The length field of RFC 1321, section 3.2, in bytes: the low 64 bits of the number of
      bits, low byte first. */
  function Md5Length(n: nat): seq<Byte> { LittleEndian(n * 8 % TWO64, 8) }

  /** The length field of FIPS 180-4, section 5.1.1, which is defined below 2^61 bytes. */
  function Sha1Length(n: nat): seq<Byte>
    requires n < TWO61
  {
    BigEndian(n * 8, 8)
  }

  function Md5Pad(m: seq<Byte>): seq<Byte> { m + PadTail(|m|, Md5Length(|m|)) }
  function Sha1Pad(m: seq<Byte>): seq<Byte> requires |m| < TWO61 { m + PadTail(|m|, Sha1Length(|m|)) }

  lemma {:induction false} SmallShiftsOut(x: nat)
    requires x < TWO64
    ensures Shift8(x, 8) == 0
  {
    assert Shift8(x, 1) < 0x100_0000_0000_0000;
    assert Shift8(x, 2) < 0x1_0000_0000_0000;
    assert Shift8(x, 3) < 0x100_0000_0000;
    assert Shift8(x, 4) < 0x1_0000_0000;
    assert Shift8(x, 5) < 0x100_0000;
    assert Shift8(x, 6) < 0x1_0000;
    assert Shift8(x, 7) < 0x100;
  }

  lemma {:induction false} SameBytes(x: nat, y: nat, k: nat)
    requires Shift8(x, k) == Shift8(y, k)
    requires forall i :: 0 <= i < k ==> Shift8(x, i) % 256 == Shift8(y, i) % 256
    ensures x == y
  {
    if k > 0 {
      assert Shift8(x, k - 1) == Shift8(x, k) * 256 + Shift8(x, k - 1) % 256;
      assert Shift8(y, k - 1) == Shift8(y, k) * 256 + Shift8(y, k - 1) % 256;
      SameBytes(x, y, k - 1);
    }
  }

  /** Eight bytes tell numbers below 2^64 apart. */
  lemma {:induction false} FieldIsFaithful(x: nat, y: nat)
    requires x < TWO64 && y < TWO64 && LittleEndian(x, 8) == LittleEndian(y, 8)
    ensures x == y
  {
    SmallShiftsOut(x);
    SmallShiftsOut(y);
    forall i | 0 <= i < 8 ensures Shift8(x, i) % 256 == Shift8(y, i) % 256 {
      assert LittleEndian(x, 8)[i] == LittleEndian(y, 8)[i];
    }
    SameBytes(x, y, 8);
  }

  /** A 32-bit byte count gives the length field of the standard just for messages of less
      than 2^32 bytes, counted modulo 2^61. */
  lemma {:induction false} NarrowCount(n: nat)
    ensures LittleEndian(n % TWO32 * 8, 8) == Md5Length(n) <==> n % TWO61 < TWO32
  {
    assert n * 8 % TWO64 == n % TWO61 * 8;
    assert n % TWO61 % TWO32 == n % TWO32 by { assert TWO61 == TWO32 * 0x2000_0000; Mod(n); }
    if LittleEndian(n % TWO32 * 8, 8) == Md5Length(n) { FieldIsFaithful(n % TWO32 * 8, n * 8 % TWO64); }
  }

  lemma Mod(n: nat)
    ensures n % TWO61 % TWO32 == n % TWO32
  {
    var q, r := n / TWO61, n % TWO61;
    assert n == q * TWO61 + r == (q * 0x2000_0000) * TWO32 + r;
  }

  // ----- digests -----

  function LittleWords(s: seq<Word>): (b: seq<Byte>)
    ensures |b| == 4 * |s|
  {
    if s == [] then [] else LittleWords(s[..|s| - 1]) + LittleEndian(s[|s| - 1], 4)
  }

  function BigWords(s: seq<Word>): (b: seq<Byte>)
    ensures |b| == 4 * |s|
  {
    if s == [] then [] else BigWords(s[..|s| - 1]) + BigEndian(s[|s| - 1], 4)
  }

  /** RFC 1321 of a message. */
  function Md5(f: (Words4, seq<Byte>) -> Words4, m: seq<Byte>): seq<Byte> {
    LittleWords(Chain(f, MD5_IV, Md5Pad(m)).0)
  }

  /** FIPS 180-4 of a message. */
  function Sha1(f: (Words5, seq<Byte>) -> Words5, m: seq<Byte>): seq<Byte>
    requires |m| < TWO61
  {
    BigWords(Chain(f, SHA1_IV, Sha1Pad(m)).0)
  }

  // ----- buffers -----

  /** Zeroes a buffer from one index to another. */
  method ZeroFill(buf: array<Byte>, from: nat, to: nat)
    requires from <= to <= buf.Length
    modifies buf
    ensures buf[..to] == old(buf[..from]) + Zeros(to - from) && buf[to..] == old(buf[to..])
  {
    var i := from;
    while i < to
      invariant from <= i <= to
      invariant buf[..i] == old(buf[..from]) + Zeros(i - from)
      invariant forall k :: to <= k < buf.Length ==> buf[k] == old(buf[k])
    {
      buf[i] := 0;
      assert buf[..i + 1] == buf[..i] + [0];
      i := i + 1;
    }
  }

  /** memcpy */
  method Copy(buf: array<Byte>, at: nat, data: seq<Byte>)
    requires at + |data| <= buf.Length
    modifies buf
    ensures buf[..at + |data|] == old(buf[..at]) + data
    ensures buf[at + |data|..] == old(buf[at + |data|..])
  {
    var i := 0;
    while i < |data|
      invariant 0 <= i <= |data|
      invariant buf[..at + i] == old(buf[..at]) + data[..i]
      invariant forall k :: at + |data| <= k < buf.Length ==> buf[k] == old(buf[k])
    {
      buf[at + i] := data[i];
      assert buf[..at + i + 1] == buf[..at + i] + [data[i]];
      i := i + 1;
    }
    assert data[..|data|] == data;
  }

  /** A block ended by its padding: one block when eight bytes are left for the length field
      behind the marker, two otherwise. */
  lemma {:induction false} PaddedChain<S>(f: (S, seq<Byte>) -> S, s: S, rest: seq<Byte>, n: nat, field: seq<Byte>)
    requires |rest| == n % 64 && |field| == 8
    ensures var u := |rest|;
            Chain(f, s, rest + PadTail(n, field)) ==
            if u < 56 then (f(s, rest + [0x80] + Zeros(55 - u) + field), [])
            else (f(f(s, rest + [0x80] + Zeros(63 - u)), Zeros(56) + field), [])
  {
    var u := |rest|;
    var m := rest + PadTail(n, field);
    if u < 56 {
      assert m == rest + [0x80] + Zeros(55 - u) + field;
      assert m[..64] == m && m[64..] == [];
    } else {
      assert Zeros(119 - u) == Zeros(63 - u) + Zeros(56);
      assert m == (rest + [0x80] + Zeros(63 - u)) + (Zeros(56) + field);
      var b := Zeros(56) + field;
      assert m[..64] == rest + [0x80] + Zeros(63 - u) && m[64..] == b;
      assert b[..64] == b && b[64..] == [];
      var s1 := f(s, rest + [0x80] + Zeros(63 - u));
      assert Chain(f, s, m) == Chain(f, s1, b) == Chain(f, f(s1, b), []);
    }
  }

  /** The last one or two blocks of a padded message. */
  function Ended<S>(f: (S, seq<Byte>) -> S, s: S, rest: seq<Byte>, field: seq<Byte>): S {
    var u := |rest|;
    if u < 56 then f(s, rest + [0x80] + Zeros(55 - u) + field)
    else if u < 64 then f(f(s, rest + [0x80] + Zeros(63 - u)), Zeros(56) + field)
    else s
  }

  lemma {:induction false} PaddedMessage<S>(f: (S, seq<Byte>) -> S, iv: S, m: seq<Byte>, field: seq<Byte>)
    requires |field| == 8
    ensures var (s, rest) := Chain(f, iv, m);
            Chain(f, iv, m + PadTail(|m|, field)) == (Ended(f, s, rest, field), [])
  {
    var (s, rest) := Chain(f, iv, m);
    PaddingFillsBlocks(|m|, field);
    ChainConcat(f, iv, m, PadTail(|m|, field));
    PaddedChain(f, s, rest, |m|, field);
  }

  /** A number's k low bytes, low byte first. */
  method PutLittle(buf: array<Byte>, at: nat, x: nat, k: nat)
    requires at + k <= buf.Length
    modifies buf
    ensures buf[..at + k] == old(buf[..at]) + LittleEndian(x, k)
    ensures buf[at + k..] == old(buf[at + k..])
  {
    var i := 0;
    while i < k
      invariant 0 <= i <= k
      invariant buf[..at + i] == old(buf[..at]) + LittleEndian(x, k)[..i]
      invariant forall j :: at + k <= j < buf.Length ==> buf[j] == old(buf[j])
    {
      buf[at + i] := Shift8(x, i) % 256;
      assert buf[..at + i + 1] == buf[..at + i] + [LittleEndian(x, k)[i]];
      i := i + 1;
    }
  }

  /** A number's k low bytes, high byte first. */
  method PutBig(buf: array<Byte>, at: nat, x: nat, k: nat)
    requires at + k <= buf.Length
    modifies buf
    ensures buf[..at + k] == old(buf[..at]) + BigEndian(x, k)
    ensures buf[at + k..] == old(buf[at + k..])
  {
    var i := 0;
    while i < k
      invariant 0 <= i <= k
      invariant buf[..at + i] == old(buf[..at]) + BigEndian(x, k)[..i]
      invariant forall j :: at + k <= j < buf.Length ==> buf[j] == old(buf[j])
    {
      buf[at + i] := Shift8(x, k - 1 - i) % 256;
      assert buf[..at + i + 1] == buf[..at + i] + [BigEndian(x, k)[i]];
      i := i + 1;
    }
  }

  /** Words, each low byte first. */
  method WriteLittle(s: seq<Word>) returns (out: array<Byte>)
    ensures fresh(out) && out[..] == LittleWords(s)
  {
    out := new Byte[4 * |s|];
    for i := 0 to |s|
      invariant out[..i * 4] == LittleWords(s[..i])
    {
      PutLittle(out, i * 4, s[i], 4);
      assert s[..i + 1][..i] == s[..i];
    }
    assert out[..] == out[..4 * |s|] && s[..|s|] == s;
  }

  /** Words, each high byte first. */
  method WriteBig(s: seq<Word>) returns (out: array<Byte>)
    ensures fresh(out) && out[..] == BigWords(s)
  {
    out := new Byte[4 * |s|];
    for i := 0 to |s|
      invariant out[..i * 4] == BigWords(s[..i])
    {
      PutBig(out, i * 4, s[i], 4);
      assert s[..i + 1][..i] == s[..i];
    }
    assert out[..] == out[..4 * |s|] && s[..|s|] == s;
  }

  /** The start of md5_final and sha1_final: the marker behind the `used` bytes waiting in
      the buffer, and zeros up to the place of the length field; by way of another block
      when the marker leaves less than eight bytes. */
  method Mark<S>(f: (S, seq<Byte>) -> S, s: S, buf: array<Byte>, used: nat) returns (s': S)
    requires buf.Length == 64 && used < 64
    modifies buf
    ensures var rest := old(buf[..used]);
            if used < 56 then s' == s && buf[..56] == rest + [0x80] + Zeros(55 - used)
            else s' == f(s, rest + [0x80] + Zeros(63 - used)) && buf[..56] == Zeros(56)
  {
    s' := s;
    ghost var rest := buf[..used];
    var u := used;
    buf[u] := 0x80;
    u := u + 1;
    assert buf[..u] == rest + [0x80];
    if u > 56 {
      ZeroFill(buf, u, 64);
      assert buf[..] == buf[..64];
      s' := f(s, buf[..]);
      u := 0;
      assert buf[..0] == [];
    }
    ZeroFill(buf, u, 56);
  }

  /** The loop of md5_update and sha1_update: fills the buffer, compressing it whenever it
      is full. */
  method Absorb<S>(f: (S, seq<Byte>) -> S, s: S, buf: array<Byte>, start: nat, data: seq<Byte>) returns (s': S)
    requires buf.Length == 64 && start < 64
    modifies buf
    ensures Chain(f, s, old(buf[..start]) + data) == (s', buf[..(start + |data|) % 64])
  {
    hide Chain;
    s' := s;
    var used, p := start, 0;
    assert data[0..] == data;
    while p < |data|
      invariant 0 <= p <= |data| && 0 <= used < 64 && used == (start + p) % 64
      invariant Chain(f, s, old(buf[..start]) + data) == Chain(f, s', buf[..used] + data[p..])
    {
      var take := 64 - used;
      if take > |data| - p { take := |data| - p; }
      Advance(start, p, used, take);
      TakeFrom(buf[..used], data, p, take);
      Copy(buf, used, data[p..p + take]);
      used, p := used + take, p + take;
      if used == 64 {
        assert buf[..] == buf[..64];
        ChainStep(f, s', buf[..], data[p..]);
        s' := f(s', buf[..]);
        used := 0;
        assert buf[..0] + data[p..] == data[p..];
      }
    }
    assert buf[..used] + data[p..] == buf[..used];
    ChainShort(f, s', buf[..used]);
  }

  /** How far a chunk fills the block. */
  lemma {:induction false} Advance(start: nat, p: nat, used: nat, take: nat)
    requires used == (start + p) % 64 && used + take <= 64
    ensures (start + (p + take)) % 64 == if used + take == 64 then 0 else used + take
  {
    assert start + p + take == (start + p) / 64 * 64 + (used + take);
  }

  lemma {:induction false} TakeFrom<T>(head: seq<T>, data: seq<T>, p: nat, take: nat)
    requires p + take <= |data|
    ensures head + data[p..] == head + data[p..p + take] + data[p + take..]
  {
  }

  lemma {:induction false} ChainStep<S>(f: (S, seq<Byte>) -> S, s: S, block: seq<Byte>, rest: seq<Byte>)
    requires |block| == 64
    ensures Chain(f, s, block + rest) == Chain(f, f(s, block), rest)
  {
    assert (block + rest)[..64] == block && (block + rest)[64..] == rest;
  }

  lemma {:induction false} ChainShort<S>(f: (S, seq<Byte>) -> S, s: S, m: seq<Byte>)
    requires |m| < 64
    ensures Chain(f, s, m) == (s, m)
  {
  }

  // ----- MD5 -----

  /** A count kept modulo 2^32 still gives the buffer index. */
  lemma {:induction false} Counts(n: nat, k: nat)
    ensures n % TWO32 % 64 == n % 64 && (n + k) % 64 == (n % 64 + k) % 64
    ensures (n % TWO32 + k % TWO32) % TWO32 == (n + k) % TWO32
  {
    assert n == n / TWO32 * TWO32 + n % TWO32 && TWO32 == 64 * 0x400_0000;
  }

  class MD5 {
    const f: (Words4, seq<Byte>) -> Words4
    var s: Words4
    var lo: nat
    const buf: array<Byte>
    ghost var fed: seq<Byte>

    ghost predicate Valid()
      reads this, buf
    {
      && buf.Length == 64 && lo == |fed| % TWO32
      && Chain(f, MD5_IV, fed) == (s, buf[..|fed| % 64])
    }

    /** md5_init */
    constructor (f: (Words4, seq<Byte>) -> Words4)
      ensures Valid() && fresh(buf) && fed == [] && this.f == f
    {
      this.f := f;
      s, lo, fed := MD5_IV, 0, [];
      buf := new Byte[64];
      new;
      assert buf[..0] == [];
    }

    /** md5_update: the buffer index is read off the low bits of the count. */
    method Update(data: seq<Byte>)
      requires Valid()
      modifies this, buf
      ensures Valid() && fed == old(fed) + data
    {
      hide Chain;
      Counts(|fed|, |data|);
      ChainConcat(f, MD5_IV, fed, data);
      s := Absorb(f, s, buf, lo % 64, data);
      lo := (lo + |data| % TWO32) % TWO32;
      fed := fed + data;
    }

    /** md5_final: padding with a length field that counts only 32 bits of bytes. */
    method Final() returns (out: array<Byte>)
      requires Valid()
      modifies this, buf
      ensures fresh(out) && fed == old(fed)
      ensures var m := old(fed);
              out[..] == LittleWords(Chain(f, MD5_IV, m + PadTail(|m|, LittleEndian(|m| % TWO32 * 8, 8))).0)
      ensures |old(fed)| % TWO61 < TWO32 ==> out[..] == Md5(f, old(fed))
    {
      hide Chain, LittleEndian, PadTail, Shift8, Zeros, LittleWords;
      ghost var field := LittleEndian(lo * 8, 8);
      Counts(|fed|, 0);
      PaddedMessage(f, MD5_IV, fed, field);
      NarrowCount(|fed|);
      s := Mark(f, s, buf, lo % 64);
      PutLittle(buf, 56, lo * 8, 8);
      assert buf[..] == buf[..64];
      s := f(s, buf[..]);
      out := WriteLittle(s);
    }
  }

  // ----- SHA-1 -----

  lemma {:induction false} BitCounts(n: nat, k: nat)
    ensures (n % 64 + k) % 64 == (n + k) % 64
    ensures (n * 8 % TWO64 + k * 8 % TWO64) % TWO64 == (n + k) * 8 % TWO64
  {
    SumModulo(n * 8, k * 8);
    InBlock(n, k);
  }

  lemma {:induction false} InBlock(n: nat, k: nat)
    ensures (n % 64 + k) % 64 == (n + k) % 64
  {
    assert n + k == n / 64 * 64 + (n % 64 + k);
  }

  lemma {:induction false} SumModulo(x: nat, y: nat)
    ensures (x % TWO64 + y % TWO64) % TWO64 == (x + y) % TWO64
  {
  }

  class SHA1 {
    const f: (Words5, seq<Byte>) -> Words5
    var s: Words5
    var bits: nat
    const buf: array<Byte>
    var used: nat
    ghost var fed: seq<Byte>

    ghost predicate Valid()
      reads this, buf
    {
      && buf.Length == 64 && bits == |fed| * 8 % TWO64 && used == |fed| % 64
      && Chain(f, SHA1_IV, fed) == (s, buf[..used])
    }

    /** sha1_init */
    constructor (f: (Words5, seq<Byte>) -> Words5)
      ensures Valid() && fresh(buf) && fed == [] && this.f == f
    {
      this.f := f;
      s, bits, used, fed := SHA1_IV, 0, 0, [];
      buf := new Byte[64];
      new;
      assert buf[..0] == [];
    }

    /** sha1_update */
    method Update(data: seq<Byte>)
      requires Valid()
      modifies this, buf
      ensures Valid() && fed == old(fed) + data
    {
      hide Chain;
      BitCounts(|fed|, |data|);
      ChainConcat(f, SHA1_IV, fed, data);
      s := Absorb(f, s, buf, used, data);
      bits := (bits + |data| * 8 % TWO64) % TWO64;
      used := (used + |data|) % 64;
      fed := fed + data;
    }

    /** sha1_final */
    method Final() returns (out: array<Byte>)
      requires Valid()
      modifies this, buf
      ensures fresh(out) && fed == old(fed) && out.Length == 20
      ensures |old(fed)| < TWO61 ==> out[..] == Sha1(f, old(fed))
    {
      hide Chain, BigEndian, PadTail, Shift8, Zeros, BigWords;
      ghost var field := BigEndian(bits, 8);
      PaddedMessage(f, SHA1_IV, fed, field);
      s := Mark(f, s, buf, used);
      PutBig(buf, 56, bits, 8);
      assert buf[..] == buf[..64];
      s := f(s, buf[..]);
      out := WriteBig(s);
    }
  }

  // ----- whole messages -----

  function Joined(chunks: seq<seq<Byte>>): seq<Byte> {
    if chunks == [] then [] else Joined(chunks[..|chunks| - 1]) + chunks[|chunks| - 1]
  }

  /** Chunks joined are all their bytes, one behind the other. */
  lemma {:induction false} JoinedIs(a: seq<seq<Byte>>, b: seq<seq<Byte>>, c: seq<Byte>)
    ensures Joined([c]) == c && Joined(a + b) == Joined(a) + Joined(b)
    decreases |b|
  {
    assert [c][..0] == [] && Joined([]) == [];
    if b == [] {
      assert a + b == a;
    } else {
      var n := |b| - 1;
      assert (a + b)[..|a| + n] == a + b[..n] && (a + b)[|a| + n] == b[n];
      JoinedIs(a, b[..n], c);
    }
  }

  /** MD5 of a message fed in any chunks. */
  method Md5Of(f: (Words4, seq<Byte>) -> Words4, chunks: seq<seq<Byte>>) returns (out: array<Byte>)
    ensures |Joined(chunks)| % TWO61 < TWO32 ==> out[..] == Md5(f, Joined(chunks))
  {
    var c := new MD5(f);
    for i := 0 to |chunks|
      invariant c.Valid() && c.fed == Joined(chunks[..i]) && c.f == f
    {
      assert chunks[..i + 1][..i] == chunks[..i];
      c.Update(chunks[i]);
    }
    assert chunks[..|chunks|] == chunks;
    out := c.Final();
  }

  /** SHA-1 of a message fed in any chunks. */
  method Sha1Of(f: (Words5, seq<Byte>) -> Words5, chunks: seq<seq<Byte>>) returns (out: array<Byte>)
    ensures |Joined(chunks)| < TWO61 ==> out[..] == Sha1(f, Joined(chunks))
  {
    var c := new SHA1(f);
    for i := 0 to |chunks|
      invariant c.Valid() && c.fed == Joined(chunks[..i]) && c.f == f
    {
      assert chunks[..i + 1][..i] == chunks[..i];
      c.Update(chunks[i]);
    }
    assert chunks[..|chunks|] == chunks;
    out := c.Final();
  }

  // ----- HMAC -----

  function Xor(a: Byte, b: Byte): Byte {
    XorIsByte(a, b);
    Bits(OP_XOR, a, b)
  }

  lemma XorIsByte(a: Byte, b: Byte)
    ensures Bits(OP_XOR, a, b) < 256
  {
    assert Pow2(4) == 16 && Pow2(8) == 256;
    BitsBound(OP_XOR, a, b, 8);
  }

  /** RFC 2104, section 2: the key as a block, hashed first when it is longer than one. */
  function KeyBlock(f: (Words5, seq<Byte>) -> Words5, k: seq<Byte>): (b: seq<Byte>)
    requires |k| < TWO61
    ensures |b| == 64
  {
    var short := if |k| > 64 then Sha1(f, k) else k;
    short + Zeros(64 - |short|)
  }

  function XorAll(b: seq<Byte>, x: Byte): (r: seq<Byte>)
    ensures |r| == |b|
  {
    seq(|b|, i requires 0 <= i < |b| => Xor(b[i], x))
  }

  /** RFC 2104, section 2: H(K ^ opad, H(K ^ ipad, text)). */
  function Hmac(f: (Words5, seq<Byte>) -> Words5, k: seq<Byte>, m: seq<Byte>): seq<Byte>
    requires |k| < TWO61 && |m| + 64 < TWO61
  {
    var key := KeyBlock(f, k);
    var inner := Sha1(f, XorAll(key, 0x36) + m);
    Sha1(f, XorAll(key, 0x5C) + inner)
  }

  /** The padded key of llHMAC. */
  method HmacKey(f: (Words5, seq<Byte>) -> Words5, k: seq<Byte>) returns (key: array<Byte>)
    requires |k| < TWO61
    ensures fresh(key) && key[..] == KeyBlock(f, k)
  {
    key := new Byte[64];
    var n := |k|;
    if |k| > 64 {
      var c := new SHA1(f);
      c.Update(k);
      assert [] + k == k;
      var d := c.Final();
      n := 20;
      Copy(key, 0, d[..]);
    } else {
      Copy(key, 0, k);
    }
    ghost var short := key[..n];
    assert short == if |k| > 64 then Sha1(f, k) else k;
    ZeroFill(key, n, 64);
    assert key[..] == key[..64];
  }

  /** The inner and outer pad. */
  method XorPads(key: array<Byte>) returns (ipad: array<Byte>, opad: array<Byte>)
    requires key.Length == 64
    ensures fresh(ipad) && fresh(opad)
    ensures ipad[..] == XorAll(key[..], 0x36) && opad[..] == XorAll(key[..], 0x5C)
  {
    hide Xor;
    ipad, opad := new Byte[64], new Byte[64];
    for i := 0 to 64
      invariant forall k :: 0 <= k < i ==> ipad[k] == Xor(key[k], 0x36) && opad[k] == Xor(key[k], 0x5C)
    {
      ipad[i], opad[i] := Xor(key[i], 0x36), Xor(key[i], 0x5C);
    }
  }

  /** llHMAC, before the digest is shown in hexadecimal. */
  method HmacOf(f: (Words5, seq<Byte>) -> Words5, k: seq<Byte>, m: seq<Byte>) returns (out: array<Byte>)
    requires |k| < TWO61 && |m| + 64 < TWO61
    ensures out[..] == Hmac(f, k, m)
  {
    hide KeyBlock, XorAll, Sha1, Chain, Zeros;
    var key := HmacKey(f, k);
    var ipad, opad := XorPads(key);
    var c := new SHA1(f);
    c.Update(ipad[..]);
    c.Update(m);
    assert [] + ipad[..] == ipad[..];
    var inner := c.Final();
    var o := new SHA1(f);
    o.Update(opad[..]);
    o.Update(inner[..]);
    assert [] + opad[..] == opad[..];
    out := o.Final();
  }
}
