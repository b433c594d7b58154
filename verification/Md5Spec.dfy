/**
 The MD5 message-digest algorithm as sections 3.1 to 3.5 of RFC 1321 define it.

 The word operations are a parameter, `Ops`: everything about steps, blocks and
 padding holds for any choice of them, and `MD5_OPS` is the choice of section 3.4.
 */
module Md5Spec {
  import opened Basics
  import opened Codec

  type Word = bv32

  datatype State = State(a: Word, b: Word, c: Word, d: Word)

  datatype Ops = Ops(
    f: (Word, Word, Word) -> Word,
    g: (Word, Word, Word) -> Word,
    h: (Word, Word, Word) -> Word,
    i: (Word, Word, Word) -> Word,
    rotate: (Word, nat) -> Word,
    add: (Word, Word) -> Word)

  function RotateLeft(x: Word, n: nat): Word {
    if n <= 32 then (x << n) | (x >> (32 - n)) else x
  }

  const MD5_OPS: Ops := Ops(
    (x, y, z) => (x & y) | (!x & z),
    (x, y, z) => (x & z) | (y & !z),
    (x, y, z) => x ^ y ^ z,
    (x, y, z) => y ^ (x | !z),
    (x: Word, n: nat) => RotateLeft(x, n),
    (x, y) => x + y)

  /** Section 3.3. */
  const INIT: State := State(0x67452301, 0xefcdab89, 0x98badcfe, 0x10325476)

  // ---- section 3.4

  function T1(i: nat): Word {
    match i
    case 0 => 0xd76aa478
    case 1 => 0xe8c7b756
    case 2 => 0x242070db
    case 3 => 0xc1bdceee
    case 4 => 0xf57c0faf
    case 5 => 0x4787c62a
    case 6 => 0xa8304613
    case 7 => 0xfd469501
    case 8 => 0x698098d8
    case 9 => 0x8b44f7af
    case 10 => 0xffff5bb1
    case 11 => 0x895cd7be
    case 12 => 0x6b901122
    case 13 => 0xfd987193
    case 14 => 0xa679438e
    case _ => 0x49b40821
  }

  function T2(i: nat): Word {
    match i
    case 0 => 0xf61e2562
    case 1 => 0xc040b340
    case 2 => 0x265e5a51
    case 3 => 0xe9b6c7aa
    case 4 => 0xd62f105d
    case 5 => 0x02441453
    case 6 => 0xd8a1e681
    case 7 => 0xe7d3fbc8
    case 8 => 0x21e1cde6
    case 9 => 0xc33707d6
    case 10 => 0xf4d50d87
    case 11 => 0x455a14ed
    case 12 => 0xa9e3e905
    case 13 => 0xfcefa3f8
    case 14 => 0x676f02d9
    case _ => 0x8d2a4c8a
  }

  function T3(i: nat): Word {
    match i
    case 0 => 0xfffa3942
    case 1 => 0x8771f681
    case 2 => 0x6d9d6122
    case 3 => 0xfde5380c
    case 4 => 0xa4beea44
    case 5 => 0x4bdecfa9
    case 6 => 0xf6bb4b60
    case 7 => 0xbebfbc70
    case 8 => 0x289b7ec6
    case 9 => 0xeaa127fa
    case 10 => 0xd4ef3085
    case 11 => 0x04881d05
    case 12 => 0xd9d4d039
    case 13 => 0xe6db99e5
    case 14 => 0x1fa27cf8
    case _ => 0xc4ac5665
  }

  function T4(i: nat): Word {
    match i
    case 0 => 0xf4292244
    case 1 => 0x432aff97
    case 2 => 0xab9423a7
    case 3 => 0xfc93a039
    case 4 => 0x655b59c3
    case 5 => 0x8f0ccc92
    case 6 => 0xffeff47d
    case 7 => 0x85845dd1
    case 8 => 0x6fa87e4f
    case 9 => 0xfe2ce6e0
    case 10 => 0xa3014314
    case 11 => 0x4e0811a1
    case 12 => 0xf7537e82
    case 13 => 0xbd3af235
    case 14 => 0x2ad7d2bb
    case _ => 0xeb86d391
  }

  /** T(i) is the integer part of 4294967296 times abs(sin(i + 1)), i + 1 in radians. */
  function T(i: nat): Word
    requires i < 64
  {
    if i < 16 then T1(i) else if i < 32 then T2(i - 16) else if i < 48 then T3(i - 32) else T4(i - 48)
  }

  function Shift1(j: nat): nat {
    var r := j % 4;
    if r == 0 then 7 else if r == 1 then 12 else if r == 2 then 17 else 22
  }

  function Shift2(j: nat): nat {
    var r := j % 4;
    if r == 0 then 5 else if r == 1 then 9 else if r == 2 then 14 else 20
  }

  function Shift3(j: nat): nat {
    var r := j % 4;
    if r == 0 then 4 else if r == 1 then 11 else if r == 2 then 16 else 23
  }

  function Shift4(j: nat): nat {
    var r := j % 4;
    if r == 0 then 6 else if r == 1 then 10 else if r == 2 then 15 else 21
  }

  /** The rotation of step i. */
  function Shift(i: nat): nat
    requires i < 64
  {
    if i < 16 then Shift1(i) else if i < 32 then Shift2(i - 16) else if i < 48 then Shift3(i - 32) else Shift4(i - 48)
  }

  function Index2(j: nat): nat { (1 + 5 * j) % 16 }

  function Index3(j: nat): nat { (5 + 3 * j) % 16 }

  function Index4(j: nat): nat { 7 * j % 16 }

  /** The word of the block that step i uses. */
  function Index(i: nat): (k: nat)
    requires i < 64
    ensures k < 16
  {
    if i < 16 then i else if i < 32 then Index2(i - 16) else if i < 48 then Index3(i - 32) else Index4(i - 48)
  }

  function Mix(o: Ops, i: nat, x: Word, y: Word, z: Word): Word {
    if i < 16 then o.f(x, y, z)
    else if i < 32 then o.g(x, y, z)
    else if i < 48 then o.h(x, y, z)
    else o.i(x, y, z)
  }

  /** The register update of one step, up to the order of the sum: b + ((a + mix + x + t) <<< s). */
  function Turn(o: Ops, a: Word, b: Word, mix: Word, x: Word, s: nat, t: Word): Word {
    o.add(o.rotate(o.add(a, o.add(o.add(mix, x), t)), s), b)
  }

  /** Step i updates one register from the other three; the registers then change roles. */
  function Step(o: Ops, i: nat, s: State, x: seq<Word>): State
    requires i < 64 && |x| == 16
  {
    State(s.d, Turn(o, s.a, s.b, Mix(o, i, s.b, s.c, s.d), x[Index(i)], Shift(i), T(i)), s.b, s.c)
  }

  function Steps(o: Ops, s: State, x: seq<Word>, n: nat): State
    requires n <= 64 && |x| == 16
  {
    if n == 0 then s else Step(o, n - 1, Steps(o, s, x, n - 1), x)
  }

  /** The sixteen words of a block, low-order byte first. */
  function Words(block: Bytes): (x: seq<Word>)
    requires |block| == 64
    ensures |x| == 16
  {
    seq(16, j requires 0 <= j < 16 => WordAt(block[4 * j..4 * j + 4]))
  }

  function WordAt(b: Bytes): Word
    requires |b| == 4
  {
    assert Pow256(4) == 0x1_0000_0000;
    DecodeNum(b) as Word
  }

  function Sum(o: Ops, s: State, r: State): State {
    State(o.add(s.a, r.a), o.add(s.b, r.b), o.add(s.c, r.c), o.add(s.d, r.d))
  }

  /** Four rounds of sixteen steps, added to the registers they started from. */
  function Compress(o: Ops, s: State, block: Bytes): State
    requires |block| == 64
  {
    var x := Words(block);
    Sum(o, s, Steps(o, s, x, 4 * |x|))
  }

  /** A block function: what one block does to the registers. */
  type BlockFn = (State, Bytes) -> State

  function CompressFn(o: Ops): BlockFn {
    (s, block) => if |block| == 64 then Compress(o, s, block) else s
  }

  /** All whole blocks of the data in turn; a last part of less than 64 bytes is not used. */
  function Absorb(f: BlockFn, s: State, data: Bytes): State
    decreases |data|
  {
    if |data| < 64 then s else Absorb(f, f(s, data[..64]), data[64..])
  }

  lemma {:induction false} AbsorbAppend(f: BlockFn, s: State, a: Bytes, b: Bytes)
    requires |a| % 64 == 0
    ensures Absorb(f, s, a + b) == Absorb(f, Absorb(f, s, a), b)
    decreases |a|
  {
    if |a| == 0 {
      assert a + b == b;
    } else {
      assert (a + b)[..64] == a[..64] && (a + b)[64..] == a[64..] + b;
      AbsorbAppend(f, f(s, a[..64]), a[64..], b);
    }
  }

  // ---- sections 3.1, 3.2 and 3.5

  /** Length of the padding of an n-byte message: at least one byte, up to 56 modulo 64. */
  function PadLen(n: nat): (k: nat)
    ensures 1 <= k <= 64 && (n + k) % 64 == 56
  {
    if n % 64 < 56 then 56 - n % 64 else 120 - n % 64
  }

  function Zeros(k: nat): Bytes {
    seq(k, _ => 0)
  }

  const TWO_32: nat := 0x1_0000_0000

  /** The low-order 64 bits of a bit count as two words, low-order word first. */
  function CountBytes(bits: nat): (b: Bytes)
    ensures |b| == 8
  {
    EncodeNum(bits % TWO_32, 4) + EncodeNum(bits / TWO_32 % TWO_32, 4)
  }

  /** A byte 0x80 and zeros, then the bit length. */
  function Padding(n: nat): (p: Bytes)
    ensures (n + |p|) % 64 == 0
  {
    var k := PadLen(n);
    assert (n + k + 8) % 64 == 0;
    [0x80] + Zeros(k - 1) + CountBytes(8 * n)
  }

  function Output(s: State): (b: Bytes)
    ensures |b| == 16
  {
    EncodeNum(s.a as nat, 4) + EncodeNum(s.b as nat, 4) + EncodeNum(s.c as nat, 4) + EncodeNum(s.d as nat, 4)
  }

  function Digest(f: BlockFn, message: Bytes): (b: Bytes)
    ensures |b| == 16
  {
    Output(Absorb(f, INIT, message + Padding(|message|)))
  }

  /** The MD5 digest of a message. */
  function Md5Digest(message: Bytes): (b: Bytes)
    ensures |b| == 16
  {
    Digest(CompressFn(MD5_OPS), message)
  }
}
