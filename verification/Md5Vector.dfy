/** A digest of the test suite of RFC 1321, section A.5, step by step. */
module Md5Vector {
  import opened Basics
  import opened Codec
  import opened Md5Spec

  /** The words of the only block of the message "abc": its bytes, the padding byte and the length. */
  ghost predicate AbcWords(x: seq<Word>) {
    |x| == 16 && x[0] == 0x80636261 && x[14] == 24 && forall j :: 0 < j < 16 && j != 14 ==> x[j] == 0
  }

  // ---- the register that each step computes

  function Register1(j: nat): Word {
    match j
    case 0 => 0xd6d117b4
    case 1 => 0x344a8432
    case 2 => 0x2f6fbd72
    case 3 => 0x7ad956f2
    case 4 => 0xc73741ef
    case 5 => 0x8bac3051
    case 6 => 0x207dc67b
    case 7 => 0x928d99f6
    case 8 => 0x854b3712
    case 9 => 0x74e2f284
    case 10 => 0x3020401c
    case 11 => 0x5ed49596
    case 12 => 0xdda9b9a6
    case 13 => 0xa1051895
    case 14 => 0xe396856b
    case _ => 0x72aff2e0
  }

  function Register2(j: nat): Word {
    match j
    case 0 => 0x3e9e9126
    case 1 => 0x4a1d804e
    case 2 => 0xe25e1652
    case 3 => 0xb5b204e4
    case 4 => 0x59a8ffda
    case 5 => 0x6d002f1e
    case 6 => 0xabfc7920
    case 7 => 0x47092c07
    case 8 => 0xb7f268cf
    case 9 => 0x09388eff
    case 10 => 0xfe1623b1
    case 11 => 0x786acb8f
    case 12 => 0x790a77fb
    case 13 => 0x9f47e4f8
    case 14 => 0xa62884aa
    case _ => 0x726342d3
  }

  function Register3(j: nat): Word {
    match j
    case 0 => 0xb3707ebf
    case 1 => 0x60127b2e
    case 2 => 0x8d212ff5
    case 3 => 0x3b0875c7
    case 4 => 0x21b117b9
    case 5 => 0x6e7429d5
    case 6 => 0x3575227e
    case 7 => 0x5a2f5ea5
    case 8 => 0x11de1779
    case 9 => 0xfadcaa38
    case 10 => 0x31c465ca
    case 11 => 0x4c6124f4
    case 12 => 0x7f2e507b
    case 13 => 0x99d9679d
    case 14 => 0x8fae6399
    case _ => 0x7beb9700
  }

  function Register4(j: nat): Word {
    match j
    case 0 => 0x7b201df8
    case 1 => 0xf4e8e96e
    case 2 => 0xb298cefd
    case 3 => 0x8bf025c4
    case 4 => 0x06cc5e8a
    case 5 => 0x5b0d97aa
    case 6 => 0x7d632dd0
    case 7 => 0x3bfa2c27
    case 8 => 0x7f81cc35
    case 9 => 0x094454ab
    case 10 => 0x4f9dbe3f
    case 11 => 0x7327d604
    case 12 => 0x310ade8f
    case 13 => 0x624d8cb2
    case 14 => 0xe484b9d8
    case _ => 0xc08226b3
  }

  /** The registers in the order in which they are computed, the first four being those at the start. */
  function Register(n: nat): Word {
    if n == 0 then 0x67452301 else if n == 1 then 0x10325476 else if n == 2 then 0x98badcfe
    else if n == 3 then 0xefcdab89
    else if n < 20 then Register1(n - 4)
    else if n < 36 then Register2(n - 20)
    else if n < 52 then Register3(n - 36)
    else Register4(n - 52)
  }

  function AbcState(n: nat): State {
    State(Register(n), Register(n + 3), Register(n + 2), Register(n + 1))
  }

  ghost predicate Follows(o: Ops, x: seq<Word>, i: nat) {
    i < 64 && |x| == 16 && Step(o, i, AbcState(i), x) == AbcState(i + 1)
  }

  /** What p says of a number is at least that its step follows. */
  ghost predicate Marks(p: nat -> bool, x: seq<Word>) {
    forall i: nat {:trigger Follows(MD5_OPS, x, i)} :: Follows(MD5_OPS, x, i) ==> p(i)
  }

  lemma Turned(i: nat, x: seq<Word>, w: Word, mix: Word, k: nat, t: Word, p: nat -> bool)
    requires i < 64 && Marks(p, x) && |x| == 16 && x[Index(i)] == w && Shift(i) == k && T(i) == t
    requires Mix(MD5_OPS, i, Register(i + 3), Register(i + 2), Register(i + 1)) == mix
    requires Turn(MD5_OPS, Register(i), Register(i + 3), mix, w, k, t) == Register(i + 4)
    ensures p(i)
  {
    assert Follows(MD5_OPS, x, i);
  }

  lemma Abc0(x: seq<Word>, p: nat -> bool)
    requires AbcWords(x) && Marks(p, x)
    ensures p(0) && p(1)
  {
    Turned(0, x, 0x80636261, 0x98badcfe, 7, 0xd76aa478, p);
    Turned(1, x, 0x00000000, 0xceebcbca, 12, 0xe8c7b756, p);
  }

  lemma Abc2(x: seq<Word>, p: nat -> bool)
    requires AbcWords(x) && Marks(p, x)
    ensures p(2) && p(3)
  {
    Turned(2, x, 0x00000000, 0xdfc52fb9, 17, 0x242070db, p);
    Turned(3, x, 0x00000000, 0xf4da86b6, 22, 0xc1bdceee, p);
  }

  lemma Abc4(x: seq<Word>, p: nat -> bool)
    requires AbcWords(x) && Marks(p, x)
    ensures p(4) && p(5)
  {
    Turned(4, x, 0x00000000, 0x2e4b9472, 7, 0xf57c0faf, p);
    Turned(5, x, 0x00000000, 0x6a59fcf2, 12, 0x4787c62a, p);
  }

  lemma Abc6(x: seq<Word>, p: nat -> bool)
    requires AbcWords(x) && Marks(p, x)
    ensures p(6) && p(7)
  {
    Turned(6, x, 0x00000000, 0xf37546e3, 17, 0xa8304613, p);
    Turned(7, x, 0x00000000, 0xc72e01d5, 22, 0xfd469501, p);
  }

  lemma Abc8(x: seq<Word>, p: nat -> bool)
    requires AbcWords(x) && Marks(p, x)
    ensures p(8) && p(9)
  {
    Turned(8, x, 0x00000000, 0x092da073, 7, 0x698098d8, p);
    Turned(9, x, 0x00000000, 0xa03dd17b, 12, 0x8b44f7af, p);
  }

  lemma Abc10(x: seq<Word>, p: nat -> bool)
    requires AbcWords(x) && Marks(p, x)
    ensures p(10) && p(11)
  {
    Turned(10, x, 0x00000000, 0x864f3b72, 17, 0xffff5bb1, p);
    Turned(11, x, 0x00000000, 0xb56b7706, 22, 0x895cd7be, p);
  }

  lemma Abc12(x: seq<Word>, p: nat -> bool)
    requires AbcWords(x) && Marks(p, x)
    ensures p(12) && p(13)
  {
    Turned(12, x, 0x00000000, 0x30226214, 7, 0x6b901122, p);
    Turned(13, x, 0x00000000, 0x7c80d19e, 12, 0xfd987193, p);
  }

  lemma Abc14(x: seq<Word>, p: nat -> bool)
    requires AbcWords(x) && Marks(p, x)
    ensures p(14) && p(15)
  {
    Turned(14, x, 0x00000018, 0xdfd19d86, 17, 0xa679438e, p);
    Turned(15, x, 0x00000000, 0xbd2d3885, 22, 0x49b40821, p);
  }

  lemma Abc16(x: seq<Word>, p: nat -> bool)
    requires AbcWords(x) && Marks(p, x)
    ensures p(16) && p(17)
  {
    Turned(16, x, 0x00000000, 0x629795ea, 5, 0xf61e2562, p);
    Turned(17, x, 0x00000000, 0x32bff3a2, 9, 0xc040b340, p);
  }

  lemma Abc18(x: seq<Word>, p: nat -> bool)
    requires AbcWords(x) && Marks(p, x)
    ensures p(18) && p(19)
  {
    Turned(18, x, 0x00000000, 0x4e1d8146, 14, 0x265e5a51, p);
    Turned(19, x, 0x80636261, 0x621f104a, 20, 0xe9b6c7aa, p);
  }

  lemma Abc20(x: seq<Word>, p: nat -> bool)
    requires AbcWords(x) && Marks(p, x)
    ensures p(20) && p(21)
  {
    Turned(20, x, 0x00000000, 0xa0521654, 5, 0xd62f105d, p);
    Turned(21, x, 0x00000000, 0x55a816f6, 9, 0x02441453, p);
  }

  lemma Abc22(x: seq<Word>, p: nat -> bool)
    requires AbcWords(x) && Marks(p, x)
    ensures p(22) && p(23)
  {
    Turned(22, x, 0x00000000, 0x6d08ff1e, 14, 0xd8a1e681, p);
    Turned(23, x, 0x00000000, 0x2da87904, 20, 0xe7d3fbc8, p);
  }

  lemma Abc24(x: seq<Word>, p: nat -> bool)
    requires AbcWords(x) && Marks(p, x)
    ensures p(24) && p(25)
  {
    Turned(24, x, 0x00000000, 0xc7fc7c26, 5, 0x21e1cde6, p);
    Turned(25, x, 0x00000018, 0xe7f16c07, 9, 0xc33707d6, p);
  }

  lemma Abc26(x: seq<Word>, p: nat -> bool)
    requires AbcWords(x) && Marks(p, x)
    ensures p(26) && p(27)
  {
    Turned(26, x, 0x00000000, 0xb1fa4ccf, 14, 0xf4d50d87, p);
    Turned(27, x, 0x00000000, 0xbe1aa6b1, 20, 0x455a14ed, p);
  }

  lemma Abc28(x: seq<Word>, p: nat -> bool)
    requires AbcWords(x) && Marks(p, x)
    ensures p(28) && p(29)
  {
    Turned(28, x, 0x00000000, 0xfe2eab8f, 5, 0xa9e3e905, p);
    Turned(29, x, 0x00000000, 0x786aebbf, 9, 0xfcefa3f8, p);
  }

  lemma Abc30(x: seq<Word>, p: nat -> bool)
    requires AbcWords(x) && Marks(p, x)
    ensures p(30) && p(31)
  {
    Turned(30, x, 0x00000000, 0x1942f4f8, 14, 0x676f02d9, p);
    Turned(31, x, 0x00000000, 0xa64d84aa, 20, 0x8d2a4c8a, p);
  }

  lemma Abc32(x: seq<Word>, p: nat -> bool)
    requires AbcWords(x) && Marks(p, x)
    ensures p(32) && p(33)
  {
    Turned(32, x, 0x00000000, 0x4b0c2281, 4, 0xfffa3942, p);
    Turned(33, x, 0x00000000, 0x673bb8c6, 11, 0x8771f681, p);
  }

  lemma Abc34(x: seq<Word>, p: nat -> bool)
    requires AbcWords(x) && Marks(p, x)
    ensures p(34) && p(35)
  {
    Turned(34, x, 0x00000000, 0xa1014742, 16, 0x6d9d6122, p);
    Turned(35, x, 0x00000018, 0x5e432a64, 23, 0xfde5380c, p);
  }

  lemma Abc36(x: seq<Word>, p: nat -> bool)
    requires AbcWords(x) && Marks(p, x)
    ensures p(36) && p(37)
  {
    Turned(36, x, 0x00000000, 0xd63b211c, 4, 0xa4beea44, p);
    Turned(37, x, 0x00000000, 0x97984d8b, 11, 0x4bdecfa9, p);
  }

  lemma Abc38(x: seq<Word>, p: nat -> bool)
    requires AbcWords(x) && Marks(p, x)
    ensures p(38) && p(39)
  {
    Turned(38, x, 0x00000000, 0x74cd4bab, 16, 0xf6bb4b60, p);
    Turned(39, x, 0x00000000, 0x7ab01c12, 23, 0xbebfbc70, p);
  }

  lemma Abc40(x: seq<Word>, p: nat -> bool)
    requires AbcWords(x) && Marks(p, x)
    ensures p(40) && p(41)
  {
    Turned(40, x, 0x00000000, 0x012e550e, 4, 0x289b7ec6, p);
    Turned(41, x, 0x80636261, 0x7e846ba2, 11, 0xeaa127fa, p);
  }

  lemma Abc42(x: seq<Word>, p: nat -> bool)
    requires AbcWords(x) && Marks(p, x)
    ensures p(42) && p(43)
  {
    Turned(42, x, 0x00000000, 0xb12de3e4, 16, 0xd4ef3085, p);
    Turned(43, x, 0x00000000, 0xdac6d88b, 23, 0x04881d05, p);
  }

  lemma Abc44(x: seq<Word>, p: nat -> bool)
    requires AbcWords(x) && Marks(p, x)
    ensures p(44) && p(45)
  {
    Turned(44, x, 0x00000000, 0x8779eb06, 4, 0xd9d4d039, p);
    Turned(45, x, 0x00000000, 0x028b1145, 11, 0xe6db99e5, p);
  }

  lemma Abc46(x: seq<Word>, p: nat -> bool)
    requires AbcWords(x) && Marks(p, x)
    ensures p(46) && p(47)
  {
    Turned(46, x, 0x00000000, 0xaa961312, 16, 0x1fa27cf8, p);
    Turned(47, x, 0x00000000, 0x6959547f, 23, 0xc4ac5665, p);
  }

  lemma Abc48(x: seq<Word>, p: nat -> bool)
    requires AbcWords(x) && Marks(p, x)
    ensures p(48) && p(49)
  {
    Turned(48, x, 0x80636261, 0xf041fcfb, 6, 0xf4292244, p);
    Turned(49, x, 0x00000000, 0x009a0afe, 10, 0x432aff97, p);
  }

  lemma Abc50(x: seq<Word>, p: nat -> bool)
    requires AbcWords(x) && Marks(p, x)
    ensures p(50) && p(51)
  {
    Turned(50, x, 0x00000018, 0x8fdcf407, 15, 0xab9423a7, p);
    Turned(51, x, 0x00000000, 0x42370791, 21, 0xfc93a039, p);
  }

  lemma Abc52(x: seq<Word>, p: nat -> bool)
    requires AbcWords(x) && Marks(p, x)
    ensures p(52) && p(53)
  {
    Turned(52, x, 0x00000000, 0x396ff928, 6, 0x655b59c3, p);
    Turned(53, x, 0x00000000, 0xc41f5a4e, 10, 0x8f0ccc92, p);
  }

  lemma Abc54(x: seq<Word>, p: nat -> bool)
    requires AbcWords(x) && Marks(p, x)
    ensures p(54) && p(55)
  {
    Turned(54, x, 0x00000000, 0x79c38131, 15, 0xffeff47d, p);
    Turned(55, x, 0x00000000, 0xa67e3a5f, 21, 0x85845dd1, p);
  }

  lemma Abc56(x: seq<Word>, p: nat -> bool)
    requires AbcWords(x) && Marks(p, x)
    ensures p(56) && p(57)
  {
    Turned(56, x, 0x00000000, 0xc29941a7, 6, 0x6fa87e4f, p);
    Turned(57, x, 0x00000000, 0xc467f218, 10, 0xfe2ce6e0, p);
  }

  lemma Abc58(x: seq<Word>, p: nat -> bool)
    requires AbcWords(x) && Marks(p, x)
    ensures p(58) && p(59)
  {
    Turned(58, x, 0x00000000, 0xb2c41bce, 15, 0xa3014314, p);
    Turned(59, x, 0x00000000, 0xc6bbeb54, 21, 0x4e0811a1, p);
  }

  lemma Abc60(x: seq<Word>, p: nat -> bool)
    requires AbcWords(x) && Marks(p, x)
    ensures p(60) && p(61)
  {
    Turned(60, x, 0x00000000, 0xb822416b, 6, 0xf7537e82, p);
    Turned(61, x, 0x00000000, 0xc24d09cb, 10, 0xbd3af235, p);
  }

  lemma Abc62(x: seq<Word>, p: nat -> bool)
    requires AbcWords(x) && Marks(p, x)
    ensures p(62) && p(63)
  {
    Turned(62, x, 0x00000000, 0xdfd77374, 15, 0x2ad7d2bb, p);
    Turned(63, x, 0x00000000, 0x8cb8354a, 21, 0xeb86d391, p);
  }

  lemma Round1(x: seq<Word>, p: nat -> bool)
    requires AbcWords(x) && Marks(p, x)
    ensures forall i: nat :: 0 <= i < 16 ==> p(i)
  {
    Abc0(x, p); Abc2(x, p); Abc4(x, p); Abc6(x, p);
    Abc8(x, p); Abc10(x, p); Abc12(x, p); Abc14(x, p);
  }

  lemma Round2(x: seq<Word>, p: nat -> bool)
    requires AbcWords(x) && Marks(p, x)
    ensures forall i: nat :: 16 <= i < 32 ==> p(i)
  {
    Abc16(x, p); Abc18(x, p); Abc20(x, p); Abc22(x, p);
    Abc24(x, p); Abc26(x, p); Abc28(x, p); Abc30(x, p);
  }

  lemma Round3(x: seq<Word>, p: nat -> bool)
    requires AbcWords(x) && Marks(p, x)
    ensures forall i: nat :: 32 <= i < 48 ==> p(i)
  {
    Abc32(x, p); Abc34(x, p); Abc36(x, p); Abc38(x, p);
    Abc40(x, p); Abc42(x, p); Abc44(x, p); Abc46(x, p);
  }

  lemma Round4(x: seq<Word>, p: nat -> bool)
    requires AbcWords(x) && Marks(p, x)
    ensures forall i: nat :: 48 <= i < 64 ==> p(i)
  {
    Abc48(x, p); Abc50(x, p); Abc52(x, p); Abc54(x, p);
    Abc56(x, p); Abc58(x, p); Abc60(x, p); Abc62(x, p);
  }

  lemma AllMarked(x: seq<Word>, p: nat -> bool)
    requires AbcWords(x) && Marks(p, x)
    ensures forall i: nat :: i < 64 ==> p(i)
  {
    Round1(x, p);
    Round2(x, p);
    Round3(x, p);
    Round4(x, p);
  }

  lemma {:induction false} StepsFollow(o: Ops, x: seq<Word>, n: nat)
    requires n <= 64 && |x| == 16 && AbcState(0) == INIT && forall i: nat :: i < 64 ==> Follows(o, x, i)
    ensures Steps(o, INIT, x, n) == AbcState(n)
  {
    if n > 0 {
      StepsFollow(o, x, n - 1);
      assert Follows(o, x, n - 1);
    }
  }

  /** Whether step i follows, as a function of i. */
  ghost function Following(o: Ops, x: seq<Word>): nat -> bool {
    (i: nat) => Follows(o, x, i)
  }

  lemma AllFollow(o: Ops, x: seq<Word>)
    requires |x| == 16 && AbcState(0) == INIT && forall i: nat :: i < 64 ==> Following(o, x)(i)
    ensures Steps(o, INIT, x, 4 * |x|) == AbcState(64)
  {
    forall i: nat | i < 64
      ensures Follows(o, x, i)
    {
      assert Following(o, x)(i);
    }
    StepsFollow(o, x, 4 * |x|);
  }

  lemma AbcMarks(o: Ops, x: seq<Word>)
    requires o == MD5_OPS
    ensures Marks(Following(o, x), x)
  {
    forall i: nat
      ensures Follows(MD5_OPS, x, i) ==> Following(o, x)(i)
    {
      assert Following(o, x)(i) == Follows(o, x, i);
    }
  }

  lemma AbcSteps(x: seq<Word>)
    requires AbcWords(x)
    ensures Steps(MD5_OPS, INIT, x, 4 * |x|) == AbcState(64)
  {
    AbcMarks(MD5_OPS, x);
    AllMarked(x, Following(MD5_OPS, x));
    AllFollow(MD5_OPS, x);
  }

  // ---- the block and the digest

  lemma Number4(b: Bytes)
    requires |b| == 4
    ensures DecodeNum(b) == b[0] as int + 0x100 * b[1] as int + 0x1_0000 * b[2] as int + 0x100_0000 * b[3] as int
  {
    assert DecodeNum(b[1..][1..][1..]) == b[3] as int + 256 * DecodeNum(b[1..][1..][1..][1..]);
    assert DecodeNum(b[1..][1..]) == b[2] as int + 256 * DecodeNum(b[1..][1..][1..]);
    assert DecodeNum(b[1..]) == b[1] as int + 256 * DecodeNum(b[1..][1..]);
  }

  lemma Bytes4(n: nat, b: Bytes)
    requires |b| == 4 && n == b[0] as int + 0x100 * b[1] as int + 0x1_0000 * b[2] as int + 0x100_0000 * b[3] as int
    ensures EncodeNum(n, 4) == b
  {
    Number4(b);
    BytesRoundTrip(b);
  }

  const ABC: Bytes := [97, 98, 99]

  lemma AbcPadding()
    ensures Padding(3) == [0x80] + Zeros(52) + [24, 0, 0, 0, 0, 0, 0, 0]
  {
    Bytes4(24, [24, 0, 0, 0]);
    Bytes4(0, [0, 0, 0, 0]);
    assert CountBytes(24) == [24, 0, 0, 0] + [0, 0, 0, 0];
  }

  lemma BlockWord(block: Bytes, j: nat, b: Bytes, w: Word)
    requires |block| == 64 && j < 16 && block[4 * j..4 * j + 4] == b && DecodeNum(b) < 0x1_0000_0000
    requires DecodeNum(b) as Word == w
    ensures Words(block)[j] == w
  {
  }

  lemma WordOf(w: Word, n: nat)
    requires n == w as nat
    ensures n as Word == w
  {
  }

  lemma FirstWord(b: Bytes)
    requires b == [97, 98, 99, 0x80]
    ensures DecodeNum(b) < 0x1_0000_0000 && DecodeNum(b) as Word == 0x80636261
  {
    Number4(b);
    WordOf(0x80636261, DecodeNum(b));
  }

  lemma SmallWord(b: Bytes, n: byte)
    requires b == [n, 0, 0, 0] && (n == 24 || n == 0)
    ensures DecodeNum(b) < 0x1_0000_0000 && DecodeNum(b) as Word == if n == 24 then 24 else 0
  {
    Number4(b);
    assert DecodeNum(b) == n as int;
  }

  /** Where the bytes of the block are. */
  lemma AbcBytes(block: Bytes, j: nat)
    requires block == ABC + Padding(3) && j < 16
    ensures |block| == 64
    ensures block[4 * j..4 * j + 4]
            == if j == 0 then [97, 98, 99, 0x80] else if j == 14 then [24, 0, 0, 0] else [0, 0, 0, 0]
  {
    AbcPadding();
    assert block == [97, 98, 99, 0x80] + Zeros(52) + [24, 0, 0, 0, 0, 0, 0, 0];
  }

  lemma AbcWord(block: Bytes, j: nat)
    requires block == ABC + Padding(3) && j < 16
    ensures |block| == 64 && Words(block)[j] == if j == 0 then 0x80636261 else if j == 14 then 24 else 0
  {
    AbcBytes(block, j);
    var b := block[4 * j..4 * j + 4];
    if j == 0 {
      FirstWord(b);
      BlockWord(block, j, b, 0x80636261);
    } else {
      SmallWord(b, if j == 14 then 24 else 0);
      BlockWord(block, j, b, if j == 14 then 24 else 0);
    }
  }

  lemma AbcBlock(block: Bytes)
    requires block == ABC + Padding(3)
    ensures |block| == 64 && AbcWords(Words(block))
  {
    AbcWord(block, 0);
    var x := Words(block);
    forall j | 0 <= j < 16
      ensures x[j] == if j == 0 then 0x80636261 else if j == 14 then 24 else 0
    {
      AbcWord(block, j);
    }
  }

  lemma AbcSum()
    ensures Sum(MD5_OPS, INIT, AbcState(64)) == State(0x98500190, 0xb04fd23c, 0x7d3f96d6, 0x727fe128)
  {
  }

  lemma OutputOf(s: State, a: nat, b: nat, c: nat, d: nat)
    requires s.a as nat == a && s.b as nat == b && s.c as nat == c && s.d as nat == d
    ensures Output(s) == EncodeNum(a, 4) + EncodeNum(b, 4) + EncodeNum(c, 4) + EncodeNum(d, 4)
  {
  }

  lemma AbcOutput(s: State)
    requires s == State(0x98500190, 0xb04fd23c, 0x7d3f96d6, 0x727fe128)
    ensures Output(s)
            == [0x90, 0x01, 0x50, 0x98, 0x3c, 0xd2, 0x4f, 0xb0, 0xd6, 0x96, 0x3f, 0x7d, 0x28, 0xe1, 0x7f, 0x72]
  {
    var a, b, c, d := 0x98500190, 0xb04fd23c, 0x7d3f96d6, 0x727fe128;
    OutputOf(s, a, b, c, d);
    Bytes4(a, [0x90, 0x01, 0x50, 0x98]);
    Bytes4(b, [0x3c, 0xd2, 0x4f, 0xb0]);
    Bytes4(c, [0xd6, 0x96, 0x3f, 0x7d]);
    Bytes4(d, [0x28, 0xe1, 0x7f, 0x72]);
  }

  /** The digest of "abc" is 900150983cd24fb0d6963f7d28e17f72. */
  lemma AbcDigest()
    ensures Md5Digest(ABC)
            == [0x90, 0x01, 0x50, 0x98, 0x3c, 0xd2, 0x4f, 0xb0, 0xd6, 0x96, 0x3f, 0x7d, 0x28, 0xe1, 0x7f, 0x72]
  {
    var block := ABC + Padding(3);
    AbcBlock(block);
    AbcSteps(Words(block));
    AbcSum();
    AbcOutput(Sum(MD5_OPS, INIT, AbcState(64)));
    OneBlock(MD5_OPS, block);
  }

  lemma OneBlock(o: Ops, block: Bytes)
    requires |block| == 64
    ensures Absorb(CompressFn(o), INIT, block) == Compress(o, INIT, block)
  {
    assert block[..64] == block && block[64..] == [];
  }
}
