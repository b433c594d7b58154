/** The unrolled block transformation, shown to be the sixty-four steps of RFC 1321. */
module Md5Transform {
  import opened Basics
  import opened Md5Spec

  ghost predicate Next(o: Ops, x: seq<Word>, k: nat, s: State, s': State)
    requires |x| == 16 && k < 64
  {
    s' == Step(o, k, s, x)
  }

  /** The registers before each step and after the last. */
  ghost predicate IsTrace(o: Ops, x: seq<Word>, trace: seq<State>)
    requires |x| == 16
  {
    && |trace| == 65
    && forall k {:trigger Next(o, x, k, trace[k], trace[k + 1])} ::
         0 <= k < 64 ==> Next(o, x, k, trace[k], trace[k + 1])
  }

  lemma StepsTrace(o: Ops, s: State, x: seq<Word>) returns (trace: seq<State>)
    requires |x| == 16
    ensures IsTrace(o, x, trace) && trace[0] == s && trace[64] == Steps(o, s, x, 4 * |x|)
  {
    trace := seq(65, k requires 0 <= k < 65 => Steps(o, s, x, k));
    forall k | 0 <= k < 64
      ensures Next(o, x, k, trace[k], trace[k + 1])
    {
      assert trace[k + 1] == Steps(o, s, x, k + 1);
    }
  }

  /** Step j of round 1: the new value of register a. */
  method FF(o: Ops, x: seq<Word>, ghost trace: seq<State>, ghost j: nat, a: Word, b: Word, c: Word, d: Word, xk: Word,
            s: nat, ac: Word)
    returns (r: Word)
    requires |x| == 16 && j < 16 && IsTrace(o, x, trace) && trace[j] == State(a, b, c, d)
    requires xk == x[j] && s == Shift1(j) && ac == T1(j)
    ensures trace[1 + j] == State(d, r, b, c)
  {
    r := o.add(a, o.add(o.add(o.f(b, c, d), xk), ac));
    r := o.rotate(r, s);
    r := o.add(r, b);
    ghost var k := j;
    assert Next(o, x, k, trace[k], trace[k + 1]);
  }

  /** Step j of round 2: the new value of register a. */
  method GG(o: Ops, x: seq<Word>, ghost trace: seq<State>, ghost j: nat, a: Word, b: Word, c: Word, d: Word, xk: Word,
            s: nat, ac: Word)
    returns (r: Word)
    requires |x| == 16 && j < 16 && IsTrace(o, x, trace) && trace[16 + j] == State(a, b, c, d)
    requires xk == x[Index2(j)] && s == Shift2(j) && ac == T2(j)
    ensures trace[17 + j] == State(d, r, b, c)
  {
    r := o.add(a, o.add(o.add(o.g(b, c, d), xk), ac));
    r := o.rotate(r, s);
    r := o.add(r, b);
    ghost var k := 16 + j;
    assert Next(o, x, k, trace[k], trace[k + 1]);
  }

  /** Step j of round 3: the new value of register a. */
  method HH(o: Ops, x: seq<Word>, ghost trace: seq<State>, ghost j: nat, a: Word, b: Word, c: Word, d: Word, xk: Word,
            s: nat, ac: Word)
    returns (r: Word)
    requires |x| == 16 && j < 16 && IsTrace(o, x, trace) && trace[32 + j] == State(a, b, c, d)
    requires xk == x[Index3(j)] && s == Shift3(j) && ac == T3(j)
    ensures trace[33 + j] == State(d, r, b, c)
  {
    r := o.add(a, o.add(o.add(o.h(b, c, d), xk), ac));
    r := o.rotate(r, s);
    r := o.add(r, b);
    ghost var k := 32 + j;
    assert Next(o, x, k, trace[k], trace[k + 1]);
  }

  /** Step j of round 4: the new value of register a. */
  method II(o: Ops, x: seq<Word>, ghost trace: seq<State>, ghost j: nat, a: Word, b: Word, c: Word, d: Word, xk: Word,
            s: nat, ac: Word)
    returns (r: Word)
    requires |x| == 16 && j < 16 && IsTrace(o, x, trace) && trace[48 + j] == State(a, b, c, d)
    requires xk == x[Index4(j)] && s == Shift4(j) && ac == T4(j)
    ensures trace[49 + j] == State(d, r, b, c)
  {
    r := o.add(a, o.add(o.add(o.i(b, c, d), xk), ac));
    r := o.rotate(r, s);
    r := o.add(r, b);
    ghost var k := 48 + j;
    assert Next(o, x, k, trace[k], trace[k + 1]);
  }

  method Round1FirstHalf(o: Ops, s: State, x: seq<Word>, ghost trace: seq<State>) returns (r: State)
    requires |x| == 16 && IsTrace(o, x, trace) && trace[0] == s
    ensures r == trace[8]
  {
    var a, b, c, d := s.a, s.b, s.c, s.d;
    a := FF(o, x, trace, 0, a, b, c, d, x[0], 7, 0xd76aa478);
    d := FF(o, x, trace, 1, d, a, b, c, x[1], 12, 0xe8c7b756);
    c := FF(o, x, trace, 2, c, d, a, b, x[2], 17, 0x242070db);
    b := FF(o, x, trace, 3, b, c, d, a, x[3], 22, 0xc1bdceee);
    a := FF(o, x, trace, 4, a, b, c, d, x[4], 7, 0xf57c0faf);
    d := FF(o, x, trace, 5, d, a, b, c, x[5], 12, 0x4787c62a);
    c := FF(o, x, trace, 6, c, d, a, b, x[6], 17, 0xa8304613);
    b := FF(o, x, trace, 7, b, c, d, a, x[7], 22, 0xfd469501);
    r := State(a, b, c, d);
  }

  method Round1SecondHalf(o: Ops, s: State, x: seq<Word>, ghost trace: seq<State>) returns (r: State)
    requires |x| == 16 && IsTrace(o, x, trace) && trace[8] == s
    ensures r == trace[16]
  {
    var a, b, c, d := s.a, s.b, s.c, s.d;
    a := FF(o, x, trace, 8, a, b, c, d, x[8], 7, 0x698098d8);
    d := FF(o, x, trace, 9, d, a, b, c, x[9], 12, 0x8b44f7af);
    c := FF(o, x, trace, 10, c, d, a, b, x[10], 17, 0xffff5bb1);
    b := FF(o, x, trace, 11, b, c, d, a, x[11], 22, 0x895cd7be);
    a := FF(o, x, trace, 12, a, b, c, d, x[12], 7, 0x6b901122);
    d := FF(o, x, trace, 13, d, a, b, c, x[13], 12, 0xfd987193);
    c := FF(o, x, trace, 14, c, d, a, b, x[14], 17, 0xa679438e);
    b := FF(o, x, trace, 15, b, c, d, a, x[15], 22, 0x49b40821);
    r := State(a, b, c, d);
  }

  method Round2FirstHalf(o: Ops, s: State, x: seq<Word>, ghost trace: seq<State>) returns (r: State)
    requires |x| == 16 && IsTrace(o, x, trace) && trace[16] == s
    ensures r == trace[24]
  {
    var a, b, c, d := s.a, s.b, s.c, s.d;
    a := GG(o, x, trace, 0, a, b, c, d, x[1], 5, 0xf61e2562);
    d := GG(o, x, trace, 1, d, a, b, c, x[6], 9, 0xc040b340);
    c := GG(o, x, trace, 2, c, d, a, b, x[11], 14, 0x265e5a51);
    b := GG(o, x, trace, 3, b, c, d, a, x[0], 20, 0xe9b6c7aa);
    a := GG(o, x, trace, 4, a, b, c, d, x[5], 5, 0xd62f105d);
    d := GG(o, x, trace, 5, d, a, b, c, x[10], 9, 0x02441453);
    c := GG(o, x, trace, 6, c, d, a, b, x[15], 14, 0xd8a1e681);
    b := GG(o, x, trace, 7, b, c, d, a, x[4], 20, 0xe7d3fbc8);
    r := State(a, b, c, d);
  }

  method Round2SecondHalf(o: Ops, s: State, x: seq<Word>, ghost trace: seq<State>) returns (r: State)
    requires |x| == 16 && IsTrace(o, x, trace) && trace[24] == s
    ensures r == trace[32]
  {
    var a, b, c, d := s.a, s.b, s.c, s.d;
    a := GG(o, x, trace, 8, a, b, c, d, x[9], 5, 0x21e1cde6);
    d := GG(o, x, trace, 9, d, a, b, c, x[14], 9, 0xc33707d6);
    c := GG(o, x, trace, 10, c, d, a, b, x[3], 14, 0xf4d50d87);
    b := GG(o, x, trace, 11, b, c, d, a, x[8], 20, 0x455a14ed);
    a := GG(o, x, trace, 12, a, b, c, d, x[13], 5, 0xa9e3e905);
    d := GG(o, x, trace, 13, d, a, b, c, x[2], 9, 0xfcefa3f8);
    c := GG(o, x, trace, 14, c, d, a, b, x[7], 14, 0x676f02d9);
    b := GG(o, x, trace, 15, b, c, d, a, x[12], 20, 0x8d2a4c8a);
    r := State(a, b, c, d);
  }

  method Round3FirstHalf(o: Ops, s: State, x: seq<Word>, ghost trace: seq<State>) returns (r: State)
    requires |x| == 16 && IsTrace(o, x, trace) && trace[32] == s
    ensures r == trace[40]
  {
    var a, b, c, d := s.a, s.b, s.c, s.d;
    a := HH(o, x, trace, 0, a, b, c, d, x[5], 4, 0xfffa3942);
    d := HH(o, x, trace, 1, d, a, b, c, x[8], 11, 0x8771f681);
    c := HH(o, x, trace, 2, c, d, a, b, x[11], 16, 0x6d9d6122);
    b := HH(o, x, trace, 3, b, c, d, a, x[14], 23, 0xfde5380c);
    a := HH(o, x, trace, 4, a, b, c, d, x[1], 4, 0xa4beea44);
    d := HH(o, x, trace, 5, d, a, b, c, x[4], 11, 0x4bdecfa9);
    c := HH(o, x, trace, 6, c, d, a, b, x[7], 16, 0xf6bb4b60);
    b := HH(o, x, trace, 7, b, c, d, a, x[10], 23, 0xbebfbc70);
    r := State(a, b, c, d);
  }

  method Round3SecondHalf(o: Ops, s: State, x: seq<Word>, ghost trace: seq<State>) returns (r: State)
    requires |x| == 16 && IsTrace(o, x, trace) && trace[40] == s
    ensures r == trace[48]
  {
    var a, b, c, d := s.a, s.b, s.c, s.d;
    a := HH(o, x, trace, 8, a, b, c, d, x[13], 4, 0x289b7ec6);
    d := HH(o, x, trace, 9, d, a, b, c, x[0], 11, 0xeaa127fa);
    c := HH(o, x, trace, 10, c, d, a, b, x[3], 16, 0xd4ef3085);
    b := HH(o, x, trace, 11, b, c, d, a, x[6], 23, 0x04881d05);
    a := HH(o, x, trace, 12, a, b, c, d, x[9], 4, 0xd9d4d039);
    d := HH(o, x, trace, 13, d, a, b, c, x[12], 11, 0xe6db99e5);
    c := HH(o, x, trace, 14, c, d, a, b, x[15], 16, 0x1fa27cf8);
    b := HH(o, x, trace, 15, b, c, d, a, x[2], 23, 0xc4ac5665);
    r := State(a, b, c, d);
  }

  method Round4FirstHalf(o: Ops, s: State, x: seq<Word>, ghost trace: seq<State>) returns (r: State)
    requires |x| == 16 && IsTrace(o, x, trace) && trace[48] == s
    ensures r == trace[56]
  {
    var a, b, c, d := s.a, s.b, s.c, s.d;
    a := II(o, x, trace, 0, a, b, c, d, x[0], 6, 0xf4292244);
    d := II(o, x, trace, 1, d, a, b, c, x[7], 10, 0x432aff97);
    c := II(o, x, trace, 2, c, d, a, b, x[14], 15, 0xab9423a7);
    b := II(o, x, trace, 3, b, c, d, a, x[5], 21, 0xfc93a039);
    a := II(o, x, trace, 4, a, b, c, d, x[12], 6, 0x655b59c3);
    d := II(o, x, trace, 5, d, a, b, c, x[3], 10, 0x8f0ccc92);
    c := II(o, x, trace, 6, c, d, a, b, x[10], 15, 0xffeff47d);
    b := II(o, x, trace, 7, b, c, d, a, x[1], 21, 0x85845dd1);
    r := State(a, b, c, d);
  }

  method Round4SecondHalf(o: Ops, s: State, x: seq<Word>, ghost trace: seq<State>) returns (r: State)
    requires |x| == 16 && IsTrace(o, x, trace) && trace[56] == s
    ensures r == trace[64]
  {
    var a, b, c, d := s.a, s.b, s.c, s.d;
    a := II(o, x, trace, 8, a, b, c, d, x[8], 6, 0x6fa87e4f);
    d := II(o, x, trace, 9, d, a, b, c, x[15], 10, 0xfe2ce6e0);
    c := II(o, x, trace, 10, c, d, a, b, x[6], 15, 0xa3014314);
    b := II(o, x, trace, 11, b, c, d, a, x[13], 21, 0x4e0811a1);
    a := II(o, x, trace, 12, a, b, c, d, x[4], 6, 0xf7537e82);
    d := II(o, x, trace, 13, d, a, b, c, x[11], 10, 0xbd3af235);
    c := II(o, x, trace, 14, c, d, a, b, x[2], 15, 0x2ad7d2bb);
    b := II(o, x, trace, 15, b, c, d, a, x[9], 21, 0xeb86d391);
    r := State(a, b, c, d);
  }

  ghost predicate Agrees(o: Ops, f: BlockFn, s: State, block: Bytes) {
    |block| == 64 ==> f(s, block) == Compress(o, s, block)
  }

  /** f is the block function of the operations o. */
  ghost predicate Implements(o: Ops, f: BlockFn) {
    forall s, block {:trigger Agrees(o, f, s, block)} :: Agrees(o, f, s, block)
  }

  method Transform(o: Ops, ghost f: BlockFn, state: State, block: Bytes) returns (r: State)
    requires |block| == 64 && Implements(o, f)
    ensures r == f(state, block)
  {
    assert Agrees(o, f, state, block);
    var x := Words(block);
    ghost var trace := StepsTrace(o, state, x);
    var s := Round1FirstHalf(o, state, x, trace);
    s := Round1SecondHalf(o, s, x, trace);
    s := Round2FirstHalf(o, s, x, trace);
    s := Round2SecondHalf(o, s, x, trace);
    s := Round3FirstHalf(o, s, x, trace);
    s := Round3SecondHalf(o, s, x, trace);
    s := Round4FirstHalf(o, s, x, trace);
    s := Round4SecondHalf(o, s, x, trace);
    r := Sum(o, state, s);
  }
}
