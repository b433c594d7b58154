/** The streaming digest: buffered updates with a bit counter in two 32-bit words. */
module Md5 {
  import opened Basics
  import opened Codec
  import opened Md5Spec
  import opened Md5Transform

  type U32 = n: nat | n < 0x1_0000_0000

  lemma AbsorbBlock(f: BlockFn, s: State, a: Bytes, block: Bytes)
    requires |a| % 64 == 0 && |block| == 64
    ensures Absorb(f, s, a + block) == f(Absorb(f, s, a), block)
  {
    AbsorbAppend(f, s, a, block);
    assert block[..64] == block && block[64..] == [];
  }

  lemma AbsorbTail(f: BlockFn, s: State, a: Bytes, tail: Bytes)
    requires |a| % 64 == 0 && |tail| < 64
    ensures Absorb(f, s, a + tail) == Absorb(f, s, a)
  {
    AbsorbAppend(f, s, a, tail);
  }

  lemma Split(n: nat, q: nat, r: nat)
    requires n == q * TWO_32 + r && r < TWO_32
    ensures n / TWO_32 == q && n % TWO_32 == r
  {
  }

  lemma Split64(n: nat, q: nat, r: nat)
    requires n == 64 * q + r && r < 64
    ensures n % 64 == r
  {
  }

  /** The low word of the bit count gives the number of buffered bytes. */
  lemma BufferedBytes(n: nat)
    ensures 8 * n % TWO_32 / 8 % 64 == n % 64
  {
    var q, r := n / 0x2000_0000, n % 0x2000_0000;
    Split(8 * n, q, 8 * r);
    var a, b := r / 64, r % 64;
    Split64(n, 0x80_0000 * q + a, b);
  }

  lemma ModAdd(x: nat, y: nat)
    ensures (x % TWO_32 + y) % TWO_32 == (x + y) % TWO_32
  {
    var q, r := x / TWO_32, x % TWO_32;
    var q', r' := (r + y) / TWO_32, (r + y) % TWO_32;
    Split(x + y, q + q', r');
  }

  lemma Carry(c0: nat, low: nat, c0': nat)
    requires c0 < TWO_32 && low < TWO_32 && c0' == (c0 + low) % TWO_32
    ensures c0 + low == (if c0' < low then TWO_32 else 0) + c0'
  {
    if c0 + low < TWO_32 {
      Split(c0 + low, 0, c0 + low);
    } else {
      Split(c0 + low, 1, c0 + low - TWO_32);
    }
  }

  /** Adding a length to the split counter, with the carry taken from the wrap of the low word. */
  lemma CounterAdd(n: nat, k: nat, c0: nat, c1: nat, low: nat, c0': nat, c1': nat)
    requires k < TWO_32
    requires c0 == 8 * n % TWO_32 && c1 == 8 * n / TWO_32 % TWO_32
    requires low == 8 * k % TWO_32 && c0' == (c0 + low) % TWO_32
    requires c1' == if c0' < low then (c1 + 1) % TWO_32 else c1
    ensures c0' == 8 * (n + k) % TWO_32
    ensures (c1' + k / 0x2000_0000) % TWO_32 == 8 * (n + k) / TWO_32 % TWO_32
  {
    var q, hi := 8 * n / TWO_32, k / 0x2000_0000;
    var carry := if c0' < low then 1 else 0;
    Carry(c0, low, c0');
    Split(8 * k, hi, 8 * (k % 0x2000_0000));
    Split(8 * (n + k), q + hi + carry, c0');
    ModAdd(q, carry);
    assert c1' == (q + carry) % TWO_32;
    ModAdd(q + carry, hi);
  }

  lemma TailMod(a: nat, b: nat)
    requires a % 64 == 0 && b < 64
    ensures (a + b) % 64 == b
  {
  }

  class Context {
    const ops: Ops
    ghost const f: BlockFn
    const buffer: array<byte>
    var state: State
    var count0: U32
    var count1: U32
    ghost var whole: Bytes   // the blocks transformed so far
    ghost var tail: Bytes    // the bytes waiting in the buffer

    /** The bytes passed in so far. */
    ghost function Message(): Bytes
      reads this
    {
      whole + tail
    }

    ghost predicate Holds()
      reads this, buffer
    {
      && buffer.Length == 64 && Implements(ops, f)
      && |whole| % 64 == 0 && |tail| < 64
      && state == Absorb(f, INIT, whole)
      && buffer[..|tail|] == tail
    }

    /** State and buffer hold the message so far; the two count words its length in bits. */
    ghost predicate Valid()
      reads this, buffer
    {
      && Holds()
      && count0 == 8 * |Message()| % TWO_32
      && count1 == 8 * |Message()| / TWO_32 % TWO_32
    }

    constructor (ops: Ops, ghost f: BlockFn)
      requires Implements(ops, f)
      ensures Valid() && Message() == [] && this.ops == ops && this.f == f && fresh(buffer)
    {
      this.ops, this.f := ops, f;
      buffer := new byte[64](_ => 0);
      count0, count1 := 0, 0;
      state := INIT;
      whole, tail := [], [];
    }

    method Fill(idx: nat, input: Bytes)
      requires idx + |input| <= buffer.Length
      modifies buffer
      ensures buffer[..idx + |input|] == old(buffer[..idx]) + input
    {
      forall i | 0 <= i < |input| {
        buffer[idx + i] := input[i];
      }
    }

    /** Transforms one block. */
    method Absorb1(block: Bytes)
      requires Implements(ops, f) && |block| == 64 && |whole| % 64 == 0 && state == Absorb(f, INIT, whole)
      modifies this`state, this`whole
      ensures whole == old(whole) + block && |whole| % 64 == 0 && state == Absorb(f, INIT, whole)
    {
      AbsorbBlock(f, INIT, whole, block);
      state := Transform(ops, f, state, block);
      whole := whole + block;
    }

    /** Transforms the whole blocks of the input from `from` on. */
    method AbsorbBlocks(input: Bytes, from: nat) returns (i: nat)
      requires Implements(ops, f) && from <= |input| && |whole| % 64 == 0 && state == Absorb(f, INIT, whole)
      modifies this`state, this`whole
      ensures from <= i <= |input| < i + 64 && whole == old(whole) + input[from..i]
      ensures |whole| % 64 == 0 && state == Absorb(f, INIT, whole)
    {
      i := from;
      while i + 63 < |input|
        invariant from <= i <= |input|
        invariant |whole| % 64 == 0 && state == Absorb(f, INIT, whole)
        invariant whole == old(whole) + input[from..i]
      {
        assert input[from..i + 64] == input[from..i] + input[i..i + 64];
        Absorb1(input[i..i + 64]);
        i := i + 64;
      }
    }

    /** Completes the buffered block and transforms it. */
    method CompleteBlock(idx: nat, part: Bytes)
      requires Holds() && idx == |tail| && |part| == 64 - idx
      modifies this`state, this`whole, buffer
      ensures |whole| % 64 == 0 && state == Absorb(f, INIT, whole) && whole == old(whole) + tail + part
    {
      Fill(idx, part);
      assert buffer[..] == tail + part;
      Absorb1(buffer[..]);
    }

    /** Buffers what is left of the input. */
    method KeepRest(rest: Bytes)
      requires buffer.Length == 64 && Implements(ops, f) && |rest| < 64
      requires |whole| % 64 == 0 && state == Absorb(f, INIT, whole)
      modifies this`tail, buffer
      ensures Holds() && tail == rest
    {
      Fill(0, rest);
      tail := rest;
    }

    lemma Pieces(message: Bytes, input: Bytes, p: nat, i: nat)
      requires p <= i <= |input|
      ensures message + input[..p] + input[p..i] + input[i..] == message + input
    {
      assert input == input[..p] + input[p..i] + input[i..];
    }

    /** Completes the buffered block, transforms the whole blocks that follow and buffers the rest. */
    method ConsumeBlocks(idx: nat, input: Bytes)
      requires Holds() && idx == |tail| && |input| >= 64 - idx
      modifies this`state, this`whole, this`tail, buffer
      ensures Holds() && Message() == old(Message()) + input
    {
      var partLen := 64 - idx;
      ghost var message := Message();
      CompleteBlock(idx, input[..partLen]);
      var i := AbsorbBlocks(input, partLen);
      KeepRest(input[i..]);
      Pieces(message, input, partLen, i);
    }

    /** Transforms every block the buffered bytes and the input complete; buffers the rest. */
    method Consume(idx: nat, input: Bytes)
      requires Holds() && idx == |tail|
      modifies this`state, this`whole, this`tail, buffer
      ensures Holds() && Message() == old(Message()) + input
    {
      if |input| >= 64 - idx {
        ConsumeBlocks(idx, input);
      } else {
        Fill(idx, input);
        tail := tail + input;
      }
    }

    lemma Buffered()
      requires Valid()
      ensures count0 / 8 % 64 == |tail|
    {
      BufferedBytes(|whole| + |tail|);
      TailMod(|whole|, |tail|);
    }

    /** Adds the bits of n bytes to the counter. */
    method AddCount(n: nat, ghost before: nat)
      requires n < TWO_32 && count0 == 8 * before % TWO_32 && count1 == 8 * before / TWO_32 % TWO_32
      modifies this`count0, this`count1
      ensures count0 == 8 * (before + n) % TWO_32 && count1 == 8 * (before + n) / TWO_32 % TWO_32
    {
      var low := 8 * n % TWO_32;
      var newLow := (count0 + low) % TWO_32;
      var high := if newLow < low then (count1 + 1) % TWO_32 else count1;
      CounterAdd(before, n, count0, count1, low, newLow, high);
      count0 := newLow;
      count1 := (high + n / 0x2000_0000) % TWO_32;
    }

    /** The bits of the input are added to the counter, and the input to the message. */
    method Update(input: Bytes)
      requires Valid() && |input| + 63 < TWO_32
      modifies this, buffer
      ensures Valid() && Message() == old(Message()) + input
    {
      Buffered();
      var idx := count0 / 8 % 64;
      AddCount(|input|, |Message()|);
      Consume(idx, input);
    }

    /** How many bytes of padding take a message to 56 modulo 64. */
    method PadLength() returns (padLen: nat)
      requires Valid()
      ensures padLen == PadLen(|Message()|)
    {
      Buffered();
      TailMod(|whole|, |tail|);
      var idx := count0 / 8 % 64;
      padLen := if idx < 56 then 56 - idx else 120 - idx;
    }

    /** Pads to 56 modulo 64. */
    method PadZeros()
      requires Valid()
      modifies this, buffer
      ensures Valid() && Message() == old(Message()) + ([0x80] + Zeros(PadLen(|old(Message())|) - 1))
    {
      var padLen := PadLength();
      Update([0x80] + Zeros(padLen - 1));
    }

    /** The two count words are the length of the message in bits. */
    lemma CountIs()
      requires Valid()
      ensures EncodeNum(count0, 4) + EncodeNum(count1, 4) == CountBytes(8 * |Message()|)
    {
    }

    lemma PaddingIs(message: Bytes, n: nat)
      ensures message + ([0x80] + Zeros(PadLen(n) - 1)) + CountBytes(8 * n) == message + Padding(n)
    {
    }

    /** Pads to 56 modulo 64 and appends the count. */
    method Pad()
      requires Valid()
      modifies this, buffer
      ensures Valid() && Message() == old(Message()) + Padding(|old(Message())|)
    {
      ghost var message := Message();
      CountIs();
      var bits := EncodeNum(count0, 4) + EncodeNum(count1, 4);
      PadZeros();
      Update(bits);
      PaddingIs(message, |message|);
    }

    /** The digest of all the bytes passed to Update; the context is wiped. */
    method Final() returns (digest: Bytes)
      requires Valid()
      modifies this, buffer
      ensures digest == Digest(f, old(Message()))
    {
      Pad();
      AbsorbTail(f, INIT, whole, tail);
      digest := Output(state);
      forall i | 0 <= i < 64 {
        buffer[i] := 0;
      }
      count0, count1, state := 0, 0, State(0, 0, 0, 0);
    }
  }

  function Flatten(chunks: seq<Bytes>): Bytes {
    if chunks == [] then [] else chunks[0] + Flatten(chunks[1..])
  }

  /** The digest does not depend on how the message is cut into updates. */
  method DigestOfChunks(ops: Ops, ghost f: BlockFn, chunks: seq<Bytes>) returns (digest: Bytes)
    requires forall i :: 0 <= i < |chunks| ==> |chunks[i]| + 63 < TWO_32
    requires Implements(ops, f)
    ensures digest == Digest(f, Flatten(chunks))
  {
    var context := new Context(ops, f);
    for i := 0 to |chunks|
      invariant context.Valid() && context.f == f && fresh(context) && fresh(context.buffer)
      invariant context.Message() + Flatten(chunks[i..]) == Flatten(chunks)
    {
      assert chunks[i..][1..] == chunks[i + 1..];
      context.Update(chunks[i]);
    }
    assert context.Message() + [] == context.Message();
    digest := context.Final();
  }

  /** The one-shot digest used for keys and values. */
  method HashMd5(data: Bytes) returns (digest: Bytes)
    requires |data| + 63 < TWO_32
    ensures digest == Md5Digest(data)
  {
    var context := new Context(MD5_OPS, CompressFn(MD5_OPS));
    context.Update(data);
    assert [] + data == data;
    digest := context.Final();
  }
}
