/** The self-verifying frame around a value in the shared table. */
module Frame {
  import opened Basics
  import opened Codec
  import opened CodecLayout
  import opened HashArr

  const NEED_MD5_LEN: nat := 1024

  /** Length, value, and a verification code: the digest of a long value, a second copy of a short one. */
  function Framed(md5: Bytes -> Digest, v: Bytes): (b: Bytes)
    ensures |b| >= VALUE_LEN
  {
    EncodeNum(|v|, VALUE_LEN) + v + (if |v| > NEED_MD5_LEN then md5(v) else v)
  }

  function Verify(md5: Bytes -> Digest, b: Bytes): Result<Bytes>
    requires |b| >= VALUE_LEN
  {
    var n := DecodeNum(b[..VALUE_LEN]);
    if n > NEED_MD5_LEN then
      if |b| < VALUE_LEN + n + 16 then Err(ErrTblDataMess)
      else if md5(b[VALUE_LEN..VALUE_LEN + n]) == b[VALUE_LEN + n..VALUE_LEN + n + 16]
      then Ok(b[VALUE_LEN..VALUE_LEN + n])
      else Err(ErrTblDataMess)
    else
      if |b| < VALUE_LEN + n * 2 then Err(ErrTblDataMess)
      else if b[VALUE_LEN..VALUE_LEN + n] == b[VALUE_LEN + n..VALUE_LEN + n * 2] then Ok(b[VALUE_LEN..VALUE_LEN + n])
      else Err(ErrTblDataMess)
  }

  /** A buffer is accepted with value v exactly when it starts with the frame of v. */
  lemma VerifyIff(md5: Bytes -> Digest, b: Bytes, v: Bytes)
    requires |b| >= VALUE_LEN
    ensures Verify(md5, b) == Ok(v) <==> |v| < Pow256(VALUE_LEN) && Framed(md5, v) <= b
  {
    if |v| < Pow256(VALUE_LEN) && Framed(md5, v) <= b {
      FrameParts(md5, b, v);
    }
    if Verify(md5, b) == Ok(v) {
      VerifiedFrame(md5, b, v);
    }
  }

  lemma VerifiedFrame(md5: Bytes -> Digest, b: Bytes, v: Bytes)
    requires |b| >= VALUE_LEN && Verify(md5, b) == Ok(v)
    ensures |v| < Pow256(VALUE_LEN) && Framed(md5, v) <= b
  {
    var n := DecodeNum(b[..VALUE_LEN]);
    BytesRoundTrip(b[..VALUE_LEN]);
    var m := if n > NEED_MD5_LEN then 16 else n;
    assert b[..VALUE_LEN + n + m] == b[..VALUE_LEN] + b[VALUE_LEN..VALUE_LEN + n] + b[VALUE_LEN + n..VALUE_LEN + n + m];
  }

  /**
   Four bytes of length and the value; then the value again, or the 16 bytes of its digest
   when it exceeds 1024 bytes.
   */
  lemma FrameLayout(md5: Bytes -> Digest, v: Bytes)
    ensures var b, n := Framed(md5, v), |v|;
            && |b| == 4 + n + (if n > 1024 then 16 else n)
            && b[..4] == [(n % 256) as byte, (n / 256 % 256) as byte, (n / 65536 % 256) as byte,
                          (n / 16777216 % 256) as byte]
            && b[4..4 + n] == v && b[4 + n..] == if n > 1024 then md5(v) else v
  {
    FourBytes(|v|);
  }

  /** A buffer that is not accepted is reported as damaged. */
  lemma VerifyError(md5: Bytes -> Digest, b: Bytes)
    requires |b| >= VALUE_LEN
    ensures Verify(md5, b).Err? ==> Verify(md5, b).error == ErrTblDataMess
    ensures Verify(md5, b).Err? <==> forall v :: |v| < Pow256(VALUE_LEN) ==> !(Framed(md5, v) <= b)
  {
    forall v
      ensures Verify(md5, b) == Ok(v) <==> |v| < Pow256(VALUE_LEN) && Framed(md5, v) <= b
    {
      VerifyIff(md5, b, v);
    }
    if Verify(md5, b).Ok? {
      assert Framed(md5, Verify(md5, b).value) <= b;
    }
  }

  lemma FrameParts(md5: Bytes -> Digest, b: Bytes, v: Bytes)
    requires |b| >= VALUE_LEN && |v| < Pow256(VALUE_LEN) && Framed(md5, v) <= b
    ensures DecodeNum(b[..VALUE_LEN]) == |v|
    ensures b[VALUE_LEN..VALUE_LEN + |v|] == v
    ensures |v| > NEED_MD5_LEN ==> |b| >= VALUE_LEN + |v| + 16 && b[VALUE_LEN + |v|..VALUE_LEN + |v| + 16] == md5(v)
    ensures |v| <= NEED_MD5_LEN ==> |b| >= VALUE_LEN + |v| * 2 && b[VALUE_LEN + |v|..VALUE_LEN + |v| * 2] == v
  {
    var f := Framed(md5, v);
    NumRoundTrip(|v|, VALUE_LEN);
    assert b[..VALUE_LEN] == f[..VALUE_LEN] == EncodeNum(|v|, VALUE_LEN);
    assert b[..|f|] == f;
    assert b[VALUE_LEN..VALUE_LEN + |v|] == f[VALUE_LEN..VALUE_LEN + |v|];
    assert b[VALUE_LEN + |v|..|f|] == f[VALUE_LEN + |v|..];
  }

  lemma VerifyFramed(md5: Bytes -> Digest, v: Bytes)
    requires |v| < Pow256(VALUE_LEN)
    ensures Verify(md5, Framed(md5, v)) == Ok(v)
  {
    VerifyIff(md5, Framed(md5, v), v);
  }
}
