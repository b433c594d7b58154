/** The status of a server as the agent reads it from the data of its node. */
module ServiceStatus {
  import opened Basics

  predicate IsSpace(c: byte) {
    c == 32 || 9 <= c <= 13
  }

  /** The value of a digit, letters counting from ten. */
  function DigitOf(c: byte): Option<nat> {
    if 48 <= c <= 57 then Some(c as int - 48)
    else if 97 <= c <= 122 then Some(c as int - 87)
    else if 65 <= c <= 90 then Some(c as int - 55)
    else None
  }

  predicate IsDigit(c: byte, base: nat) {
    DigitOf(c).Some? && DigitOf(c).value < base
  }

  /** The bytes before the first zero byte. */
  function CString(b: Bytes): (c: Bytes)
    ensures c <= b
  {
    if b == [] || b[0] == 0 then [] else [b[0]] + CString(b[1..])
  }

  function SkipSpace(b: Bytes): Bytes {
    if b != [] && IsSpace(b[0]) then SkipSpace(b[1..]) else b
  }

  /** A number written with nothing but digits of the base. */
  function Digits(b: Bytes, base: nat): Option<nat> {
    if b == [] then None
    else if !IsDigit(b[|b| - 1], base) then None
    else
      var low := DigitOf(b[|b| - 1]).value;
      if |b| == 1 then Some(low)
      else
        match Digits(b[..|b| - 1], base)
        case None => None
        case Some(high) => Some(high * base + low)
  }

  /** A whole number in C notation: decimal, octal after 0, hexadecimal after 0x. */
  function Magnitude(b: Bytes): Option<nat> {
    if |b| > 2 && b[0] == 48 && (b[1] == 120 || b[1] == 88) && IsDigit(b[2], 16) then Digits(b[2..], 16)
    else Digits(b, if b != [] && b[0] == 48 then 8 else 10)
  }

  /** A number that takes up the whole string, after white space and a sign. */
  function Number(c: Bytes): Option<int> {
    var t := SkipSpace(c);
    var negative := t != [] && t[0] == 45;
    match Magnitude(if negative || (t != [] && t[0] == 43) then t[1..] else t)
    case None => None
    case Some(n) =>
      var value: int := n;
      Some(if negative then -value else value)
  }

  /**
   The status in the data of a server's node. Data that starts with a zero byte reads as
   zero: nothing is converted, and the check for further characters meets the zero byte.
   */
  function StatusOf(data: Bytes): (status: Option<int>)
    ensures status.Some? ==> status.value == STATUS_UP || status.value == STATUS_OFFLINE || status.value == STATUS_DOWN
  {
    if data == [] then None
    else
      var n := if data[0] == 0 then Some(0) else Number(CString(data));
      if n.Some? && 0 <= n.value <= 2 then n else None
  }

  /** The decimal digit of a status, as the monitor writes it. */
  function StatusDigit(status: int): Bytes
    requires 0 <= status <= 2
  {
    [(48 + status) as byte]
  }

  /** The agent reads every status back that the monitor writes. */
  lemma StatusRoundTrip(status: int)
    requires 0 <= status <= 2
    ensures StatusOf(StatusDigit(status)) == Some(status)
  {
    var data := StatusDigit(status);
    assert CString(data) == data && SkipSpace(data) == data;
    assert Digits(data, 8) == Some(status) && Digits(data, 10) == Some(status);
  }

  // ---- exactly which data has a valid status

  ghost predicate Zeros(b: Bytes) {
    forall i :: 0 <= i < |b| ==> b[i] == 48
  }

  ghost predicate Blank(b: Bytes) {
    forall i :: 0 <= i < |b| ==> b[i] == 32 || 9 <= b[i] <= 13
  }

  /** b is the status in decimal, octal or hexadecimal: perhaps 0x, then zeros, then its digit. */
  ghost predicate Spells(b: Bytes, s: int, prefix: Bytes, zeros: Bytes) {
    && 0 <= s <= 2 && (prefix == [] || prefix == [48, 120] || prefix == [48, 88]) && Zeros(zeros)
    && b == prefix + zeros + [(48 + s) as byte]
  }

  /** c is white space, then perhaps a sign, where only zero may be negative, then the status. */
  ghost predicate WrittenAs(c: Bytes, s: int, blank: Bytes, sign: Bytes, b: Bytes) {
    && Blank(blank) && (sign == [] || sign == [43] || (sign == [45] && s == 0))
    && c == blank + sign + b && exists prefix, zeros :: Spells(b, s, prefix, zeros)
  }

  lemma {:induction false} CStringEnds(data: Bytes, n: nat)
    requires n <= |data| && (forall i :: 0 <= i < n ==> data[i] != 0) && (n < |data| ==> data[n] == 0)
    ensures CString(data) == data[..n]
  {
    if n > 0 {
      CStringEnds(data[1..], n - 1);
      assert data[..n] == [data[0]] + data[1..][..n - 1];
    }
  }

  lemma {:induction false} SpaceSplit(c: Bytes) returns (blank: Bytes)
    ensures Blank(blank) && c == blank + SkipSpace(c)
    ensures SkipSpace(c) != [] ==> !IsSpace(SkipSpace(c)[0])
  {
    blank := [];
    if c != [] && IsSpace(c[0]) {
      blank := SpaceSplit(c[1..]);
      blank := [c[0]] + blank;
    }
  }

  lemma {:induction false} SpaceSkipped(blank: Bytes, rest: Bytes)
    requires Blank(blank) && (rest != [] ==> !IsSpace(rest[0]))
    ensures SkipSpace(blank + rest) == rest
  {
    if blank == [] {
      assert blank + rest == rest;
    } else {
      assert (blank + rest)[1..] == blank[1..] + rest;
      SpaceSkipped(blank[1..], rest);
    }
  }

  lemma ProductLarge(high: nat, base: nat)
    ensures high == 0 || high * base >= base
  {
  }

  /** A number of at most 2 is zeros and one digit. */
  lemma {:induction false} SmallDigits(b: Bytes, base: nat, s: nat) returns (zeros: Bytes)
    requires base >= 8 && s <= 2 && Digits(b, base) == Some(s)
    ensures Zeros(zeros) && b == zeros + [(48 + s) as byte]
  {
    var n := |b| - 1;
    zeros := [];
    if n > 0 {
      var high := Digits(b[..n], base).value;
      ProductLarge(high, base);
      var more := SmallDigits(b[..n], base, 0);
      zeros := more + [48];
    }
  }

  lemma LastDigit(b: Bytes, base: nat, low: nat)
    requires b != [] && low <= 2 < base && b[|b| - 1] as int == 48 + low
    requires |b| > 1 ==> Digits(b[..|b| - 1], base) == Some(0)
    ensures Digits(b, base) == Some(low)
  {
  }

  lemma {:induction false} DigitsSmall(b: Bytes, zeros: Bytes, base: nat, s: nat)
    requires 2 < base && s <= 2 && Zeros(zeros) && b == zeros + [(48 + s) as byte]
    ensures Digits(b, base) == Some(s)
    decreases |zeros|
  {
    var n := |zeros|;
    assert b[..n] == zeros;
    if n > 0 {
      assert zeros == zeros[..n - 1] + [48];
      DigitsSmall(zeros, zeros[..n - 1], base, 0);
    }
    LastDigit(b, base, s);
  }

  lemma HexSpelled(b: Bytes, s: nat, prefix: Bytes, digits: Bytes)
    requires s <= 2 && (prefix == [48, 120] || prefix == [48, 88]) && b == prefix + digits
    requires digits != [] && 48 <= digits[0] <= 50 && Digits(digits, 16) == Some(s)
    ensures Magnitude(b) == Some(s)
  {
    assert b[2..] == digits && b[0] == prefix[0] && b[1] == prefix[1] && b[2] == digits[0];
  }

  lemma MagnitudeSpelled(b: Bytes, s: int, prefix: Bytes, zeros: Bytes)
    requires Spells(b, s, prefix, zeros)
    ensures Magnitude(b) == Some(s)
  {
    var digits := zeros + [(48 + s) as byte];
    assert b == prefix + digits;
    if prefix != [] {
      DigitsSmall(digits, zeros, 16, s);
      HexSpelled(b, s, prefix, digits);
    } else {
      assert b == digits && (|b| > 1 ==> b[1] != 120 && b[1] != 88);
      DigitsSmall(b, zeros, if b[0] == 48 then 8 else 10, s);
    }
  }

  lemma SpelledMagnitude(b: Bytes, s: nat) returns (prefix: Bytes, zeros: Bytes)
    requires s <= 2 && Magnitude(b) == Some(s)
    ensures Spells(b, s, prefix, zeros)
  {
    if |b| > 2 && b[0] == 48 && (b[1] == 120 || b[1] == 88) && IsDigit(b[2], 16) {
      prefix := b[..2];
      zeros := SmallDigits(b[2..], 16, s);
      assert b == b[..2] + b[2..];
    } else {
      prefix := [];
      zeros := SmallDigits(b, if b != [] && b[0] == 48 then 8 else 10, s);
    }
  }

  lemma SpelledFirst(b: Bytes, s: int, prefix: Bytes, zeros: Bytes)
    requires Spells(b, s, prefix, zeros)
    ensures b != [] && 48 <= b[0] <= 50
  {
    assert b[0] == if prefix != [] then prefix[0] else if zeros != [] then zeros[0] else (48 + s) as byte;
  }

  lemma SignedNumber(blank: Bytes, sign: Bytes, b: Bytes, s: int)
    requires Blank(blank) && (sign == [] || sign == [43] || sign == [45]) && b != [] && 48 <= b[0] <= 50
    requires s >= 0 && Magnitude(b) == Some(s)
    ensures Number(blank + (sign + b)) == Some(if sign == [45] then 0 - s else s)
  {
    var t := sign + b;
    SpaceSkipped(blank, t);
    if sign == [] {
      assert t == b;
    } else {
      assert t[1..] == b;
    }
  }

  lemma NumberWritten(c: Bytes, s: int, blank: Bytes, sign: Bytes, b: Bytes)
    requires WrittenAs(c, s, blank, sign, b)
    ensures Number(c) == Some(s) && c != []
  {
    var prefix, zeros :| Spells(b, s, prefix, zeros);
    MagnitudeSpelled(b, s, prefix, zeros);
    SpelledFirst(b, s, prefix, zeros);
    assert c == blank + (sign + b);
    SignedNumber(blank, sign, b, s);
  }

  lemma SignSplit(t: Bytes) returns (sign: Bytes, b: Bytes)
    ensures t == sign + b
    ensures t != [] && (t[0] == 45 || t[0] == 43) ==> sign == [t[0]] && b == t[1..]
    ensures !(t != [] && (t[0] == 45 || t[0] == 43)) ==> sign == [] && b == t
  {
    if t != [] && (t[0] == 45 || t[0] == 43) {
      sign, b := t[..1], t[1..];
    } else {
      sign, b := [], t;
    }
  }

  lemma NumberParts(c: Bytes, s: nat, sign: Bytes, b: Bytes)
    requires Number(c) == Some(s)
    requires var t := SkipSpace(c);
             if t != [] && (t[0] == 45 || t[0] == 43) then sign == [t[0]] && b == t[1..] else sign == [] && b == t
    ensures Magnitude(b) == Some(s) && (sign == [45] ==> s == 0)
  {
  }

  lemma WrittenNumber(c: Bytes, s: nat) returns (blank: Bytes, sign: Bytes, b: Bytes)
    requires s <= 2 && Number(c) == Some(s)
    ensures WrittenAs(c, s, blank, sign, b)
  {
    blank := SpaceSplit(c);
    sign, b := SignSplit(SkipSpace(c));
    NumberParts(c, s, sign, b);
    var prefix, zeros := SpelledMagnitude(b, s);
    assert c == blank + sign + b && Spells(b, s, prefix, zeros);
  }

  /**
   The status of data whose first zero byte, if any, is at n: zero for data that starts with
   a zero byte; else s exactly when the bytes before n are white space, perhaps a sign, and
   the status in C notation. All other data has no valid status.
   */
  lemma StatusExact(data: Bytes, n: nat, s: int)
    requires n <= |data| && (forall i :: 0 <= i < n ==> data[i] != 0) && (n < |data| ==> data[n] == 0)
    ensures StatusOf(data) == Some(s)
            <==> (data != [] && n == 0 && s == 0) || exists blank, sign, b :: WrittenAs(data[..n], s, blank, sign, b)
  {
    CStringEnds(data, n);
    if blank, sign, b :| WrittenAs(data[..n], s, blank, sign, b) {
      NumberWritten(data[..n], s, blank, sign, b);
    } else if StatusOf(data) == Some(s) && n > 0 {
      var blank, sign, b := WrittenNumber(data[..n], s);
    }
  }
}
