/**
 What the encodings look like byte by byte, and that the readers accept exactly them: a
 reader succeeds if and only if its input starts with an encoding, whatever follows.
 */
module CodecLayout {
  import opened Basics
  import opened Codec

  // ---- numbers

  /** Byte i of a four-byte number counts 256^i. */
  lemma FourBytes(n: nat)
    ensures EncodeNum(n, 4)
            == [(n % 256) as byte, (n / 256 % 256) as byte, (n / 65536 % 256) as byte, (n / 16777216 % 256) as byte]
  {
    assert n / 256 / 256 == n / 65536 && n / 65536 / 256 == n / 16777216;
    var a, b, c := n / 256, n / 256 / 256, n / 256 / 256 / 256;
    assert EncodeNum(c, 1) == [(c % 256) as byte] + EncodeNum(c / 256, 0);
    assert EncodeNum(b, 2) == [(b % 256) as byte] + EncodeNum(c, 1);
    assert EncodeNum(a, 3) == [(a % 256) as byte] + EncodeNum(b, 2);
  }

  lemma TwoBytes(n: nat)
    ensures EncodeNum(n, 2) == [(n % 256) as byte, (n / 256 % 256) as byte]
  {
    assert EncodeNum(n / 256, 1) == [(n / 256 % 256) as byte] + EncodeNum(n / 256 / 256, 0);
  }

  lemma OneByte(n: nat)
    ensures EncodeNum(n, 1) == [(n % 256) as byte]
  {
    assert EncodeNum(n, 1) == [(n % 256) as byte] + EncodeNum(n / 256, 0);
  }

  // ---- keys

  /** A node, service or batch key: '2', '3' or '4', one byte and the idc, two bytes and the path. */
  lemma UserKeyLayout(k: KeyParts)
    requires k.dataType == 50 || k.dataType == 51 || k.dataType == 52
    ensures var b, m := SerializeKey(k), |k.idc|;
            && |b| == 4 + m + |k.path|
            && b[0] == k.dataType && b[1] as int == m % 256 && b[2..2 + m] == k.idc
            && b[2 + m] as int == |k.path| % 256 && b[3 + m] as int == |k.path| / 256 % 256 && b[4 + m..] == k.path
  {
    OneByte(|k.idc|);
    TwoBytes(|k.path|);
  }

  /** The key of an idc's hosts is '1', one byte and the idc; that of the local idc is 'a'. */
  lemma OtherKeyLayout(idc: Bytes)
    ensures SerializeKey(KeyParts(49, idc, [])) == [49, (|idc| % 256) as byte] + idc
    ensures SerializeKey(KeyParts(97, [], [])) == [97]
  {
    OneByte(|idc|);
  }

  // ---- values

  /** Four bytes and the data, then the key. */
  lemma NodeLayout(key: Bytes, data: Bytes)
    ensures var b, n := NodeValue(key, data), |data|;
            && |b| == 4 + n + |key|
            && b[0] as int == n % 256 && b[1] as int == n / 256 % 256
            && b[2] as int == n / 65536 % 256 && b[3] as int == n / 16777216 % 256
            && b[4..4 + n] == data && b[4 + n..] == key
  {
    FourBytes(|data|);
  }

  /** Two bytes and the hosts, then the key. */
  lemma HostLayout(key: Bytes, host: Bytes)
    ensures var b, n := HostValue(key, host), |host|;
            && |b| == 2 + n + |key| && b[0] as int == n % 256 && b[1] as int == n / 256 % 256
            && b[2..2 + n] == host && b[2 + n..] == key
  {
    TwoBytes(|host|);
  }

  /** Where item i starts, behind a count of two bytes, with w bytes for each length. */
  function Offset(items: seq<Bytes>, w: nat, i: nat): (o: nat)
    requires i <= |items|
    ensures o >= 2
  {
    if i == 0 then 2 else Offset(items, w, i - 1) + w + |items[i - 1]|
  }

  lemma {:induction false} OffsetTail(items: seq<Bytes>, w: nat, i: nat)
    requires 0 < i <= |items|
    ensures Offset(items, w, i) == Offset(items[1..], w, i - 1) + w + |items[0]|
  {
    if i > 1 {
      OffsetTail(items, w, i - 1);
    }
  }

  /** A piece of the second of two strings, found in both together. */
  lemma Behind(a: Bytes, b: Bytes, o: nat, n: nat)
    requires o + n <= |b|
    ensures (a + b)[|a| + o..|a| + o + n] == b[o..o + n]
  {
  }

  /** A length of w bytes and then s, from position o on. */
  ghost predicate FieldAt(b: Bytes, o: nat, s: Bytes, w: nat) {
    o + w + |s| <= |b| && b[o..o + w + |s|] == Field(s, w)
  }

  lemma FieldBehind(a: Bytes, b: Bytes, o: nat, s: Bytes, w: nat)
    requires FieldAt(b, o, s, w)
    ensures FieldAt(a + b, |a| + o, s, w)
  {
    Behind(a, b, o, w + |s|);
  }

  lemma FieldBefore(a: Bytes, b: Bytes, o: nat, s: Bytes, w: nat)
    requires FieldAt(a, o, s, w)
    ensures FieldAt(a + b, o, s, w)
  {
    assert (a + b)[o..o + w + |s|] == a[o..o + w + |s|];
  }

  lemma FieldFirst(s: Bytes, w: nat, b: Bytes)
    ensures FieldAt(Field(s, w) + b, 0, s, w)
  {
  }

  /** The bytes of a field with a length of two bytes. */
  lemma ShortField(b: Bytes, o: nat, s: Bytes)
    requires FieldAt(b, o, s, 2)
    ensures b[o] as int == |s| % 256 && b[o + 1] as int == |s| / 256 % 256 && b[o + 2..o + 2 + |s|] == s
  {
    TwoBytes(|s|);
    var f := b[o..o + 2 + |s|];
    assert b[o] == f[0] && b[o + 1] == f[1] && b[o + 2..o + 2 + |s|] == f[2..];
  }

  /** The bytes of a field with a length of four bytes. */
  lemma LongField(b: Bytes, o: nat, s: Bytes)
    requires FieldAt(b, o, s, 4)
    ensures b[o] as int == |s| % 256 && b[o + 1] as int == |s| / 256 % 256
    ensures b[o + 2] as int == |s| / 65536 % 256 && b[o + 3] as int == |s| / 16777216 % 256
    ensures b[o + 4..o + 4 + |s|] == s
  {
    FourBytes(|s|);
    var f := b[o..o + 4 + |s|];
    assert b[o] == f[0] && b[o + 1] == f[1] && b[o + 2] == f[2] && b[o + 3] == f[3];
    assert b[o + 4..o + 4 + |s|] == f[4..];
  }

  /** The names one after the other, from the end of the count on. */
  lemma {:induction false} NamesAt(items: seq<Bytes>, i: nat)
    requires i < |items| && forall j :: 0 <= j < |items| ==> |items[j]| < Pow256(PATH_LEN)
    ensures FieldAt(Names(items), Offset(items, 2, i) - 2, items[i], 2)
  {
    FirstName(items);
    if i > 0 {
      NamesAt(items[1..], i - 1);
      OffsetTail(items, 2, i);
      var o: nat := Offset(items[1..], 2, i - 1) - 2;
      var first := Field(items[0], 2);
      assert Offset(items, 2, i) - 2 == |first| + o;
      FieldBehind(first, Names(items[1..]), o, items[i], 2);
    }
  }

  lemma FirstName(items: seq<Bytes>)
    requires items != [] && |items[0]| < Pow256(PATH_LEN)
    ensures Names(items) == Field(items[0], 2) + Names(items[1..]) && FieldAt(Names(items), 0, items[0], 2)
  {
    NameRoundTrip(items[0], []);
    FieldFirst(items[0], 2, Names(items[1..]));
  }

  lemma {:induction false} NamesLength(items: seq<Bytes>)
    requires forall j :: 0 <= j < |items| ==> |items[j]| < Pow256(PATH_LEN)
    ensures |Names(items)| == Offset(items, 2, |items|) - 2
  {
    if items != [] {
      NamesLength(items[1..]);
      OffsetTail(items, 2, |items|);
      FirstName(items);
    }
  }

  /** The largest numbers the length and count fields hold are 255, 65535 and 4294967295. */
  lemma Widths()
    ensures Pow256(IDC_LEN) == 256 && Pow256(PATH_LEN) == 65536 && Pow256(COUNT_LEN) == 65536
    ensures Pow256(VALUE_LEN) == 4294967296
  {
    assert Pow256(1) == 256 * Pow256(0) && Pow256(2) == 256 * Pow256(1);
    assert Pow256(3) == 256 * Pow256(2) && Pow256(4) == 256 * Pow256(3);
  }

  /** Two bytes with the count in front, the key at the end. */
  lemma VectorEnds(key: Bytes, nodes: seq<Bytes>)
    requires Listable(nodes)
    ensures var b := VectorValue(key, nodes);
            && |b| == Offset(nodes, 2, |nodes|) + |key|
            && b[..2] == [(|nodes| % 256) as byte, (|nodes| / 256 % 256) as byte]
            && b[|b| - |key|..] == key
  {
    NamesLength(nodes);
    TwoBytes(|nodes|);
  }

  /** In between, two bytes and the name for each child in turn. */
  lemma VectorLayout(key: Bytes, nodes: seq<Bytes>, i: nat)
    requires Listable(nodes) && i < |nodes|
    ensures FieldAt(VectorValue(key, nodes), Offset(nodes, 2, i), nodes[i], 2)
  {
    var o: nat := Offset(nodes, 2, i) - 2;
    NamesAt(nodes, i);
    FieldBehind(EncodeNum(|nodes|, COUNT_LEN), Names(nodes), o, nodes[i], 2);
    FieldBefore(EncodeNum(|nodes|, COUNT_LEN) + Names(nodes), key, o + 2, nodes[i], 2);
  }

  /** The items of a gray set have four bytes of length each. */
  lemma {:induction false} GrayItemsAt(items: seq<Bytes>, i: nat)
    requires i < |items|
    ensures FieldAt(GrayItems(items), Offset(items, 4, i) - 2, items[i], 4)
  {
    FieldFirst(items[0], 4, GrayItems(items[1..]));
    if i > 0 {
      GrayItemsAt(items[1..], i - 1);
      OffsetTail(items, 4, i);
      var o: nat := Offset(items[1..], 4, i - 1) - 2;
      var first := Field(items[0], 4);
      assert Offset(items, 4, i) - 2 == |first| + o;
      FieldBehind(first, GrayItems(items[1..]), o, items[i], 4);
    }
  }

  /** Two bytes with the count, then four bytes and the item for each in turn. */
  lemma GrayLayout(items: seq<Bytes>, i: nat)
    requires i < |items|
    ensures GrayValue(items)[..2] == [(|items| % 256) as byte, (|items| / 256 % 256) as byte]
    ensures FieldAt(GrayValue(items), Offset(items, 4, i), items[i], 4)
  {
    TwoBytes(|items|);
    GrayItemsAt(items, i);
    FieldBehind(EncodeNum(|items|, 2), GrayItems(items), Offset(items, 4, i) - 2, items[i], 4);
  }

  // ---- which children a service lists

  ghost predicate Increasing(idx: seq<nat>) {
    forall i, j :: 0 <= i < j < |idx| ==> idx[i] < idx[j]
  }

  /** names are those of all that stand at the positions idx, in order. */
  ghost predicate Picked(names: seq<Bytes>, all: seq<Bytes>, idx: seq<nat>) {
    && Increasing(idx) && |names| == |idx|
    && forall j :: 0 <= j < |idx| ==> idx[j] < |all| && names[j] == all[idx[j]]
  }

  /** The positions below n with status 0. */
  ghost predicate Positions(idx: seq<nat>, status: seq<int>, n: nat)
    requires n <= |status|
  {
    && (forall i :: i in idx ==> i < n)
    && forall i :: 0 <= i < n ==> (i in idx <==> status[i] == 0)
  }

  /** One more child is picked or passed over. */
  lemma PickMore(names: seq<Bytes>, all: seq<Bytes>, idx: seq<nat>, n: nat)
    requires Picked(names, all, idx) && n < |all| && forall i :: i in idx ==> i < n
    ensures Picked(names + [all[n]], all, idx + [n])
  {
    forall i, j | 0 <= i < j < |idx + [n]|
      ensures (idx + [n])[i] < (idx + [n])[j]
    {
      assert idx[i] in idx;
    }
  }

  lemma PositionsMore(idx: seq<nat>, status: seq<int>, n: nat)
    requires n < |status| && Positions(idx, status, n)
    ensures Positions(if status[n] == 0 then idx + [n] else idx, status, n + 1)
  {
  }

  ghost predicate PickedBelow(names: seq<Bytes>, all: seq<Bytes>, status: seq<int>, idx: seq<nat>, n: nat)
    requires n <= |status|
  {
    Picked(names, all, idx) && Positions(idx, status, n)
  }

  lemma PickStep(names: seq<Bytes>, all: seq<Bytes>, status: seq<int>, idx: seq<nat>, n: nat) returns (idx': seq<nat>)
    requires n < |all| == |status| && PickedBelow(names, all, status, idx, n)
    ensures PickedBelow(names + (if status[n] == STATUS_UP then [all[n]] else []), all, status, idx', n + 1)
  {
    PositionsMore(idx, status, n);
    if status[n] == 0 {
      PickMore(names, all, idx, n);
      idx' := idx + [n];
    } else {
      assert names + [] == names;
      idx' := idx;
    }
  }

  lemma {:induction false} UpOnlyPicksBelow(nodes: seq<Bytes>, status: seq<int>, n: nat) returns (idx: seq<nat>)
    requires |nodes| == |status| && n <= |nodes|
    ensures PickedBelow(UpOnly(nodes[..n], status[..n]), nodes, status, idx, n)
  {
    idx := [];
    if n > 0 {
      UpOnlyAppend(nodes, status, n - 1);
      idx := UpOnlyPicksBelow(nodes, status, n - 1);
      idx := PickStep(UpOnly(nodes[..n - 1], status[..n - 1]), nodes, status, idx, n - 1);
    }
  }

  /** A service lists the children with status 0, all of them, in their order, and no other. */
  lemma UpOnlyPicks(nodes: seq<Bytes>, status: seq<int>) returns (idx: seq<nat>)
    requires |nodes| == |status|
    ensures Picked(UpOnly(nodes, status), nodes, idx)
    ensures forall i :: 0 <= i < |nodes| ==> (i in idx <==> status[i] == 0)
  {
    idx := UpOnlyPicksBelow(nodes, status, |nodes|);
    assert nodes[..|nodes|] == nodes && status[..|nodes|] == status;
  }

  // ---- what the readers accept

  lemma FieldRead(b: Bytes, w: nat, s: Bytes, rest: Bytes)
    requires SubField(b, w) == Ok((s, rest))
    ensures |s| < Pow256(w) && b == Field(s, w) + rest
  {
    BytesRoundTrip(b[..w]);
    assert DecodeNum(b[..w]) == |s|;
  }

  /** A field is read from exactly the inputs that start with it. */
  lemma FieldExact(b: Bytes, w: nat, s: Bytes, rest: Bytes)
    ensures SubField(b, w) == Ok((s, rest)) <==> |s| < Pow256(w) && b == Field(s, w) + rest
  {
    if SubField(b, w) == Ok((s, rest)) {
      FieldRead(b, w, s, rest);
    }
    if |s| < Pow256(w) && b == Field(s, w) + rest {
      FieldRoundTrip(s, w, rest);
    }
  }

  lemma {:induction false} NamesExact(b: Bytes, n: nat, nodes: seq<Bytes>, rest: Bytes)
    requires SubNames(b, n) == Ok((nodes, rest))
    ensures |nodes| == n && b == Names(nodes) + rest
    decreases n
  {
    if n > 0 {
      var head := SubField(b, PATH_LEN).value;
      FieldExact(b, PATH_LEN, head.0, head.1);
      NamesExact(head.1, n - 1, nodes[1..], rest);
      NameRoundTrip(head.0, head.1);
      Assoc(NameField(head.0), Names(nodes[1..]), rest);
    }
  }

  /** A type byte, two fields and what follows. */
  lemma KeyParsed(b: Bytes, dataType: byte, idc: Bytes, path: Bytes, rest: Bytes)
    requires IsUserType(dataType) && |b| > 0 && b[0] == dataType
    requires b[1..] == Field(idc, IDC_LEN) + (Field(path, PATH_LEN) + rest)
    ensures b == SerializeKey(KeyParts(dataType, idc, path)) + rest
  {
    Assoc(Field(idc, IDC_LEN), Field(path, PATH_LEN), rest);
    assert b == [dataType] + b[1..];
  }

  lemma KeyTailExact(b: Bytes, dataType: byte, idc: Bytes, path: Bytes)
    requires IsUserType(dataType) && KeyTail(b, dataType) == Ok((idc, path))
    ensures Encodable(KeyParts(dataType, idc, path)) && SerializeKey(KeyParts(dataType, idc, path)) <= b
  {
    var first := SubField(b[1..], IDC_LEN).value;
    FieldRead(b[1..], IDC_LEN, first.0, first.1);
    var second := SubField(first.1, PATH_LEN).value;
    FieldRead(first.1, PATH_LEN, second.0, second.1);
    KeyParsed(b, dataType, idc, path, second.1);
  }

  lemma KeyTailPrefix(k: KeyParts, rest: Bytes)
    requires Encodable(k) && IsUserType(k.dataType)
    ensures KeyTail(SerializeKey(k) + rest, k.dataType) == Ok((k.idc, k.path))
  {
    KeyPrefixRoundTrip(k, rest);
  }

  lemma KeyRead(b: Bytes, k: KeyParts)
    requires DeserializeKey(b) == Ok(k)
    ensures Encodable(k) && SerializeKey(k) <= b
  {
    if IsUserType(b[0]) {
      KeyTailExact(b, b[0], k.idc, k.path);
    } else if b[0] == ZK_HOST {
      var idc := SubField(b[1..], IDC_LEN).value;
      FieldRead(b[1..], IDC_LEN, idc.0, idc.1);
      assert b == SerializeKey(k) + idc.1;
    }
  }

  /** A key is read from exactly the inputs that start with it. */
  lemma KeyExact(b: Bytes, k: KeyParts)
    ensures DeserializeKey(b) == Ok(k) <==> Encodable(k) && SerializeKey(k) <= b
  {
    if DeserializeKey(b) == Ok(k) {
      KeyRead(b, k);
    }
    if Encodable(k) && SerializeKey(k) <= b {
      KeyPrefixRoundTrip(k, b[|SerializeKey(k)|..]);
      assert b == SerializeKey(k) + b[|SerializeKey(k)|..];
    }
  }

  /** A key of an unknown type and one that is cut short are told apart. */
  lemma KeyErrors(b: Bytes)
    requires DeserializeKey(b).Err?
    ensures DeserializeKey(b).error
            == if b != [] && b[0] != 49 && b[0] != 50 && b[0] != 51 && b[0] != 52 && b[0] != 97 then ErrDataType
               else ErrDataFormat
  {
  }

  /** A node value is read from exactly the inputs that start with it. */
  lemma NodeExact(b: Bytes, data: Bytes, k: KeyParts)
    ensures ParseNode(b) == Ok((data, k))
            <==> k.dataType == NODE && Encodable(k) && |data| < Pow256(VALUE_LEN)
                 && NodeValue(SerializeKey(k), data) <= b
  {
    if ParseNode(b) == Ok((data, k)) {
      NodeRead(b, data, k);
    }
    if k.dataType == NODE && Encodable(k) && |data| < Pow256(VALUE_LEN) && NodeValue(SerializeKey(k), data) <= b {
      NodeAccepted(b, data, k);
    }
  }

  /** A string that starts with a and goes on with one that starts with key starts with both. */
  lemma Prefixes(a: Bytes, b: Bytes, key: Bytes)
    requires key <= b
    ensures a + key <= a + b
  {
  }

  lemma NodeRead(b: Bytes, data: Bytes, k: KeyParts)
    requires ParseNode(b) == Ok((data, k))
    ensures k.dataType == NODE && Encodable(k) && |data| < Pow256(VALUE_LEN) && NodeValue(SerializeKey(k), data) <= b
  {
    var val := SubField(b, VALUE_LEN).value;
    FieldExact(b, VALUE_LEN, val.0, val.1);
    KeyTailExact(val.1, NODE, k.idc, k.path);
    Prefixes(Field(data, VALUE_LEN), val.1, SerializeKey(k));
  }

  lemma NodeAccepted(b: Bytes, data: Bytes, k: KeyParts)
    requires k.dataType == NODE && Encodable(k) && |data| < Pow256(VALUE_LEN) && NodeValue(SerializeKey(k), data) <= b
    ensures ParseNode(b) == Ok((data, k))
  {
    var key := SerializeKey(k);
    var rest := b[|NodeValue(key, data)|..];
    assert b == Field(data, VALUE_LEN) + (key + rest);
    FieldRoundTrip(data, VALUE_LEN, key + rest);
    KeyTailPrefix(k, rest);
  }

  /** The values of an idc's hosts are read from exactly the inputs that start with them. */
  lemma HostExact(b: Bytes, host: Bytes, k: KeyParts)
    ensures ParseHost(b) == Ok((host, k))
            <==> k.dataType == ZK_HOST && Encodable(k) && |host| < Pow256(PATH_LEN)
                 && HostValue(SerializeKey(k), host) <= b
  {
    if ParseHost(b) == Ok((host, k)) {
      HostRead(b, host, k);
    }
    if k.dataType == ZK_HOST && Encodable(k) && |host| < Pow256(PATH_LEN) && HostValue(SerializeKey(k), host) <= b {
      HostAccepted(b, host, k);
    }
  }

  lemma HostRead(b: Bytes, host: Bytes, k: KeyParts)
    requires ParseHost(b) == Ok((host, k))
    ensures k.dataType == ZK_HOST && Encodable(k) && |host| < Pow256(PATH_LEN) && HostValue(SerializeKey(k), host) <= b
  {
    var val := SubField(b, PATH_LEN).value;
    FieldExact(b, PATH_LEN, val.0, val.1);
    var idc := SubField(val.1[1..], IDC_LEN).value;
    FieldExact(val.1[1..], IDC_LEN, idc.0, idc.1);
    assert val.1 == SerializeKey(k) + idc.1;
    Prefixes(Field(host, PATH_LEN), val.1, SerializeKey(k));
  }

  lemma HostAccepted(b: Bytes, host: Bytes, k: KeyParts)
    requires k.dataType == ZK_HOST && Encodable(k) && |host| < Pow256(PATH_LEN) && HostValue(SerializeKey(k), host) <= b
    ensures ParseHost(b) == Ok((host, k))
  {
    var key := SerializeKey(k);
    var rest := b[|HostValue(key, host)|..];
    assert b == Field(host, PATH_LEN) + (key + rest);
    FieldRoundTrip(host, PATH_LEN, key + rest);
    KeyPrefixRoundTrip(k, rest);
  }

  /** A list of children is read from exactly the inputs that start with it. */
  lemma VectorExact(b: Bytes, dataType: byte, nodes: seq<Bytes>, k: KeyParts)
    requires dataType == SERVICE || dataType == BATCH
    ensures ParseVector(b, dataType) == Ok((nodes, k))
            <==> k.dataType == dataType && Encodable(k) && Listable(nodes) && VectorValue(SerializeKey(k), nodes) <= b
  {
    if ParseVector(b, dataType) == Ok((nodes, k)) {
      VectorRead(b, dataType, nodes, k);
    }
    if k.dataType == dataType && Encodable(k) && Listable(nodes) && VectorValue(SerializeKey(k), nodes) <= b {
      VectorAccepted(b, nodes, k);
    }
  }

  lemma VectorRead(b: Bytes, dataType: byte, nodes: seq<Bytes>, k: KeyParts)
    requires (dataType == SERVICE || dataType == BATCH) && ParseVector(b, dataType) == Ok((nodes, k))
    ensures k.dataType == dataType && Encodable(k) && Listable(nodes) && VectorValue(SerializeKey(k), nodes) <= b
  {
    var list := SubVector(b).value;
    NamesExact(b[COUNT_LEN..], DecodeNum(b[..COUNT_LEN]), nodes, list.1);
    BytesRoundTrip(b[..COUNT_LEN]);
    KeyTailExact(list.1, dataType, k.idc, k.path);
    assert b == EncodeNum(|nodes|, COUNT_LEN) + Names(nodes) + list.1;
  }

  lemma VectorAccepted(b: Bytes, nodes: seq<Bytes>, k: KeyParts)
    requires (k.dataType == SERVICE || k.dataType == BATCH) && Encodable(k) && Listable(nodes)
    requires VectorValue(SerializeKey(k), nodes) <= b
    ensures ParseVector(b, k.dataType) == Ok((nodes, k))
  {
    var key := SerializeKey(k);
    var rest := b[|VectorValue(key, nodes)|..];
    assert b == EncodeNum(|nodes|, COUNT_LEN) + (Names(nodes) + (key + rest));
    NumRoundTrip(|nodes|, COUNT_LEN);
    assert b[..COUNT_LEN] == EncodeNum(|nodes|, COUNT_LEN);
    assert b[COUNT_LEN..] == Names(nodes) + (key + rest);
    NamesRoundTrip(nodes, key + rest);
    KeyTailPrefix(k, rest);
  }

  lemma ItemsPrefix(item: Bytes, items: seq<Bytes>, b: Bytes)
    requires GrayItems(items) <= b
    ensures GrayItems([item] + items) <= Field(item, VALUE_LEN) + b
    ensures (set x | x in [item] + items) == {item} + (set x | x in items)
  {
    assert ([item] + items)[1..] == items;
    Prefixes(Field(item, VALUE_LEN), b, GrayItems(items));
  }

  /** A gray set is read only from inputs that start with its items in some order. */
  lemma {:induction false} GrayExact(b: Bytes, n: nat) returns (items: seq<Bytes>)
    requires SubGray(b, n).Ok?
    ensures |items| == n && GrayItems(items) <= b && SubGray(b, n).value == (set x | x in items)
    ensures forall i :: 0 <= i < n ==> |items[i]| < Pow256(VALUE_LEN)
    decreases n
  {
    if n == 0 {
      items := [];
    } else {
      var head := SubField(b, VALUE_LEN).value;
      FieldExact(b, VALUE_LEN, head.0, head.1);
      var tail := GrayExact(head.1, n - 1);
      items := [head.0] + tail;
      ItemsPrefix(head.0, tail, head.1);
      ItemsSet(head.0, tail);
    }
  }

  lemma ItemsSet(first: Bytes, rest: seq<Bytes>)
    ensures (set x | x in [first] + rest) == {first} + (set x | x in rest)
  {
  }
}
