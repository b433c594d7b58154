/**
 Table keys and table values as byte strings: length-prefixed fields with
 little-endian lengths. A value carries its own key at the end, so that the full
 key can be read back from it.
 */
module Codec {
  import opened Basics

  const ZK_HOST: byte := 49     // '1'
  const NODE: byte := 50        // '2'
  const SERVICE: byte := 51     // '3'
  const BATCH: byte := 52       // '4'
  const LOCAL_IDC: byte := 97   // 'a'

  const IDC_LEN: nat := 1       // bytes of an idc length
  const PATH_LEN: nat := 2      // bytes of a path, host or child-name length
  const COUNT_LEN: nat := 2     // bytes of a vector count
  const VALUE_LEN: nat := 4     // bytes of a node value length

  predicate IsUserType(t: byte) {
    t == NODE || t == SERVICE || t == BATCH
  }

  // ---- numbers

  function Pow256(w: nat): (p: nat)
    ensures p >= 1
  {
    if w == 0 then 1 else 256 * Pow256(w - 1)
  }

  /** The w low-order bytes of n, least significant first. */
  function EncodeNum(n: nat, w: nat): (b: Bytes)
    ensures |b| == w
  {
    if w == 0 then [] else [(n % 256) as byte] + EncodeNum(n / 256, w - 1)
  }

  function DecodeNum(b: Bytes): (n: nat)
    ensures n < Pow256(|b|)
  {
    if b == [] then 0 else (b[0] as int) + 256 * DecodeNum(b[1..])
  }

  /** A number is read back exactly when it fits its field. */
  lemma {:induction false} NumRoundTrip(n: nat, w: nat)
    ensures DecodeNum(EncodeNum(n, w)) == n <==> n < Pow256(w)
  {
    if n < Pow256(w) {
      NumFits(n, w);
    }
  }

  lemma {:induction false} NumFits(n: nat, w: nat)
    requires n < Pow256(w)
    ensures DecodeNum(EncodeNum(n, w)) == n
  {
    if w > 0 {
      NumFits(n / 256, w - 1);
      assert EncodeNum(n, w)[1..] == EncodeNum(n / 256, w - 1);
    }
  }

  lemma LowByte(low: nat, high: nat)
    requires low < 256
    ensures (low + 256 * high) % 256 == low && (low + 256 * high) / 256 == high
  {
  }

  /** Every byte string of the field's width is the encoding of the number it decodes to. */
  lemma {:induction false} BytesRoundTrip(b: Bytes)
    ensures EncodeNum(DecodeNum(b), |b|) == b
  {
    if b != [] {
      BytesRoundTrip(b[1..]);
      LowByte(b[0] as int, DecodeNum(b[1..]));
      assert b == [b[0]] + b[1..];
    }
  }

  /** The portable encoding loop: byte i is the number shifted right by i bytes. */
  method EncodeNumLoop(num: nat, width: nat) returns (buf: Bytes)
    ensures buf == EncodeNum(num, width)
  {
    buf := [];
    var rest := num;
    for i := 0 to width
      invariant EncodeNum(num, width) == buf + EncodeNum(rest, width - i)
    {
      buf := buf + [(rest % 256) as byte];
      rest := rest / 256;
    }
  }

  /** The portable decoding loop: byte i counts 256^i. */
  method DecodeNumLoop(buf: Bytes) returns (num: nat)
    ensures num == DecodeNum(buf)
  {
    num := 0;
    var weight := 1;
    for i := 0 to |buf|
      invariant DecodeNum(buf) == num + weight * DecodeNum(buf[i..])
      invariant weight >= 1
    {
      assert buf[i..][1..] == buf[i + 1..];
      DecodeShift(weight, buf[i] as int, DecodeNum(buf[i + 1..]));
      num := num + weight * (buf[i] as int);
      weight := weight * 256;
    }
  }

  lemma DecodeShift(w: nat, x: nat, y: nat)
    ensures w * (x + 256 * y) == w * x + (w * 256) * y
  {
  }

  // ---- fields

  /** A length of w bytes, cut to that width, followed by the whole string. */
  function Field(s: Bytes, w: nat): Bytes {
    EncodeNum(|s|, w) + s
  }

  /** A length cut to the two bytes of its field. */
  function Cut(n: nat): (r: nat)
    ensures r <= n && r < Pow256(PATH_LEN)
  {
    n % Pow256(PATH_LEN)
  }

  /** A child name: both the length and the bytes are cut to what the length field holds. */
  function NameField(s: Bytes): Bytes {
    var n := Cut(|s|);
    EncodeNum(n, PATH_LEN) + s[..n]
  }

  /** Reads a field at the front and returns it with the bytes after it. */
  function SubField(b: Bytes, w: nat): (r: Result<(Bytes, Bytes)>)
    ensures r.Ok? ==> |b| >= w && |r.value.0| < Pow256(w) && b == b[..w] + r.value.0 + r.value.1
    ensures r.Err? ==> r.error == ErrDataFormat
  {
    if |b| < w then Err(ErrDataFormat)
    else
      var n := DecodeNum(b[..w]);
      if |b| < w + n then Err(ErrDataFormat) else Ok((b[w..w + n], b[w + n..]))
  }

  lemma FieldRoundTrip(s: Bytes, w: nat, rest: Bytes)
    requires |s| < Pow256(w)
    ensures SubField(Field(s, w) + rest, w) == Ok((s, rest))
  {
    NumRoundTrip(|s|, w);
    assert (Field(s, w) + rest)[..w] == EncodeNum(|s|, w);
  }

  lemma NameRoundTrip(s: Bytes, rest: Bytes)
    requires |s| < Pow256(PATH_LEN)
    ensures NameField(s) == Field(s, PATH_LEN)
    ensures SubField(NameField(s) + rest, PATH_LEN) == Ok((s, rest))
  {
    assert s[..|s|] == s;
    FieldRoundTrip(s, PATH_LEN, rest);
  }

  // ---- table keys

  datatype KeyParts = KeyParts(dataType: byte, idc: Bytes, path: Bytes)

  function SerializeKey(k: KeyParts): Bytes {
    [k.dataType] +
    if IsUserType(k.dataType) then Field(k.idc, IDC_LEN) + Field(k.path, PATH_LEN)
    else if k.dataType == ZK_HOST then Field(k.idc, IDC_LEN)
    else []
  }

  /** The key under which the local idc is stored. */
  const LOCAL_IDC_KEY: Bytes := SerializeKey(KeyParts(LOCAL_IDC, [], []))

  function DeserializeKey(b: Bytes): (r: Result<KeyParts>) {
    if |b| == 0 then Err(ErrDataFormat)
    else if IsUserType(b[0]) then
      var idc :- SubField(b[1..], IDC_LEN);
      var path :- SubField(idc.1, PATH_LEN);
      Ok(KeyParts(b[0], idc.0, path.0))
    else if b[0] == ZK_HOST then
      var idc :- SubField(b[1..], IDC_LEN);
      Ok(KeyParts(b[0], idc.0, []))
    else if b[0] == LOCAL_IDC then Ok(KeyParts(b[0], [], []))
    else Err(ErrDataType)
  }

  /** The parts that a key of its type carries, within the field widths. */
  predicate Encodable(k: KeyParts) {
    && |k.idc| < Pow256(IDC_LEN) && |k.path| < Pow256(PATH_LEN)
    && (IsUserType(k.dataType) || (k.dataType == ZK_HOST && k.path == [])
        || (k.dataType == LOCAL_IDC && k.idc == [] && k.path == []))
  }

  lemma KeyPrefixRoundTrip(k: KeyParts, rest: Bytes)
    requires Encodable(k)
    ensures DeserializeKey(SerializeKey(k) + rest) == Ok(k)
  {
    var b := SerializeKey(k) + rest;
    if IsUserType(k.dataType) {
      assert b[1..] == Field(k.idc, IDC_LEN) + (Field(k.path, PATH_LEN) + rest);
      FieldRoundTrip(k.idc, IDC_LEN, Field(k.path, PATH_LEN) + rest);
      FieldRoundTrip(k.path, PATH_LEN, rest);
    } else if k.dataType == ZK_HOST {
      assert b[1..] == Field(k.idc, IDC_LEN) + rest;
      FieldRoundTrip(k.idc, IDC_LEN, rest);
    }
  }

  /** A key decodes to the parts it was made of exactly when they fit its fields. */
  lemma KeyRoundTrip(k: KeyParts)
    ensures DeserializeKey(SerializeKey(k)) == Ok(k) <==> Encodable(k)
  {
    if Encodable(k) {
      KeyPrefixRoundTrip(k, []);
      assert SerializeKey(k) + [] == SerializeKey(k);
    }
  }

  /** Distinct parts give distinct keys. */
  lemma KeyInjective(k1: KeyParts, k2: KeyParts)
    requires Encodable(k1) && Encodable(k2) && SerializeKey(k1) == SerializeKey(k2)
    ensures k1 == k2
  {
    KeyRoundTrip(k1);
    KeyRoundTrip(k2);
  }

  // ---- node values

  function NodeValue(key: Bytes, nodeVal: Bytes): Bytes {
    Field(nodeVal, VALUE_LEN) + key
  }

  /** The idc and path at the front of b, when b starts as a key of the given type. */
  function KeyTail(b: Bytes, dataType: byte): Result<(Bytes, Bytes)> {
    if |b| < 1 || b[0] != dataType then Err(ErrDataFormat)
    else
      var idc :- SubField(b[1..], IDC_LEN);
      var path :- SubField(idc.1, PATH_LEN);
      Ok((idc.0, path.0))
  }

  function ParseNode(b: Bytes): Result<(Bytes, KeyParts)> {
    var val :- SubField(b, VALUE_LEN);
    var tail :- KeyTail(val.1, NODE);
    Ok((val.0, KeyParts(NODE, tail.0, tail.1)))
  }

  lemma KeyTailRoundTrip(k: KeyParts)
    requires Encodable(k) && IsUserType(k.dataType)
    ensures KeyTail(SerializeKey(k), k.dataType) == Ok((k.idc, k.path))
  {
    KeyPrefixRoundTrip(k, []);
    assert SerializeKey(k) + [] == SerializeKey(k);
  }

  /** A node value gives back the node's data and the whole key. */
  lemma NodeRoundTrip(k: KeyParts, nodeVal: Bytes)
    requires k.dataType == NODE && Encodable(k)
    ensures ParseNode(NodeValue(SerializeKey(k), nodeVal)) == Ok((nodeVal, k)) <==> |nodeVal| < Pow256(VALUE_LEN)
  {
    if |nodeVal| < Pow256(VALUE_LEN) {
      FieldRoundTrip(nodeVal, VALUE_LEN, SerializeKey(k));
      KeyTailRoundTrip(k);
    }
  }

  // ---- lists of children

  function Names(nodes: seq<Bytes>): Bytes {
    if nodes == [] then [] else NameField(nodes[0]) + Names(nodes[1..])
  }

  function VectorValue(key: Bytes, nodes: seq<Bytes>): Bytes {
    EncodeNum(|nodes|, COUNT_LEN) + Names(nodes) + key
  }

  function SubNames(b: Bytes, n: nat): (r: Result<(seq<Bytes>, Bytes)>)
    ensures r.Ok? ==> |r.value.0| == n
    ensures r.Err? ==> r.error == ErrDataFormat
    ensures r.Ok? ==> forall i :: 0 <= i < n ==> |r.value.0[i]| < Pow256(PATH_LEN)
  {
    if n == 0 then Ok(([], b))
    else
      var head :- SubField(b, PATH_LEN);
      var tail :- SubNames(head.1, n - 1);
      Ok(([head.0] + tail.0, tail.1))
  }

  function SubVector(b: Bytes): (r: Result<(seq<Bytes>, Bytes)>)
    ensures r.Ok? ==> |r.value.0| < Pow256(COUNT_LEN)
    ensures r.Err? ==> r.error == ErrDataFormat
    ensures r.Ok? ==> forall i :: 0 <= i < |r.value.0| ==> |r.value.0[i]| < Pow256(PATH_LEN)
  {
    if |b| < COUNT_LEN then Err(ErrDataFormat)
    else SubNames(b[COUNT_LEN..], DecodeNum(b[..COUNT_LEN]))
  }

  function ParseVector(b: Bytes, dataType: byte): Result<(seq<Bytes>, KeyParts)> {
    var nodes :- SubVector(b);
    var tail :- KeyTail(nodes.1, dataType);
    Ok((nodes.0, KeyParts(dataType, tail.0, tail.1)))
  }

  predicate Listable(nodes: seq<Bytes>) {
    |nodes| < Pow256(COUNT_LEN) && forall i :: 0 <= i < |nodes| ==> |nodes[i]| < Pow256(PATH_LEN)
  }

  lemma {:induction false} NamesRoundTrip(nodes: seq<Bytes>, rest: Bytes)
    requires forall i :: 0 <= i < |nodes| ==> |nodes[i]| < Pow256(PATH_LEN)
    ensures SubNames(Names(nodes) + rest, |nodes|) == Ok((nodes, rest))
  {
    if nodes == [] {
      assert Names(nodes) + rest == rest;
    } else {
      assert Names(nodes) + rest == NameField(nodes[0]) + (Names(nodes[1..]) + rest);
      NameRoundTrip(nodes[0], Names(nodes[1..]) + rest);
      NamesRoundTrip(nodes[1..], rest);
      assert [nodes[0]] + nodes[1..] == nodes;
    }
  }

  /** A list of children is read back with its key exactly when count and names fit their fields. */
  lemma VectorRoundTrip(k: KeyParts, nodes: seq<Bytes>)
    requires (k.dataType == SERVICE || k.dataType == BATCH) && Encodable(k)
    ensures ParseVector(VectorValue(SerializeKey(k), nodes), k.dataType) == Ok((nodes, k)) <==> Listable(nodes)
  {
    if Listable(nodes) {
      var b := VectorValue(SerializeKey(k), nodes);
      NumRoundTrip(|nodes|, COUNT_LEN);
      assert b[..COUNT_LEN] == EncodeNum(|nodes|, COUNT_LEN);
      assert b[COUNT_LEN..] == Names(nodes) + SerializeKey(k);
      NamesRoundTrip(nodes, SerializeKey(k));
      KeyTailRoundTrip(k);
    }
  }

  /** The children whose status is up, in order. */
  function UpOnly(nodes: seq<Bytes>, status: seq<int>): (up: seq<Bytes>)
    requires |nodes| == |status|
    ensures |up| <= |nodes|
  {
    if nodes == [] then []
    else (if status[0] == STATUS_UP then [nodes[0]] else []) + UpOnly(nodes[1..], status[1..])
  }

  lemma {:induction false} NamesAppend(nodes: seq<Bytes>, x: Bytes)
    ensures Names(nodes + [x]) == Names(nodes) + NameField(x)
  {
    if nodes == [] {
      assert nodes + [x] == [x];
      assert Names([x]) == NameField(x) + Names([]);
    } else {
      NamesAppend(nodes[1..], x);
      assert (nodes + [x])[1..] == nodes[1..] + [x];
      Assoc(NameField(nodes[0]), Names(nodes[1..]), NameField(x));
    }
  }

  lemma Assoc(a: Bytes, b: Bytes, c: Bytes)
    ensures a + b + c == a + (b + c)
  {
  }

  lemma {:induction false} UpOnlyAppend(nodes: seq<Bytes>, status: seq<int>, n: nat)
    requires |nodes| == |status| && n < |nodes|
    ensures UpOnly(nodes[..n + 1], status[..n + 1])
            == UpOnly(nodes[..n], status[..n]) + (if status[n] == STATUS_UP then [nodes[n]] else [])
  {
    if n > 0 {
      UpOnlyAppend(nodes[1..], status[1..], n - 1);
      assert nodes[..n + 1][1..] == nodes[1..][..n] && status[..n + 1][1..] == status[1..][..n];
      assert nodes[..n][1..] == nodes[1..][..n - 1] && status[..n][1..] == status[1..][..n - 1];
    }
  }

  method EncodeBatch(key: Bytes, nodes: seq<Bytes>) returns (tblVal: Bytes)
    ensures tblVal == VectorValue(key, nodes)
  {
    tblVal := EncodeNum(|nodes|, COUNT_LEN);
    for i := 0 to |nodes|
      invariant tblVal == EncodeNum(|nodes|, COUNT_LEN) + Names(nodes[..i])
    {
      NamesAppend(nodes[..i], nodes[i]);
      assert nodes[..i] + [nodes[i]] == nodes[..i + 1];
      var size := Cut(|nodes[i]|);
      ghost var before := tblVal;
      tblVal := tblVal + EncodeNum(size, PATH_LEN);
      tblVal := tblVal + nodes[i][..size];
      Assoc(before, EncodeNum(size, PATH_LEN), nodes[i][..size]);
      Assoc(EncodeNum(|nodes|, COUNT_LEN), Names(nodes[..i]), NameField(nodes[i]));
    }
    assert nodes[..|nodes|] == nodes;
    tblVal := tblVal + key;
  }

  method CountUp(nodes: seq<Bytes>, status: seq<int>) returns (validCnt: nat)
    requires |nodes| == |status|
    ensures validCnt == |UpOnly(nodes, status)|
  {
    assert nodes[..|nodes|] == nodes && status[..|status|] == status;
    validCnt := 0;
    for i := 0 to |nodes|
      invariant validCnt == |UpOnly(nodes[..i], status[..i])|
    {
      UpOnlyAppend(nodes, status, i);
      if status[i] == STATUS_UP { validCnt := validCnt + 1; }
    }
  }

  lemma UpNamesAppend(nodes: seq<Bytes>, status: seq<int>, n: nat)
    requires |nodes| == |status| && n < |nodes|
    ensures Names(UpOnly(nodes[..n + 1], status[..n + 1]))
            == Names(UpOnly(nodes[..n], status[..n])) + (if status[n] == STATUS_UP then NameField(nodes[n]) else [])
  {
    UpOnlyAppend(nodes, status, n);
    if status[n] == STATUS_UP {
      NamesAppend(UpOnly(nodes[..n], status[..n]), nodes[n]);
    } else {
      assert UpOnly(nodes[..n + 1], status[..n + 1]) == UpOnly(nodes[..n], status[..n]);
    }
  }

  method AppendUp(nodes: seq<Bytes>, status: seq<int>) returns (names: Bytes)
    requires |nodes| == |status|
    ensures names == Names(UpOnly(nodes, status))
  {
    names := [];
    for i := 0 to |nodes|
      invariant names == Names(UpOnly(nodes[..i], status[..i]))
    {
      UpNamesAppend(nodes, status, i);
      if status[i] == STATUS_UP {
        var size := Cut(|nodes[i]|);
        names := names + (EncodeNum(size, PATH_LEN) + nodes[i][..size]);
      }
    }
    assert nodes[..|nodes|] == nodes && status[..|status|] == status;
  }

  /** A service value lists the children that are up. */
  method EncodeService(key: Bytes, nodes: seq<Bytes>, status: seq<int>) returns (tblVal: Bytes)
    requires |nodes| == |status|
    ensures tblVal == VectorValue(key, UpOnly(nodes, status))
  {
    var validCnt := CountUp(nodes, status);
    tblVal := EncodeNum(validCnt, COUNT_LEN);
    var names := AppendUp(nodes, status);
    tblVal := tblVal + names;
    tblVal := tblVal + key;
  }

  /** Reads a field of width w at pos; pos moves past it. */
  method DecodeField(s: Bytes, pos: nat, w: nat) returns (r: Result<(Bytes, nat)>)
    requires pos <= |s|
    ensures r.Ok? <==> SubField(s[pos..], w).Ok?
    ensures r.Ok? ==> pos <= r.value.1 <= |s| && SubField(s[pos..], w) == Ok((r.value.0, s[r.value.1..]))
    ensures r.Err? ==> r.error == ErrDataFormat
  {
    if |s| < pos + w {
      return Err(ErrDataFormat);
    }
    assert s[pos..][..w] == s[pos..pos + w];
    var size := DecodeNumLoop(s[pos..pos + w]);
    var p := pos + w;
    if |s| < p + size {
      return Err(ErrDataFormat);
    }
    assert s[pos..][w..w + size] == s[p..p + size];
    assert s[pos..][w + size..] == s[p + size..];
    return Ok((s[p..p + size], p + size));
  }

  /** Reads a list of children at pos; pos moves past it. */
  method DecodeVector(tblVal: Bytes, pos: nat) returns (r: Result<(seq<Bytes>, nat)>)
    requires pos <= |tblVal|
    ensures r.Ok? <==> SubVector(tblVal[pos..]).Ok?
    ensures r.Ok? ==> r.value.1 <= |tblVal| && SubVector(tblVal[pos..]) == Ok((r.value.0, tblVal[r.value.1..]))
    ensures r.Err? ==> r.error == ErrDataFormat
  {
    if |tblVal| < pos + COUNT_LEN {
      return Err(ErrDataFormat);
    }
    var count := DecodeNumLoop(tblVal[pos..pos + COUNT_LEN]);
    assert tblVal[pos..][..COUNT_LEN] == tblVal[pos..pos + COUNT_LEN];
    var p: nat := pos + COUNT_LEN;
    assert tblVal[pos..][COUNT_LEN..] == tblVal[p..];
    var nodes: seq<Bytes> := [];
    for i := 0 to count
      invariant p <= |tblVal|
      invariant NamesLeft(SubVector(tblVal[pos..]), nodes, SubNames(tblVal[p..], count - i))
    {
      var name := DecodeField(tblVal, p, PATH_LEN);
      if name.Err? {
        return Err(ErrDataFormat);
      }
      NamesStep(SubVector(tblVal[pos..]), nodes, tblVal[p..], count - i, name.value.0, tblVal[name.value.1..]);
      nodes := nodes + [name.value.0];
      p := name.value.1;
    }
    assert nodes + [] == nodes;
    return Ok((nodes, p));
  }

  /** The whole list is what has been read followed by what is left to read. */
  ghost predicate NamesLeft(all: Result<(seq<Bytes>, Bytes)>, nodes: seq<Bytes>, left: Result<(seq<Bytes>, Bytes)>) {
    && (all.Ok? <==> left.Ok?)
    && (left.Ok? ==> all.value.0 == nodes + left.value.0 && all.value.1 == left.value.1)
  }

  lemma NamesStep(all: Result<(seq<Bytes>, Bytes)>, nodes: seq<Bytes>, b: Bytes, n: nat, name: Bytes, rest: Bytes)
    requires n > 0 && NamesLeft(all, nodes, SubNames(b, n)) && SubField(b, PATH_LEN) == Ok((name, rest))
    ensures NamesLeft(all, nodes + [name], SubNames(rest, n - 1))
  {
  }

  // ---- hosts

  function HostValue(key: Bytes, host: Bytes): Bytes {
    Field(host, PATH_LEN) + key
  }

  function ParseHost(b: Bytes): Result<(Bytes, KeyParts)> {
    var host :- SubField(b, PATH_LEN);
    if |host.1| < 1 || host.1[0] != ZK_HOST then Err(ErrDataFormat)
    else
      var idc :- SubField(host.1[1..], IDC_LEN);
      Ok((host.0, KeyParts(ZK_HOST, idc.0, [])))
  }

  lemma HostRoundTrip(k: KeyParts, host: Bytes)
    requires k.dataType == ZK_HOST && Encodable(k)
    ensures ParseHost(HostValue(SerializeKey(k), host)) == Ok((host, k)) <==> |host| < Pow256(PATH_LEN)
  {
    if |host| < Pow256(PATH_LEN) {
      FieldRoundTrip(host, PATH_LEN, SerializeKey(k));
      assert SerializeKey(k)[1..] == Field(k.idc, IDC_LEN) + [];
      FieldRoundTrip(k.idc, IDC_LEN, []);
    }
  }

  // ---- gray node sets

  function GrayItems(items: seq<Bytes>): Bytes {
    if items == [] then [] else Field(items[0], VALUE_LEN) + GrayItems(items[1..])
  }

  /** The items of a gray set in some order. */
  function GrayValue(items: seq<Bytes>): Bytes {
    EncodeNum(|items|, COUNT_LEN) + GrayItems(items)
  }

  function SubGray(b: Bytes, n: nat): (r: Result<set<Bytes>>) {
    if n == 0 then Ok({})
    else
      var head :- SubField(b, VALUE_LEN);
      var tail :- SubGray(head.1, n - 1);
      Ok({head.0} + tail)
  }

  function ParseGray(b: Bytes): Result<set<Bytes>> {
    if |b| < COUNT_LEN then Err(ErrOther) else SubGray(b[COUNT_LEN..], DecodeNum(b[..COUNT_LEN]))
  }

  lemma {:induction false} GrayItemsRoundTrip(items: seq<Bytes>, rest: Bytes)
    requires forall i :: 0 <= i < |items| ==> |items[i]| < Pow256(VALUE_LEN)
    ensures SubGray(GrayItems(items) + rest, |items|) == Ok(set x | x in items)
  {
    if items == [] {
      assert (set x | x in items) == {};
    } else {
      assert GrayItems(items) + rest == Field(items[0], VALUE_LEN) + (GrayItems(items[1..]) + rest);
      FieldRoundTrip(items[0], VALUE_LEN, GrayItems(items[1..]) + rest);
      GrayItemsRoundTrip(items[1..], rest);
      assert (set x | x in items) == {items[0]} + (set x | x in items[1..]);
    }
  }

  method EncodeGray(items: seq<Bytes>) returns (tblVal: Bytes)
    ensures tblVal == GrayValue(items)
  {
    tblVal := EncodeNum(|items|, COUNT_LEN);
    for i := 0 to |items|
      invariant GrayValue(items) == tblVal + GrayItems(items[i..])
    {
      assert items[i..][1..] == items[i + 1..];
      ghost var before := tblVal;
      tblVal := tblVal + EncodeNum(|items[i]|, VALUE_LEN);
      tblVal := tblVal + items[i];
      Assoc(before, EncodeNum(|items[i]|, VALUE_LEN), items[i]);
      Assoc(before, Field(items[i], VALUE_LEN), GrayItems(items[i + 1..]));
    }
  }

  /** Reads a gray set; the items are collected in a set. */
  method DecodeGray(tblVal: Bytes) returns (r: Result<set<Bytes>>)
    ensures r.Err? ==> r.error == ErrOther
    ensures (r.Ok? <==> ParseGray(tblVal).Ok?) && (r.Ok? ==> r == ParseGray(tblVal))
  {
    if |tblVal| < COUNT_LEN {
      return Err(ErrOther);
    }
    var size := DecodeNumLoop(tblVal[..COUNT_LEN]);
    var pos: nat := COUNT_LEN;
    var nodes: set<Bytes> := {};
    for i := 0 to size
      invariant pos <= |tblVal|
      invariant GrayLeft(SubGray(tblVal[COUNT_LEN..], size), nodes, SubGray(tblVal[pos..], size - i))
    {
      var item := DecodeField(tblVal, pos, VALUE_LEN);
      if item.Err? {
        return Err(ErrOther);
      }
      nodes := nodes + {item.value.0};
      pos := item.value.1;
    }
    return Ok(nodes);
  }

  ghost predicate GrayLeft(all: Result<set<Bytes>>, nodes: set<Bytes>, left: Result<set<Bytes>>) {
    && (all.Ok? <==> left.Ok?)
    && (left.Ok? ==> all.value == nodes + left.value)
  }

  /** What is read has no more items than announced, and none too long for its length field. */
  lemma {:induction false} SubGrayBounds(b: Bytes, n: nat)
    requires SubGray(b, n).Ok?
    ensures |SubGray(b, n).value| <= n
    ensures forall x :: x in SubGray(b, n).value ==> |x| < Pow256(VALUE_LEN)
    decreases n
  {
    if n > 0 {
      var head := SubField(b, VALUE_LEN).value;
      SubGrayBounds(head.1, n - 1);
    }
  }

  lemma {:induction false} DistinctCard(items: seq<Bytes>)
    requires forall i, j :: 0 <= i < j < |items| ==> items[i] != items[j]
    ensures |set x | x in items| == |items|
  {
    if items == [] {
      assert (set x | x in items) == {};
    } else {
      DistinctCard(items[1..]);
      assert (set x | x in items) == {items[0]} + (set x | x in items[1..]);
    }
  }

  /**
   A gray set, written in any order, is read back if and only if the number and the lengths of its
   items fit their fields.
   */
  lemma GrayRoundTrip(items: seq<Bytes>)
    requires forall i, j :: 0 <= i < j < |items| ==> items[i] != items[j]
    ensures ParseGray(GrayValue(items)) == Ok(set x | x in items)
            <==> |items| < Pow256(COUNT_LEN) && forall i :: 0 <= i < |items| ==> |items[i]| < Pow256(VALUE_LEN)
  {
    var b := GrayValue(items);
    assert b[..COUNT_LEN] == EncodeNum(|items|, COUNT_LEN);
    assert b[COUNT_LEN..] == GrayItems(items) + [];
    if |items| < Pow256(COUNT_LEN) && forall i :: 0 <= i < |items| ==> |items[i]| < Pow256(VALUE_LEN) {
      NumRoundTrip(|items|, COUNT_LEN);
      GrayItemsRoundTrip(items, []);
    }
    if ParseGray(b) == Ok(set x | x in items) {
      SubGrayBounds(b[COUNT_LEN..], DecodeNum(b[..COUNT_LEN]));
      DistinctCard(items);
      forall i | 0 <= i < |items|
        ensures |items[i]| < Pow256(VALUE_LEN)
      {
        assert items[i] in ParseGray(b).value;
      }
    }
  }
}
