/** What a client decodes from the table values that the agent writes. */
module WatcherView {
  import opened Basics
  import opened Codec
  import opened WatcherModel
  import opened CodecLayout

  /** v decodes to the key and, of the names, exactly those whose status is 0, in their order. */
  ghost predicate ListsUp(v: Bytes, k: Key, names: seq<Bytes>, status: seq<int>)
    requires |names| == |status|
  {
    exists up, idx :: UpAt(v, k, names, status, up, idx)
  }

  ghost predicate UpAt(v: Bytes, k: Key, names: seq<Bytes>, status: seq<int>, up: seq<Bytes>, idx: seq<nat>)
    requires |names| == |status|
  {
    && ParseVector(v, SERVICE) == Ok((up, Parts(k))) && Picked(up, names, idx)
    && forall i :: 0 <= i < |names| ==> (i in idx <==> status[i] == 0)
  }

  /**
   A client that reads v for the key sees the node in ZooKeeper: its data, the names of its children, or
   the names of those children whose data says that the server is up, when all have a valid status.
   */
  ghost predicate Shows(zk: Tree, k: Key, v: Bytes) {
    && At(k) in zk
    && var node := zk[At(k)];
       match k.kind
       case Node => ParseNode(v) == Ok((node.data, Parts(k)))
       case Batch => ParseVector(v, BATCH) == Ok((node.children, Parts(k)))
       case Service =>
         AllValid(zk, At(k), node.children) && ListsUp(v, k, node.children, StatusesAt(zk, At(k), node.children))
  }

  /** Key, data, names and the number of names stay within the widths of their length fields. */
  ghost predicate WithinWidths(zk: Tree, k: Key) {
    && |k.idc| < 0x100 && |k.path| < 0x1_0000
    && (At(k) in zk ==>
          if k.kind == Node then |zk[At(k)].data| < 0x1_0000_0000 else ShortNames(zk[At(k)].children))
  }

  ghost predicate ShortNames(names: seq<Bytes>) {
    |names| < 0x1_0000 && forall i :: 0 <= i < |names| ==> |names[i]| < 0x1_0000
  }

  lemma {:induction false} UpOnlyShort(names: seq<Bytes>, status: seq<int>)
    requires |names| == |status| && forall i :: 0 <= i < |names| ==> |names[i]| < 0x1_0000
    ensures forall i :: 0 <= i < |UpOnly(names, status)| ==> |UpOnly(names, status)[i]| < 0x1_0000
  {
    if names != [] {
      UpOnlyShort(names[1..], status[1..]);
    }
  }

  lemma ServiceShows(k: Key, names: seq<Bytes>, status: seq<int>)
    requires k.kind == Service && |k.idc| < 0x100 && |k.path| < 0x1_0000
    requires |names| == |status| && ShortNames(names)
    ensures ListsUp(ServiceValue(k, names, status), k, names, status)
  {
    Widths();
    UpOnlyShort(names, status);
    var idx := UpOnlyPicks(names, status);
    VectorRoundTrip(Parts(k), UpOnly(names, status));
    assert UpAt(ServiceValue(k, names, status), k, names, status, UpOnly(names, status), idx);
  }

  /** A key has a table value unless its node is missing or, for a service, a child has no valid status. */
  lemma HeldNone(zk: Tree, k: Key)
    ensures Held(zk, k) == None
            <==> At(k) !in zk || (k.kind == Service && !AllValid(zk, At(k), zk[At(k)].children))
  {
  }

  /** The table value of a key shows the node, as far as the length fields reach. */
  lemma HeldShows(zk: Tree, k: Key, v: Bytes)
    requires Held(zk, k) == Some(v) && WithinWidths(zk, k)
    ensures Shows(zk, k, v)
  {
    Widths();
    match k.kind
    case Node => NodeRoundTrip(Parts(k), zk[At(k)].data);
    case Batch => VectorRoundTrip(Parts(k), zk[At(k)].children);
    case Service => ServiceShows(k, zk[At(k)].children, StatusesAt(zk, At(k), zk[At(k)].children));
  }
}
