/** The service monitor: dividing the service fathers among monitors, and keeping the last server up. */
module Monitor {
  import opened Basics

  // ---- load balance

  datatype RetCode = Success | OtherError

  /** Indices rank, rank + size, rank + 2 * size, ... below n. */
  function Stride(n: nat, rank: nat, size: nat): (r: seq<nat>)
    requires size >= 1
    decreases n - rank
  {
    if rank >= n then [] else [rank] + Stride(n, rank + size, size)
  }

  /** The first position of a sequence number, or the length of the list. */
  function RankOf(monitors: seq<nat>, mySeq: nat): (rank: nat)
    ensures rank <= |monitors| && mySeq !in monitors[..rank]
    ensures rank < |monitors| ==> monitors[rank] == mySeq
    ensures rank == |monitors| <==> mySeq !in monitors
  {
    if monitors == [] then 0
    else if monitors[0] == mySeq then 0
    else
      var rest := RankOf(monitors[1..], mySeq);
      assert monitors == [monitors[0]] + monitors[1..] && monitors[..rest + 1] == [monitors[0]] + monitors[1..][..rest];
      1 + rest
  }

  /** The positions among n sorted md5 nodes that the monitor with sequence number mySeq takes. */
  function Share(n: nat, monitors: seq<nat>, mySeq: nat): seq<nat> {
    if mySeq in monitors then Stride(n, RankOf(monitors, mySeq), |monitors|) else []
  }

  /** The position of this monitor among the registered ones; an unregistered monitor asks for a rebalance. */
  method GetMonitors(monitors: seq<nat>, mySeq: nat) returns (ret: RetCode, rank: nat, needRebalance: bool)
    ensures ret == Success <==> mySeq in monitors
    ensures rank == RankOf(monitors, mySeq)
    ensures needRebalance <==> ret == OtherError
  {
    rank := 0;
    while rank < |monitors|
      invariant rank <= |monitors| && mySeq !in monitors[..rank]
    {
      if monitors[rank] == mySeq { break; }
      rank := rank + 1;
    }
    FirstPosition(monitors, mySeq, rank);
    if rank == |monitors| {
      return OtherError, rank, true;
    }
    return Success, rank, false;
  }

  lemma FirstPosition(monitors: seq<nat>, mySeq: nat, rank: nat)
    requires rank <= |monitors| && mySeq !in monitors[..rank] && (rank < |monitors| ==> monitors[rank] == mySeq)
    ensures rank == RankOf(monitors, mySeq)
  {
  }

  /** The service fathers of one monitor: its share of the sorted md5 list. */
  method DoBalance(fathers: seq<Bytes>, monitors: seq<nat>, mySeq: nat)
    returns (ret: RetCode, mine: seq<Bytes>, fatherToIp: map<Bytes, set<Bytes>>)
    ensures ret == Success <==> mySeq in monitors
    ensures var share := Share(|fathers|, monitors, mySeq);
            && |mine| == |share|
            && (forall k :: 0 <= k < |share| ==> share[k] < |fathers| && mine[k] == fathers[share[k]])
            && (forall f :: f in fatherToIp <==> f in mine)
            && (forall f :: f in fatherToIp ==> fatherToIp[f] == {})
  {
    mine, fatherToIp := [], map[];
    var found, rank, _ := GetMonitors(monitors, mySeq);
    ret := found;
    if ret != Success {
      return;
    }
    ghost var idx := Stride(|fathers|, rank, |monitors|);
    var i := rank;
    while i < |fathers|
      invariant rank <= i
      invariant |mine| <= |idx| && Stride(|fathers|, i, |monitors|) == idx[|mine|..]
      invariant forall k :: 0 <= k < |mine| ==> idx[k] < |fathers| && mine[k] == fathers[idx[k]]
      invariant forall f :: f in fatherToIp <==> f in mine
      invariant forall f :: f in fatherToIp ==> fatherToIp[f] == {}
      decreases |fathers| - i
    {
      assert idx[|mine|] == i;
      assert Stride(|fathers|, i, |monitors|)[1..] == idx[|mine| + 1..];
      fatherToIp := fatherToIp[fathers[i] := {}];
      mine := mine + [fathers[i]];
      i := i + |monitors|;
    }
  }

  /** A stride is the arithmetic progression, as far as it stays below n. */
  lemma {:induction false} StrideAt(n: nat, rank: nat, size: nat, q: nat)
    requires size >= 1
    ensures q < |Stride(n, rank, size)| <==> rank + q * size < n
    ensures q < |Stride(n, rank, size)| ==> Stride(n, rank, size)[q] == rank + q * size
    decreases q
  {
    if q > 0 {
      MulAtLeast(q, size);
      var s := Stride(n, rank + size, size);
      StrideAt(n, rank + size, size, q - 1);
      assert rank < n ==> Stride(n, rank, size) == [rank] + s;
    }
  }

  lemma StrideHas(n: nat, rank: nat, size: nat, q: nat)
    requires size >= 1 && rank + q * size < n
    ensures rank + q * size in Stride(n, rank, size)
  {
    StrideAt(n, rank, size, q);
  }

  lemma StrideOnly(n: nat, rank: nat, size: nat, i: nat) returns (q: nat)
    requires size >= 1 && i in Stride(n, rank, size)
    ensures i == rank + q * size && i < n
  {
    q :| q < |Stride(n, rank, size)| && Stride(n, rank, size)[q] == i;
    StrideAt(n, rank, size, q);
  }

  lemma MulAtLeast(d: nat, size: nat)
    requires d >= 1
    ensures d * size == size + (d - 1) * size && (d - 1) * size >= 0
  {
  }

  lemma ResidueBelow(r: nat, r': nat, q: nat, q': nat, size: nat)
    requires r < size && r + q * size == r' + q' * size
    ensures q' <= q
  {
    if q < q' {
      assert q' * size == q * size + (q' - q) * size;
      MulAtLeast(q' - q, size);
    }
  }

  lemma SameResidue(r: nat, r': nat, q: nat, q': nat, size: nat)
    requires r < size && r' < size && r + q * size == r' + q' * size
    ensures r == r'
  {
    ResidueBelow(r, r', q, q', size);
    ResidueBelow(r', r, q', q, size);
  }

  /** Every md5 node goes to exactly one of the monitors. */
  lemma ExactlyOneMonitor(n: nat, size: nat, i: nat, r: nat)
    requires size >= 1 && i < n && r < size
    ensures i in Stride(n, r, size) <==> r == i % size
  {
    assert i == i % size + (i / size) * size;
    StrideHas(n, i % size, size, i / size);
    if i in Stride(n, r, size) {
      var q := StrideOnly(n, r, size, i);
      SameResidue(r, i % size, q, i / size, size);
    }
  }

  lemma {:induction false} StrideAntitone(n: nat, a: nat, b: nat, size: nat)
    requires size >= 1 && a <= b
    ensures |Stride(n, a, size)| >= |Stride(n, b, size)|
    decreases n - a
  {
    if b < n {
      StrideAntitone(n, a + size, b + size, size);
    }
  }

  /** The shares of two monitors differ by at most one. */
  lemma SharesBalanced(n: nat, r: nat, r': nat, size: nat)
    requires r < r' < size
    ensures |Stride(n, r', size)| <= |Stride(n, r, size)| <= |Stride(n, r', size)| + 1
  {
    StrideAntitone(n, r, r', size);
    if r < n {
      StrideAntitone(n, r', r + size, size);
    }
  }

  ghost predicate DistinctNumbers(monitors: seq<nat>) {
    forall a, b :: 0 <= a < b < |monitors| ==> monitors[a] != monitors[b]
  }

  /** Among monitors with distinct sequence numbers, every md5 node is in the share of exactly one. */
  lemma NodesPartitioned(n: nat, monitors: seq<nat>, i: nat, j: nat)
    requires DistinctNumbers(monitors) && i < n && j < |monitors|
    ensures i in Share(n, monitors, monitors[j]) <==> j == i % |monitors|
  {
    assert RankOf(monitors, monitors[j]) == j;
    ExactlyOneMonitor(n, |monitors|, i, j);
  }

  /** And the shares of any two monitors differ by at most one node. */
  lemma SharesEven(n: nat, monitors: seq<nat>, j: nat, j': nat)
    requires DistinctNumbers(monitors) && j < |monitors| && j' < |monitors|
    ensures |Share(n, monitors, monitors[j])| <= |Share(n, monitors, monitors[j'])| + 1
  {
    assert RankOf(monitors, monitors[j]) == j && RankOf(monitors, monitors[j']) == j';
    if j < j' {
      SharesBalanced(n, j, j', |monitors|);
    } else if j' < j {
      SharesBalanced(n, j', j, |monitors|);
    }
  }

  // ---- the last server

  /** The part of a server path before its last slash. */
  function FatherOf(path: Bytes): Bytes {
    match LastSlash(path) case None => path case Some(p) => path[..p]
  }

  lemma FatherOfPath(father: Bytes, ip: Bytes)
    requires SLASH !in ip
    ensures FatherOf(PathOf(father, ip)) == father
  {
    LastSlashOfPath(father, ip);
    assert PathOf(father, ip)[..|father|] == father;
  }

  /** A path without an entry counts as down, as the default entry is. */
  function Status(m: map<Bytes, int>, path: Bytes): int {
    if path in m then m[path] else STATUS_DOWN
  }

  function IpsOf(fathers: map<Bytes, set<Bytes>>, father: Bytes): set<Bytes> {
    if father in fathers then fathers[father] else {}
  }

  /** The servers of a father that are up. */
  ghost function Up(m: map<Bytes, int>, father: Bytes, ips: set<Bytes>): set<Bytes> {
    set ip | ip in ips && Status(m, PathOf(father, ip)) == STATUS_UP
  }

  ghost predicate SameStatus(m: map<Bytes, int>, m': map<Bytes, int>) {
    forall p :: Status(m, p) == Status(m', p)
  }

  /**
   A status change takes effect unless it takes down the only server of its father that is up, or
   ZooKeeper refuses it.
   */
  ghost predicate Applies(m: map<Bytes, int>, fathers: map<Bytes, set<Bytes>>, path: Bytes, newStatus: int,
                          zkOk: bool) {
    && !(newStatus == STATUS_DOWN && Status(m, path) == STATUS_UP
         && |Up(m, FatherOf(path), IpsOf(fathers, FatherOf(path)))| <= 1)
    && zkOk
  }

  ghost function Updated(m: map<Bytes, int>, fathers: map<Bytes, set<Bytes>>, path: Bytes, newStatus: int,
                         zkOk: bool): map<Bytes, int> {
    if Applies(m, fathers, path, newStatus, zkOk) then m[path := newStatus] else m
  }

  lemma UpSame(m: map<Bytes, int>, m': map<Bytes, int>, father: Bytes, ips: set<Bytes>)
    requires SameStatus(m, m')
    ensures Up(m, father, ips) == Up(m', father, ips)
  {
  }

  lemma SameStatusUpdate(m: map<Bytes, int>, m': map<Bytes, int>, path: Bytes, status: int)
    requires SameStatus(m, m')
    ensures SameStatus(m[path := status], m'[path := status])
  {
    var a, b := m[path := status], m'[path := status];
    forall p
      ensures Status(a, p) == Status(b, p)
    {
      assert Status(m, p) == Status(m', p);
    }
  }

  class Options {
    var serviceMap: map<Bytes, int>
    var fatherToIp: map<Bytes, set<Bytes>>

    constructor (serviceMap: map<Bytes, int>, fatherToIp: map<Bytes, set<Bytes>>)
      ensures this.serviceMap == serviceMap && this.fatherToIp == fatherToIp
    {
      this.serviceMap, this.fatherToIp := serviceMap, fatherToIp;
    }

    /** At most one server of the node's father is up. Looking a path up creates its default entry. */
    method IsOnlyOneUp(node: Bytes) returns (r: bool)
      modifies this
      ensures r <==> |Up(old(serviceMap), FatherOf(node), IpsOf(old(fatherToIp), FatherOf(node)))| <= 1
      ensures SameStatus(old(serviceMap), serviceMap)
      ensures forall f :: IpsOf(fatherToIp, f) == IpsOf(old(fatherToIp), f)
    {
      var father := FatherOf(node);
      if father !in fatherToIp {
        fatherToIp := fatherToIp[father := {}];
      }
      ghost var m, fathers := serviceMap, fatherToIp;
      var ips := fatherToIp[father];
      var rest, alive := ips, 0;
      while rest != {}
        invariant rest <= ips && SameStatus(m, serviceMap) && fatherToIp == fathers
        invariant alive == |Up(m, father, ips - rest)| <= 1
        decreases |rest|
      {
        var ip :| ip in rest;
        var path := PathOf(father, ip);
        if path !in serviceMap {
          serviceMap := serviceMap[path := STATUS_DOWN];
        }
        UpGrows(m, father, ips - rest, ip);
        assert ips - (rest - {ip}) == (ips - rest) + {ip};
        if serviceMap[path] == STATUS_UP { alive := alive + 1; }
        rest := rest - {ip};
        if alive > 1 {
          SubsetCard(Up(m, father, ips - rest), Up(m, father, ips));
          return false;
        }
      }
      assert ips - rest == ips;
      return true;
    }

    lemma UpGrows(m: map<Bytes, int>, father: Bytes, ips: set<Bytes>, ip: Bytes)
      requires ip !in ips
      ensures |Up(m, father, ips + {ip})| == |Up(m, father, ips)| + (if Status(m, PathOf(father, ip)) == STATUS_UP
                                                                     then 1 else 0)
    {
      assert Up(m, father, ips + {ip})
             == if Status(m, PathOf(father, ip)) == STATUS_UP then Up(m, father, ips) + {ip} else Up(m, father, ips);
    }

    /** Applies a status change reported by a check; zkOk says whether ZooKeeper took it. */
    method UpdateService(path: Bytes, newStatus: int, zkOk: bool)
      modifies this
      ensures SameStatus(serviceMap, Updated(old(serviceMap), old(fatherToIp), path, newStatus, zkOk))
      ensures forall p :: Status(serviceMap, p)
                == if p == path && zkOk
                      && !(newStatus == STATUS_DOWN && Status(old(serviceMap), p) == STATUS_UP
                           && |Up(old(serviceMap), FatherOf(p), IpsOf(old(fatherToIp), FatherOf(p)))| <= 1)
                   then newStatus else Status(old(serviceMap), p)
      ensures forall f :: IpsOf(fatherToIp, f) == IpsOf(old(fatherToIp), f)
    {
      if path !in serviceMap {
        serviceMap := serviceMap[path := STATUS_DOWN];
      }
      UpSame(old(serviceMap), serviceMap, FatherOf(path), IpsOf(fatherToIp, FatherOf(path)));
      var oldStatus := serviceMap[path];
      if newStatus == STATUS_DOWN && oldStatus == STATUS_UP {
        var only := IsOnlyOneUp(path);
        if only {
          return;
        }
      }
      SameStatusUpdate(serviceMap, old(serviceMap), path, newStatus);
      if zkOk {
        serviceMap := serviceMap[path := newStatus];
      }
    }
  }

  /** The child names of ZooKeeper nodes contain no slash. */
  ghost predicate WellNamed(fathers: map<Bytes, set<Bytes>>) {
    forall f, ip :: f in fathers && ip in fathers[f] ==> SLASH !in ip
  }

  /**
   One update takes the servers of a father from some up to none exactly when ZooKeeper
   takes it, it concerns the last of them, and it neither sets it up nor down: the guard
   covers only the change to down.
   */
  lemma LastUpLost(m: map<Bytes, int>, fathers: map<Bytes, set<Bytes>>, path: Bytes, newStatus: int, zkOk: bool,
                   father: Bytes)
    requires WellNamed(fathers) && Up(m, father, IpsOf(fathers, father)) != {}
    ensures Up(Updated(m, fathers, path, newStatus, zkOk), father, IpsOf(fathers, father)) == {}
            <==> zkOk && newStatus != STATUS_UP && newStatus != STATUS_DOWN
                 && exists ip :: Up(m, father, IpsOf(fathers, father)) == {ip} && path == PathOf(father, ip)
  {
    var ips := IpsOf(fathers, father);
    var m' := Updated(m, fathers, path, newStatus, zkOk);
    var up, up' := Up(m, father, ips), Up(m', father, ips);
    if up' == {} {
      var ip :| ip in up;
      assert Status(m', PathOf(father, ip)) == STATUS_UP ==> ip in up';
      assert PathOf(father, ip) == path;
      FatherOfPath(father, ip);
      forall x | x in up
        ensures x == ip
      {
        assert Status(m', PathOf(father, x)) == STATUS_UP ==> x in up';
        assert PathOf(father, x) == PathOf(father, ip);
        assert PathOf(father, x)[|father| + 1..] == x && PathOf(father, ip)[|father| + 1..] == ip;
      }
      assert up == {ip};
    } else if ip :| up == {ip} && path == PathOf(father, ip) {
      var x :| x in up';
      if PathOf(father, x) != path {
        assert x in up;
      }
    }
  }

  datatype Update = Update(path: Bytes, status: int, zkOk: bool)

  /** Service maps each of which is what an update leaves of the one before. */
  ghost predicate UpdateRun(states: seq<map<Bytes, int>>, fathers: map<Bytes, set<Bytes>>, updates: seq<Update>) {
    && |states| == |updates| + 1
    && forall i :: 0 <= i < |updates| ==> UpdateStep(states, fathers, updates[i], i)
  }

  ghost predicate UpdateStep(states: seq<map<Bytes, int>>, fathers: map<Bytes, set<Bytes>>, u: Update, i: nat) {
    i + 1 < |states| && SameStatus(states[i + 1], Updated(states[i], fathers, u.path, u.status, u.zkOk))
  }

  /**
   A run of updates to up or down, as the connection checks report them, never leaves a father without
   a server up.
   */
  lemma {:induction false} SomeServerStaysUp(states: seq<map<Bytes, int>>, fathers: map<Bytes, set<Bytes>>,
                                             updates: seq<Update>, father: Bytes, i: nat)
    requires UpdateRun(states, fathers, updates) && i < |states|
    requires WellNamed(fathers) && Up(states[0], father, IpsOf(fathers, father)) != {}
    requires forall u :: u in updates ==> u.status == STATUS_UP || u.status == STATUS_DOWN
    ensures Up(states[i], father, IpsOf(fathers, father)) != {}
  {
    if i > 0 {
      SomeServerStaysUp(states, fathers, updates, father, i - 1);
      var u := updates[i - 1];
      assert UpdateStep(states, fathers, u, i - 1);
      LastUpLost(states[i - 1], fathers, u.path, u.status, u.zkOk, father);
      UpSame(states[i], Updated(states[i - 1], fathers, u.path, u.status, u.zkOk), father, IpsOf(fathers, father));
    }
  }
}
