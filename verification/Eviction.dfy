/** Put with eviction on the finite map: which keys go, and when the put succeeds. */
module Eviction {
  import opened Basics
  import opened HashArrModel

  datatype SetResult = SetResult(contents: Contents, kept: nat, ok: bool)

  /**
   Puts, and while the put fails evicts the last of the recency-ordered ids and
   puts again. `kept` is how many ids stay in the order.
   */
  ghost function EvictPut(c: Contents, id: Ident, v: Bytes, maxSlots: nat, ids: seq<Ident>): SetResult
    decreases |ids|
  {
    var r := PutSpec(c, id, v, maxSlots);
    if r.ok || ids == [] then SetResult(r.contents, |ids|, r.ok)
    else EvictPut(r.contents - {ids[|ids| - 1]}, id, v, maxSlots, ids[..|ids| - 1])
  }

  lemma {:induction false} KeptBound(c: Contents, id: Ident, v: Bytes, maxSlots: nat, ids: seq<Ident>)
    ensures EvictPut(c, id, v, maxSlots, ids).kept <= |ids|
    decreases |ids|
  {
    var p := PutSpec(c, id, v, maxSlots);
    if !p.ok && ids != [] {
      KeptBound(p.contents - {ids[|ids| - 1]}, id, v, maxSlots, ids[..|ids| - 1]);
    }
  }

  /** The contents once only the first k of the ordered ids are spared. */
  ghost function Spared(c: Contents, ids: seq<Ident>, k: nat): Contents
    requires k <= |ids|
  {
    c - (set x | x in ids[k..])
  }

  /** A put of v under id succeeds: some slot is free, and the value fits once the old one is gone. */
  ghost predicate Admits(c: Contents, id: Ident, v: Bytes, maxSlots: nat) {
    Total(c) < maxSlots && Total(c - {id}) + Blocks(|v|) <= maxSlots
  }

  lemma SparedStep(c: Contents, ids: seq<Ident>, k: nat)
    requires |ids| > 0 && k <= |ids| - 1
    ensures Spared(c - {ids[|ids| - 1]}, ids[..|ids| - 1], k) == Spared(c, ids, k)
  {
    var n := |ids| - 1;
    assert ids[k..] == ids[..n][k..] + [ids[n]];
  }

  lemma SparedAll(c: Contents, ids: seq<Ident>)
    ensures Spared(c, ids, |ids|) == c
  {
    assert (set x | x in ids[|ids|..]) == {};
  }

  lemma SparedLacks(c: Contents, ids: seq<Ident>, k: nat, i: nat)
    requires k <= i < |ids|
    ensures ids[i] !in Spared(c, ids, k)
  {
    assert ids[k..][i - k] == ids[i];
  }

  /** Without the key's old value the contents are the same but for the key. */
  lemma SparedApart(c: Contents, id: Ident, ids: seq<Ident>, k: nat)
    requires k <= |ids|
    ensures Spared(c - {id}, ids, k) == Spared(c, ids, k) - {id}
    ensures Spared(c, ids, k) - {id} - {id} == Spared(c, ids, k) - {id}
  {
  }

  /** Once some slot is free, the old value of the key decides nothing any more. */
  lemma AdmitsApart(c: Contents, id: Ident, v: Bytes, maxSlots: nat, ids: seq<Ident>, k: nat)
    requires k <= |ids| && Total(c) < maxSlots
    ensures Admits(Spared(c - {id}, ids, k), id, v, maxSlots) <==> Admits(Spared(c, ids, k), id, v, maxSlots)
    ensures Total(Spared(c, ids, k)) < maxSlots
  {
    SparedApart(c, id, ids, k);
    SparedTotal(c, ids, k);
    TotalShrinks(Spared(c, ids, k), id);
  }

  lemma {:induction false} SparedTotal(c: Contents, ids: seq<Ident>, k: nat)
    requires k <= |ids|
    ensures Total(Spared(c, ids, k)) <= Total(c)
    decreases |ids| - k
  {
    if k == |ids| {
      SparedAll(c, ids);
    } else {
      SparedTotal(c, ids, k + 1);
      assert ids[k..] == [ids[k]] + ids[k + 1..];
      assert Spared(c, ids, k) == Spared(c, ids, k + 1) - {ids[k]};
      TotalShrinks(Spared(c, ids, k + 1), ids[k]);
    }
  }

  /**
   What is left when a put with eviction has spared the first `kept` of the order: the value
   stored on top; or, when even the last put failed, what that put left.
   */
  ghost predicate Evicted(c: Contents, id: Ident, v: Bytes, maxSlots: nat, ids: seq<Ident>, r: SetResult) {
    && r.kept <= |ids|
    && (r.ok <==> Admits(Spared(c, ids, r.kept), id, v, maxSlots))
    && (!r.ok ==> r.kept == 0)
    && r.contents == (if r.ok then Spared(c, ids, r.kept)[id := v]
                      else if Total(Spared(c, ids, 0)) < maxSlots then Spared(c, ids, 0) - {id}
                      else Spared(c, ids, 0))
    && forall k :: r.kept < k <= |ids| ==> !Admits(Spared(c, ids, k), id, v, maxSlots)
  }

  lemma EvictedHere(c: Contents, id: Ident, v: Bytes, maxSlots: nat, ids: seq<Ident>)
    requires |v| >= 1
    ensures var p := PutSpec(c, id, v, maxSlots);
            && (p.ok <==> Admits(c, id, v, maxSlots))
            && (p.ok || ids == [] ==> Evicted(c, id, v, maxSlots, ids, SetResult(p.contents, |ids|, p.ok)))
  {
    SparedAll(c, ids);
    PutFrame(c, id, v, maxSlots);
  }

  /** One eviction further back in the order. */
  lemma EvictedBefore(c: Contents, id: Ident, v: Bytes, maxSlots: nat, ids: seq<Ident>, r: SetResult)
    requires ids != [] && !Admits(c, id, v, maxSlots)
    requires Evicted(c - {ids[|ids| - 1]}, id, v, maxSlots, ids[..|ids| - 1], r)
    ensures Evicted(c, id, v, maxSlots, ids, r)
  {
    var n := |ids| - 1;
    forall k | 0 <= k <= n
      ensures Spared(c - {ids[n]}, ids[..n], k) == Spared(c, ids, k)
    {
      SparedStep(c, ids, k);
    }
    SparedAll(c, ids);
  }

  lemma StoredSame(c: Contents, id: Ident, v: Bytes)
    ensures (c - {id})[id := v] == c[id := v]
  {
  }

  /** The same with the key's old value gone already, as after a put that found too little room. */
  lemma EvictedApart(c: Contents, id: Ident, v: Bytes, maxSlots: nat, ids: seq<Ident>, r: SetResult)
    requires Total(c) < maxSlots && Evicted(c - {id}, id, v, maxSlots, ids, r)
    ensures Evicted(c, id, v, maxSlots, ids, r)
  {
    forall k | 0 <= k <= |ids|
      ensures Admits(Spared(c - {id}, ids, k), id, v, maxSlots) <==> Admits(Spared(c, ids, k), id, v, maxSlots)
    {
      AdmitsApart(c, id, v, maxSlots, ids, k);
    }
    SparedApart(c, id, ids, r.kept);
    SparedApart(c, id, ids, 0);
    AdmitsApart(c, id, v, maxSlots, ids, 0);
    TotalShrinks(Spared(c, ids, 0), id);
    StoredSame(Spared(c, ids, r.kept), id, v);
  }

  /**
   For a stored key and an absent one alike, exactly the shortest tail of the order is
   evicted that makes the put succeed; without such a tail everything goes and the put
   fails. In particular a full table evicts at least the last key of the order.
   */
  lemma {:induction false} EvictsShortestTail(c: Contents, id: Ident, v: Bytes, maxSlots: nat, ids: seq<Ident>)
    requires |v| >= 1
    ensures Evicted(c, id, v, maxSlots, ids, EvictPut(c, id, v, maxSlots, ids))
    decreases |ids|
  {
    var p := PutSpec(c, id, v, maxSlots);
    EvictedHere(c, id, v, maxSlots, ids);
    PutFrame(c, id, v, maxSlots);
    if !p.ok && ids != [] {
      var n := |ids| - 1;
      EvictsShortestTail(p.contents - {ids[n]}, id, v, maxSlots, ids[..n]);
      var r := EvictPut(c, id, v, maxSlots, ids);
      if p.contents == c {
        EvictedBefore(c, id, v, maxSlots, ids, r);
      } else {
        ApartNotAdmitted(c, id, v, maxSlots);
        EvictedBefore(c - {id}, id, v, maxSlots, ids, r);
        EvictedApart(c, id, v, maxSlots, ids, r);
      }
    }
  }

  lemma ApartNotAdmitted(c: Contents, id: Ident, v: Bytes, maxSlots: nat)
    requires Total(c) < maxSlots && !Admits(c, id, v, maxSlots)
    ensures !Admits(c - {id}, id, v, maxSlots)
  {
    assert c - {id} - {id} == c - {id};
  }

  /** A full table refuses the first put, so that the last key of the order goes. */
  lemma FullEvictsLast(c: Contents, id: Ident, v: Bytes, maxSlots: nat, ids: seq<Ident>)
    requires |v| >= 1 && Total(c) >= maxSlots && ids != []
    ensures EvictPut(c, id, v, maxSlots, ids).kept < |ids|
  {
    EvictsShortestTail(c, id, v, maxSlots, ids);
    SparedAll(c, ids);
  }

  /** Every stored key but `local` has its id in the order. */
  ghost predicate Tracked(c: Contents, ids: seq<Ident>, local: Ident) {
    forall x :: x in c ==> x == local || x in ids
  }

  ghost function CostOf(c: Contents, id: Ident): nat {
    if id in c then Blocks(|c[id]|) else 0
  }

  lemma TotalAtLeast(c: Contents, a: Ident, b: Ident)
    requires a != b
    ensures Total(c) >= CostOf(c, a) + CostOf(c, b)
  {
    if a in c {
      TotalRemove(c, a);
      if b in c {
        TotalRemove(c - {a}, b);
      }
    } else if b in c {
      TotalRemove(c, b);
    }
  }

  lemma TotalLocal(c: Contents, local: Ident)
    requires forall x :: x in c ==> x == local
    ensures Total(c) == CostOf(c, local)
  {
    if local in c {
      TotalRemove(c, local);
      assert c - {local} == map[];
    } else {
      assert c == map[];
    }
  }

  /** With nothing left to evict, the put succeeds exactly when the value fits beside the local entry. */
  lemma LastPut(c: Contents, id: Ident, v: Bytes, maxSlots: nat, local: Ident)
    requires |v| >= 1 && id != local && (forall x :: x in c ==> x == local)
    ensures PutSpec(c, id, v, maxSlots).ok <==> Blocks(|v|) + CostOf(c, local) <= maxSlots
  {
    TotalLocal(c, local);
    assert c - {id} == c;
  }

  /** A key that is left after a put with eviction stays tracked. */
  lemma {:induction false} EvictStaysTracked(c: Contents, id: Ident, v: Bytes, maxSlots: nat, ids: seq<Ident>,
                                             local: Ident)
    requires |v| >= 1 && Tracked(c, ids, local)
    ensures var r := EvictPut(c, id, v, maxSlots, ids);
            r.kept <= |ids| && Tracked(r.contents - {id}, ids[..r.kept], local)
    decreases |ids|
  {
    var p := PutSpec(c, id, v, maxSlots);
    PutFrame(c, id, v, maxSlots);
    if p.ok || ids == [] {
      assert ids[..|ids|] == ids;
      assert forall x :: x in p.contents - {id} ==> x in c - {id};
    } else {
      var n := |ids| - 1;
      assert Tracked(p.contents - {ids[n]}, ids[..n], local);
      EvictStaysTracked(p.contents - {ids[n]}, id, v, maxSlots, ids[..n], local);
      assert ids[..n][..EvictPut(c, id, v, maxSlots, ids).kept] == ids[..EvictPut(c, id, v, maxSlots, ids).kept];
    }
  }

  /**
   With every key but the local one tracked: the local entry survives, the put
   succeeds exactly when the value fits beside it, and the key is left with the new
   value or not at all.
   */
  lemma {:induction false} EvictTracked(c: Contents, id: Ident, v: Bytes, maxSlots: nat, ids: seq<Ident>, local: Ident)
    requires |v| >= 1 && id != local && local !in ids && Tracked(c, ids, local) && Total(c) <= maxSlots
    ensures var r := EvictPut(c, id, v, maxSlots, ids);
            && (r.ok <==> Blocks(|v|) + CostOf(c, local) <= maxSlots)
            && (local in r.contents <==> local in c) && (local in c ==> r.contents[local] == c[local])
            && (if r.ok then id in r.contents && r.contents[id] == v else id !in r.contents)
    decreases |ids|
  {
    var p := PutSpec(c, id, v, maxSlots);
    PutFrame(c, id, v, maxSlots);
    PutTotal(c, id, v, maxSlots);
    assert local in p.contents <==> local in c - {id};
    if p.ok {
      TotalAtLeast(p.contents, id, local);
    } else if ids == [] {
      LastPut(c, id, v, maxSlots, local);
    } else {
      var n := |ids| - 1;
      var c' := p.contents - {ids[n]};
      assert Tracked(c', ids[..n], local);
      TotalShrinks(p.contents, ids[n]);
      EvictTracked(c', id, v, maxSlots, ids[..n], local);
    }
  }

  /** A put with eviction drops other keys or leaves their values alone. */
  lemma {:induction false} EvictFrame(c: Contents, id: Ident, v: Bytes, maxSlots: nat, ids: seq<Ident>)
    requires |v| >= 1
    ensures var r := EvictPut(c, id, v, maxSlots, ids);
            forall x :: x in r.contents && x != id ==> x in c && r.contents[x] == c[x]
    decreases |ids|
  {
    var p := PutSpec(c, id, v, maxSlots);
    PutFrame(c, id, v, maxSlots);
    forall x | x in p.contents && x != id
      ensures x in c && p.contents[x] == c[x]
    {
      assert x in p.contents - {id};
    }
    if !p.ok && ids != [] {
      EvictFrame(p.contents - {ids[|ids| - 1]}, id, v, maxSlots, ids[..|ids| - 1]);
    }
  }

  /** A put that succeeds leaves the new value under the key. */
  lemma {:induction false} EvictStores(c: Contents, id: Ident, v: Bytes, maxSlots: nat, ids: seq<Ident>)
    requires |v| >= 1
    ensures var r := EvictPut(c, id, v, maxSlots, ids); r.ok ==> id in r.contents && r.contents[id] == v
    decreases |ids|
  {
    var p := PutSpec(c, id, v, maxSlots);
    PutFrame(c, id, v, maxSlots);
    if !p.ok && ids != [] {
      EvictStores(p.contents - {ids[|ids| - 1]}, id, v, maxSlots, ids[..|ids| - 1]);
    }
  }

  lemma PutTotal(c: Contents, id: Ident, v: Bytes, maxSlots: nat)
    requires Total(c) <= maxSlots
    ensures Total(PutSpec(c, id, v, maxSlots).contents) <= maxSlots
  {
    TotalShrinks(c, id);
    TotalPut(c - {id}, id, v);
    assert (c - {id})[id := v] == c[id := v];
  }

  lemma TotalShrinks(c: Contents, id: Ident)
    ensures Total(c - {id}) <= Total(c)
  {
    if id in c {
      TotalRemove(c, id);
    } else {
      assert c - {id} == c;
    }
  }
}
