/** The shared table: framed values, least-recently-written eviction, and traversal with full keys. */
module SharedTable {
  import opened Basics
  import opened Codec
  import opened CodecLayout
  import opened HashArrModel
  import opened HashArr
  import opened Frame
  import opened Lru
  import opened Eviction

  /** The full key of an entry, rebuilt from the kept key bytes and the value. */
  function RecoverKey(name: Bytes, val: Bytes): Result<Bytes> {
    if name == [] then Err(ErrDataType)
    else if name[0] == NODE then
      var p :- ParseNode(val);
      Ok(SerializeKey(p.1))
    else if name[0] == SERVICE || name[0] == BATCH then
      var p :- ParseVector(val, name[0]);
      Ok(SerializeKey(p.1))
    else if name[0] == ZK_HOST then
      var p :- ParseHost(val);
      Ok(SerializeKey(p.1))
    else if name[0] == LOCAL_IDC then Ok(SerializeKey(KeyParts(LOCAL_IDC, [], [])))
    else Err(ErrDataType)
  }

  /** The value was encoded with this key. */
  ghost predicate Describes(val: Bytes, k: KeyParts) {
    && Encodable(k)
    && (k.dataType == NODE ==> exists x :: |x| < Pow256(VALUE_LEN) && val == NodeValue(SerializeKey(k), x))
    && (k.dataType == SERVICE || k.dataType == BATCH
        ==> exists xs :: Listable(xs) && val == VectorValue(SerializeKey(k), xs))
    && (k.dataType == ZK_HOST ==> exists x :: |x| < Pow256(PATH_LEN) && val == HostValue(SerializeKey(k), x))
  }

  /** The 32 kept bytes and the value of an entry give its whole key back. */
  lemma KeyRecovered(val: Bytes, k: KeyParts, name: Bytes)
    requires Describes(val, k) && name == SerializeKey(k)[..Min(|SerializeKey(k)|, KEY_SIZE)]
    ensures RecoverKey(name, val) == Ok(SerializeKey(k))
  {
    assert name[0] == k.dataType;
    if k.dataType == NODE {
      var x :| |x| < Pow256(VALUE_LEN) && val == NodeValue(SerializeKey(k), x);
      NodeRoundTrip(k, x);
    } else if k.dataType == SERVICE || k.dataType == BATCH {
      var xs :| Listable(xs) && val == VectorValue(SerializeKey(k), xs);
      VectorRoundTrip(k, xs);
    } else if k.dataType == ZK_HOST {
      var x :| |x| < Pow256(PATH_LEN) && val == HostValue(SerializeKey(k), x);
      HostRoundTrip(k, x);
    }
  }

  /** The value starts as one that was encoded with this key. */
  ghost predicate Carries(val: Bytes, k: KeyParts) {
    && Encodable(k)
    && (k.dataType == NODE ==> exists x :: ParseNode(val) == Ok((x, k)))
    && (k.dataType == SERVICE || k.dataType == BATCH ==> exists xs :: ParseVector(val, k.dataType) == Ok((xs, k)))
    && (k.dataType == ZK_HOST ==> exists x :: ParseHost(val) == Ok((x, k)))
  }

  /**
   A key is rebuilt if and only if its first byte is a known type and the value carries a key
   of that type; what comes back is that key. (When a value carries a key is said by
   `NodeExact`, `VectorExact` and `HostExact`.)
   */
  lemma RecoverExact(name: Bytes, val: Bytes, key: Bytes)
    ensures RecoverKey(name, val) == Ok(key)
            <==> name != [] && exists k: KeyParts :: k.dataType == name[0] && Carries(val, k) && key == SerializeKey(k)
  {
    if RecoverKey(name, val) == Ok(key) {
      RecoverRead(name, val, key);
    }
    if name != [] && exists k: KeyParts :: k.dataType == name[0] && Carries(val, k) && key == SerializeKey(k) {
      var k: KeyParts :| k.dataType == name[0] && Carries(val, k) && key == SerializeKey(k);
      assert IsUserType(k.dataType) || k.dataType == ZK_HOST || k.dataType == LOCAL_IDC;
    }
  }

  lemma RecoverRead(name: Bytes, val: Bytes, key: Bytes)
    requires RecoverKey(name, val) == Ok(key)
    ensures name != [] && exists k: KeyParts :: k.dataType == name[0] && Carries(val, k) && key == SerializeKey(k)
  {
    if name[0] == NODE {
      var p := ParseNode(val).value;
      NodeExact(val, p.0, p.1);
      assert Carries(val, p.1);
    } else if name[0] == SERVICE || name[0] == BATCH {
      var p := ParseVector(val, name[0]).value;
      VectorExact(val, name[0], p.0, p.1);
      assert Carries(val, p.1);
    } else if name[0] == ZK_HOST {
      var p := ParseHost(val).value;
      HostExact(val, p.0, p.1);
      assert Carries(val, p.1);
    } else {
      assert Carries(val, KeyParts(LOCAL_IDC, [], []));
    }
  }

  /** An unknown type and a value that carries no key are told apart. */
  lemma RecoverErrors(name: Bytes, val: Bytes)
    requires RecoverKey(name, val).Err?
    ensures RecoverKey(name, val).error
            == if name != [] && (name[0] == 49 || name[0] == 50 || name[0] == 51 || name[0] == 52) then ErrDataFormat
               else ErrDataType
  {
  }

  /** The order and the history of a recency list. */
  datatype Recency = Recency(order: seq<Bytes>, writes: seq<Bytes>)

  class Shm {
    const tbl: Table
    const lru: List

    ghost predicate Valid()
      reads this, tbl, tbl.slots, lru
    {
      && tbl.Valid() && lru.Valid()
      && [] !in lru.Order() && LOCAL_IDC_KEY !in lru.Order()
      && Sized()
    }

    /** Every stored value has its length field. */
    ghost predicate Sized()
      reads tbl
    {
      forall id :: id in tbl.Contents() ==> |tbl.Contents()[id]| >= VALUE_LEN
    }

    constructor (maxSlots: nat, murmur: Bytes -> nat, md5: Bytes -> Digest)
      requires maxSlots >= 1
      ensures Valid() && fresh(tbl) && fresh(tbl.slots) && fresh(lru)
      ensures tbl.Contents() == map[] && lru.Order() == [] && AllTracked()
    {
      tbl := new Table(maxSlots, murmur, md5);
      lru := new List();
    }

    ghost function Id(key: Bytes): Ident
      requires tbl.maxSlots >= 1
    {
      tbl.IdentOf(key)
    }

    /** The recency order as identities. */
    ghost function Ids(keys: seq<Bytes>): (ids: seq<Ident>)
      requires tbl.maxSlots >= 1
      ensures |ids| == |keys|
      ensures forall i :: 0 <= i < |keys| ==> ids[i] == Id(keys[i])
    {
      seq(|keys|, i requires 0 <= i < |keys| => Id(keys[i]))
    }

    /** The value a reader of the shared table gets for a key. */
    ghost function Lookup(key: Bytes): Result<Bytes>
      requires Valid()
      reads this, tbl, tbl.slots, lru
    {
      if Id(key) in tbl.Contents() then Verify(tbl.md5, tbl.Contents()[Id(key)]) else Err(ErrNotFound)
    }

    /**
     A reader gets v if and only if the key is stored and its bytes start with the frame of v;
     a stored key without a whole frame is reported as damaged.
     */
    lemma LookupExact(key: Bytes, v: Bytes)
      requires Valid()
      ensures Lookup(key) == Ok(v)
              <==> Id(key) in tbl.Contents() && |v| < Pow256(VALUE_LEN) && Framed(tbl.md5, v) <= tbl.Contents()[Id(key)]
      ensures Lookup(key).Err? ==>
                Lookup(key).error == if Id(key) in tbl.Contents() then ErrTblDataMess else ErrNotFound
    {
      if Id(key) in tbl.Contents() {
        VerifyIff(tbl.md5, tbl.Contents()[Id(key)], v);
        VerifyError(tbl.md5, tbl.Contents()[Id(key)]);
      }
    }

    method Get(key: Bytes) returns (r: Result<Bytes>)
      requires Valid()
      ensures r == if key == [] then Err(ErrParam) else Lookup(key)
    {
      if key == [] {
        return Err(ErrParam);
      }
      var value, _ := tbl.Get(key);
      if value.None? {
        return Err(ErrNotFound);
      }
      return Verify(tbl.md5, value.value);
    }

    method Exist(key: Bytes) returns (found: bool)
      requires Valid()
      ensures found <==> key != [] && Id(key) in tbl.Contents()
    {
      if key == [] {
        return false;
      }
      found := tbl.Exist(key);
    }

    /** Removes a key from the table; the recency list is not told. */
    method Remove(key: Bytes) returns (r: Result<()>)
      requires Valid()
      modifies tbl, tbl.slots
      ensures Valid() && r == if key == [] then Err(ErrParam) else Ok(())
      ensures tbl.Contents() == if key == [] then old(tbl.Contents()) else old(tbl.Contents()) - {Id(key)}
      ensures old(AllTracked()) ==> AllTracked()
    {
      if key == [] {
        return Err(ErrParam);
      }
      var ok, err := tbl.Remove(key);
      if !ok {
        return if err == ENOENT then Ok(()) else Err(ErrOther);
      }
      return Ok(());
    }

    method Clear()
      requires Valid()
      modifies tbl, tbl.slots
      ensures Valid() && tbl.Contents() == map[] && AllTracked()
    {
      tbl.Clear();
    }

    /** The home of the key can count one more key, apart from the key itself. */
    ghost predicate Room(key: Bytes)
      requires tbl.maxSlots >= 1
      reads this, tbl
    {
      |HomeKeys(tbl.Contents() - {Id(key)}, tbl.Home(key))| < MAX_COUNT
    }

    lemma RoomForPut(key: Bytes)
      requires Valid() && Room(key)
      ensures Id(key) in tbl.Contents() || |HomeKeys(tbl.Contents(), tbl.Home(key))| < MAX_COUNT
    {
      if Id(key) !in tbl.Contents() {
        assert tbl.Contents() - {Id(key)} == tbl.Contents();
      }
    }

    lemma RoomKept(c: Contents, c': Contents, id: Ident, h: nat)
      requires c'.Keys <= c.Keys && |HomeKeys(c - {id}, h)| < MAX_COUNT
      ensures |HomeKeys(c' - {id}, h)| < MAX_COUNT
    {
      SubsetCard(HomeKeys(c' - {id}, h), HomeKeys(c - {id}, h));
    }

    lemma IdsPrefix(keys: seq<Bytes>)
      requires tbl.maxSlots >= 1 && keys != []
      ensures Ids(keys[..|keys| - 1]) == Ids(keys)[..|keys| - 1]
    {
    }

    /** Evicts the last key of the recency list. */
    method EvictLast() returns (ok: bool)
      requires Valid()
      modifies tbl, tbl.slots, lru
      ensures Valid()
      ensures ok <==> old(lru.Order()) != []
      ensures ok ==> lru.Order() == old(lru.Order())[..|old(lru.Order())| - 1]
      ensures ok ==> tbl.Contents() == old(tbl.Contents()) - {Id(old(lru.Order())[|old(lru.Order())| - 1])}
      ensures !ok ==> lru.Order() == old(lru.Order()) && tbl.Contents() == old(tbl.Contents())
      ensures lru.writes == old(lru.writes)
    {
      var removeKey := lru.GetRemoveKey();
      var r := Remove(removeKey);
      if r.Err? {
        return false;
      }
      Unlist();
      return true;
    }

    /** Drops the last key from the recency list. */
    method Unlist()
      requires Valid() && lru.Order() != []
      modifies lru
      ensures Valid() && lru.Order() == old(lru.Order())[..|old(lru.Order())| - 1] && lru.writes == old(lru.writes)
    {
      var _ := lru.RemoveKey();
    }

    /** One put; it changes the table only. */
    method TryPut(key: Bytes, val: Bytes) returns (ok: bool, err: Errno)
      requires Valid() && 0 < |key| <= MAX_KEY && |val| >= VALUE_LEN && Room(key)
      modifies tbl, tbl.slots
      ensures Valid() && (!ok ==> Room(key)) && err == (if ok then NoError else ENOBUFS)
      ensures PutSpec(old(tbl.Contents()), Id(key), val, tbl.maxSlots) == PutResult(tbl.Contents(), ok)
    {
      ghost var c := tbl.Contents();
      RoomForPut(key);
      ok, err := tbl.Put(key, val);
      PutFrame(c, Id(key), val, tbl.maxSlots);
      if !ok {
        RoomKept(c, tbl.Contents(), Id(key), tbl.Home(key));
      }
      forall id | id in tbl.Contents()
        ensures |tbl.Contents()[id]| >= VALUE_LEN
      {
        assert id != Id(key) ==> id in tbl.Contents() - {Id(key)};
      }
    }

    /**
     A put with eviction that started from contents c and the order given is at contents c'
     and order', or done there with the answer ok.
     */
    ghost predicate Evicting(c: Contents, order: seq<Bytes>, key: Bytes, val: Bytes, c': Contents, order': seq<Bytes>,
                             done: bool, ok: bool)
      requires tbl.maxSlots >= 1
    {
      && order' <= order
      && EvictPut(c, Id(key), val, tbl.maxSlots, Ids(order))
         == if done then SetResult(c', |order'|, ok) else EvictPut(c', Id(key), val, tbl.maxSlots, Ids(order'))
    }

    /** One round: a put and, should it fail, the eviction of the last key if there is one. */
    lemma EvictRound(c: Contents, order: seq<Bytes>, key: Bytes, val: Bytes, c1: Contents, ok: bool, c': Contents,
                     order': seq<Bytes>)
      requires tbl.maxSlots >= 1 && PutSpec(c, Id(key), val, tbl.maxSlots) == PutResult(c1, ok)
      requires ok || order == [] ==> c' == c1 && order' == order
      requires !ok && order != [] ==> c' == c1 - {Id(order[|order| - 1])} && order' == order[..|order| - 1]
      ensures Evicting(c, order, key, val, c', order', ok || order == [], ok)
    {
      if !ok && order != [] {
        IdsPrefix(order);
      }
    }

    /** The home of the key keeps its room in contents with fewer keys. */
    lemma RoomStays(key: Bytes, c: Contents)
      requires tbl.maxSlots >= 1 && tbl.Contents().Keys <= c.Keys
               && |HomeKeys(c - {Id(key)}, tbl.Home(key))| < MAX_COUNT
      ensures Room(key)
    {
      RoomKept(c, tbl.Contents(), Id(key), tbl.Home(key));
    }

    /** A put and, should it fail, the eviction of the last key; the loop is done when there was none. */
    method TryOrEvict(key: Bytes, val: Bytes) returns (done: bool, ok: bool)
      requires Valid() && 0 < |key| <= MAX_KEY && |val| >= VALUE_LEN && Room(key)
      modifies tbl, tbl.slots, lru
      ensures Valid() && (!done ==> Room(key) && |lru.Order()| < |old(lru.Order())|) && lru.writes == old(lru.writes)
      ensures Evicting(old(tbl.Contents()), old(lru.Order()), key, val, tbl.Contents(), lru.Order(), done, ok)
    {
      ghost var c, order := tbl.Contents(), lru.Order();
      var err;
      ok, err := TryPut(key, val);
      ghost var c1 := tbl.Contents();
      done := true;
      if !ok && err == ENOBUFS {
        var evicted := EvictLast();
        done := !evicted;
        RoomStays(key, c1);
      }
      EvictRound(c, order, key, val, c1, ok, tbl.Contents(), lru.Order());
    }

    /** The eviction loop. */
    method PutEvicting(key: Bytes, val: Bytes) returns (ok: bool)
      requires Valid() && 0 < |key| <= MAX_KEY && |val| >= VALUE_LEN && Room(key)
      modifies tbl, tbl.slots, lru
      ensures Valid() && lru.writes == old(lru.writes)
      ensures Evicting(old(tbl.Contents()), old(lru.Order()), key, val, tbl.Contents(), lru.Order(), true, ok)
    {
      var done := false;
      ok := false;
      while !done
        invariant Valid() && (!done ==> Room(key)) && lru.writes == old(lru.writes)
        invariant Evicting(old(tbl.Contents()), old(lru.Order()), key, val, tbl.Contents(), lru.Order(), done, ok)
        decreases !done, |lru.Order()|
      {
        done, ok := TryOrEvict(key, val);
      }
    }

    /** The local-idc key leaves no trace in the recency list. */
    ghost function Written(writes: seq<Bytes>, key: Bytes): seq<Bytes> {
      if key == LOCAL_IDC_KEY then writes else writes + [key]
    }

    /** A key just stored goes to the front of the recency list. */
    method Visit(key: Bytes)
      requires Valid() && key != []
      modifies lru
      ensures Valid() && lru.Order() == Visited(old(lru.Order()), key)
      ensures lru.writes == Written(old(lru.writes), key)
    {
      VisitedKeys(lru.Order(), key);
      lru.VisitKey(key);
    }

    /** Contents and order after a put of a framed value with eviction. */
    ghost predicate SetOutcome(c: Contents, order: seq<Bytes>, key: Bytes, framed: Bytes, c': Contents,
                               order': seq<Bytes>, ok: bool)
      requires tbl.maxSlots >= 1
    {
      var e := EvictPut(c, Id(key), framed, tbl.maxSlots, Ids(order));
      && c' == e.contents && e.kept <= |order| && ok == e.ok
      && order' == if e.ok then Visited(order[..e.kept], key) else order[..e.kept]
    }

    lemma EvictedOutcome(c: Contents, order: seq<Bytes>, key: Bytes, val: Bytes, c': Contents, order': seq<Bytes>,
                         ok: bool)
      requires tbl.maxSlots >= 1 && Evicting(c, order, key, val, c', order', true, ok)
      ensures SetOutcome(c, order, key, val, c', if ok then Visited(order', key) else order', ok)
    {
      assert order' == order[..|order'|];
    }

    /** Puts a framed value, evicting least recently written keys while the table has no room. */
    method SetFramed(key: Bytes, val: Bytes) returns (r: Result<()>)
      requires Valid() && 0 < |key| <= MAX_KEY && |val| >= VALUE_LEN && Room(key)
      modifies tbl, tbl.slots, lru
      ensures Valid() && r == (if r.Ok? then Ok(()) else Err(ErrTblSet))
      ensures lru.writes == if r.Ok? then Written(old(lru.writes), key) else old(lru.writes)
      ensures SetOutcome(old(tbl.Contents()), old(lru.Order()), key, val, tbl.Contents(), lru.Order(), r.Ok?)
    {
      ghost var c, order := tbl.Contents(), lru.Order();
      var ok := PutEvicting(key, val);
      EvictedOutcome(c, order, key, val, tbl.Contents(), lru.Order(), ok);
      if ok {
        Visit(key);
      }
      r := if ok then Ok(()) else Err(ErrTblSet);
    }

    // ---- what a set leaves behind

    /** Every stored key but the local-idc one is in the recency list. */
    ghost predicate AllTracked()
      requires tbl.maxSlots >= 1
      reads this, tbl, lru
    {
      Tracked(tbl.Contents(), Ids(lru.Order()), Id(LOCAL_IDC_KEY))
    }

    /** No other key shares the identity of the local-idc key. */
    lemma LocalAlone(key: Bytes)
      requires tbl.maxSlots >= 1 && Id(key) == Id(LOCAL_IDC_KEY)
      ensures key == LOCAL_IDC_KEY
    {
      assert |key| == 1 && key[..1] == key && LOCAL_IDC_KEY[..1] == LOCAL_IDC_KEY;
    }

    lemma LocalNotListed()
      requires Valid()
      ensures Id(LOCAL_IDC_KEY) !in Ids(lru.Order())
    {
      forall i | 0 <= i < |lru.Order()|
        ensures Ids(lru.Order())[i] != Id(LOCAL_IDC_KEY)
      {
        assert lru.Order()[i] in lru.Order();
        if Id(lru.Order()[i]) == Id(LOCAL_IDC_KEY) {
          LocalAlone(lru.Order()[i]);
        }
      }
    }

    ghost predicate SameAt(c: Contents, c': Contents, id: Ident) {
      (id in c <==> id in c') && (id in c ==> c[id] == c'[id])
    }

    /** Slots taken by the local-idc entry. */
    ghost function LocalCost(): nat
      requires tbl.maxSlots >= 1
      reads this, tbl
    {
      CostOf(tbl.Contents(), Id(LOCAL_IDC_KEY))
    }

    lemma VisitedTracked(c: Contents, id: Ident, keys: seq<Bytes>, key: Bytes)
      requires tbl.maxSlots >= 1 && id == Id(key) && Distinct(keys)
      requires Tracked(c - {id}, Ids(keys), Id(LOCAL_IDC_KEY))
      ensures Tracked(c, Ids(Visited(keys, key)), Id(LOCAL_IDC_KEY))
    {
      VisitedKeys(keys, key);
      var visited := Visited(keys, key);
      forall x | x in c
        ensures x == Id(LOCAL_IDC_KEY) || x in Ids(visited)
      {
        if x == id {
          assert key != LOCAL_IDC_KEY ==> Ids(visited)[0] == id;
        } else if x != Id(LOCAL_IDC_KEY) {
          assert x in c - {id};
          var i :| 0 <= i < |keys| && Ids(keys)[i] == x;
          assert keys[i] in visited;
          var j :| 0 <= j < |visited| && visited[j] == keys[i];
          assert Ids(visited)[j] == x;
        }
      }
    }

    /** What a set of a framed value means for the table it starts from. */
    lemma SetTracked(key: Bytes, val: Bytes)
      requires Valid() && AllTracked() && |val| >= VALUE_LEN
      ensures var e := EvictPut(tbl.Contents(), Id(key), val, tbl.maxSlots, Ids(lru.Order()));
              && e.kept <= |lru.Order()|
              && Tracked(e.contents - {Id(key)}, Ids(lru.Order()[..e.kept]), Id(LOCAL_IDC_KEY))
              && (key != LOCAL_IDC_KEY ==>
                    && (e.ok <==> Blocks(|val|) + LocalCost() <= tbl.maxSlots)
                    && SameAt(e.contents, tbl.Contents(), Id(LOCAL_IDC_KEY))
                    && (!e.ok ==> Id(key) !in e.contents))
    {
      tbl.UsedTotal();
      LocalNotListed();
      EvictStaysTracked(tbl.Contents(), Id(key), val, tbl.maxSlots, Ids(lru.Order()), Id(LOCAL_IDC_KEY));
      var e := EvictPut(tbl.Contents(), Id(key), val, tbl.maxSlots, Ids(lru.Order()));
      assert Ids(lru.Order())[..e.kept] == Ids(lru.Order()[..e.kept]);
      if key != LOCAL_IDC_KEY {
        if Id(key) == Id(LOCAL_IDC_KEY) { LocalAlone(key); }
        EvictTracked(tbl.Contents(), Id(key), val, tbl.maxSlots, Ids(lru.Order()), Id(LOCAL_IDC_KEY));
      }
    }

    /** The outcome of a set, given that every key was tracked. */
    lemma OutcomeTracked(key: Bytes, framed: Bytes, c': Contents, order': seq<Bytes>, ok: bool)
      requires Valid() && AllTracked() && |framed| >= VALUE_LEN
      requires SetOutcome(tbl.Contents(), lru.Order(), key, framed, c', order', ok)
      ensures Tracked(c', Ids(order'), Id(LOCAL_IDC_KEY))
      ensures key != LOCAL_IDC_KEY ==>
                && (ok <==> Blocks(|framed|) + LocalCost() <= tbl.maxSlots)
                && (!ok ==> Id(key) !in c')
                && SameAt(c', tbl.Contents(), Id(LOCAL_IDC_KEY))
    {
      SetTracked(key, framed);
      var e := EvictPut(tbl.Contents(), Id(key), framed, tbl.maxSlots, Ids(lru.Order()));
      var kept := lru.Order()[..e.kept];
      if ok {
        assert Distinct(kept);
        VisitedTracked(c', Id(key), kept, key);
      } else if key != LOCAL_IDC_KEY {
        assert c' - {Id(key)} == c';
      } else {
        assert forall x :: x in c' ==> x == Id(key) || x in c' - {Id(key)};
      }
    }

    /** No key that is still listed was written before one that has gone, but for the key just written. */
    ghost predicate OldestGone(order: seq<Bytes>, writes: seq<Bytes>, order': seq<Bytes>, key: Bytes) {
      forall x, y :: x in order && x !in order' && y in order && y in order' && y != key ==>
        LastWrite(writes, x) < LastWrite(writes, y)
    }

    lemma EvictsOldest(order: seq<Bytes>, writes: seq<Bytes>, kept: nat, key: Bytes, ok: bool)
      requires Distinct(order) && ByLastWrite(order, writes) && kept <= |order|
      ensures OldestGone(order, writes, if ok then Visited(order[..kept], key) else order[..kept], key)
    {
      var order' := if ok then Visited(order[..kept], key) else order[..kept];
      VisitedKeys(order[..kept], key);
      forall x, y | x in order && x !in order' && y in order && y in order' && y != key
        ensures LastWrite(writes, x) < LastWrite(writes, y)
      {
        var i :| 0 <= i < |order| && order[i] == x;
        var j :| 0 <= j < |order[..kept]| && order[..kept][j] == y;
        assert order[..kept][j] == order[j];
      }
    }

    /** What a set of a full table does to the last listed key. */
    ghost predicate LastGone(order: seq<Bytes>, key: Bytes, c': Contents, order': seq<Bytes>)
      requires tbl.maxSlots >= 1
    {
      order != [] ==>
        var last := order[|order| - 1];
        (last != key ==> last !in order') && (Id(last) != Id(key) ==> Id(last) !in c')
    }

    /** A full table refuses the first put, so a set of any key, stored or not, evicts the last listed key. */
    lemma FullSetEvicts(c: Contents, order: seq<Bytes>, key: Bytes, framed: Bytes, c': Contents, order': seq<Bytes>,
                        ok: bool)
      requires tbl.maxSlots >= 1 && |framed| >= 1 && Total(c) >= tbl.maxSlots && Distinct(order)
      requires SetOutcome(c, order, key, framed, c', order', ok)
      ensures LastGone(order, key, c', order')
    {
      if order != [] {
        var ids := Ids(order);
        FullEvictsLast(c, Id(key), framed, tbl.maxSlots, ids);
        EvictsShortestTail(c, Id(key), framed, tbl.maxSlots, ids);
        var kept := EvictPut(c, Id(key), framed, tbl.maxSlots, ids).kept;
        var n := |order| - 1;
        assert ids[kept..][n - kept] == Id(order[n]);
        SparedLacks(c, ids, kept, n);
        assert order[n] !in order[..kept];
        VisitedKeys(order[..kept], key);
        if Id(order[n]) != Id(key) {
          SparedLacks(c, ids, 0, n);
        }
      }
    }

    /** What a set that finds another value, or none, does to contents and order. */
    ghost predicate SetEffect(c: Contents, order: seq<Bytes>, writes: seq<Bytes>, key: Bytes, framed: Bytes,
                              c': Contents, order': seq<Bytes>, ok: bool)
      requires tbl.maxSlots >= 1
    {
      && SetOutcome(c, order, key, framed, c', order', ok)
      && (forall x :: x in c' && x != Id(key) ==> x in c && c'[x] == c[x])
      && (ok ==> Id(key) in c' && c'[Id(key)] == framed)
      && OldestGone(order, writes, order', key)
      && (Total(c) >= tbl.maxSlots ==> LastGone(order, key, c', order'))
    }

    lemma EffectOf(c: Contents, order: seq<Bytes>, writes: seq<Bytes>, key: Bytes, framed: Bytes,
                   c': Contents, order': seq<Bytes>, ok: bool)
      requires tbl.maxSlots >= 1 && |framed| >= 1 && Distinct(order) && ByLastWrite(order, writes)
      requires SetOutcome(c, order, key, framed, c', order', ok)
      ensures SetEffect(c, order, writes, key, framed, c', order', ok)
    {
      EvictStores(c, Id(key), framed, tbl.maxSlots, Ids(order));
      EvictFrame(c, Id(key), framed, tbl.maxSlots, Ids(order));
      EvictsOldest(order, writes, EvictPut(c, Id(key), framed, tbl.maxSlots, Ids(order)).kept, key, ok);
      if Total(c) >= tbl.maxSlots {
        FullSetEvicts(c, order, key, framed, c', order', ok);
      }
    }

    /** The set of a key whose value is to change. */
    method SetChanged(key: Bytes, framed: Bytes) returns (r: Result<()>)
      requires Valid() && 0 < |key| <= MAX_KEY && |framed| >= VALUE_LEN && Room(key)
      modifies tbl, tbl.slots, lru
      ensures Valid() && r == (if r.Ok? then Ok(()) else Err(ErrTblSet))
      ensures SetEffect(old(tbl.Contents()), old(lru.Order()), old(lru.writes), key, framed, tbl.Contents(),
                        lru.Order(), r.Ok?)
      ensures lru.writes == if r.Ok? then Written(old(lru.writes), key) else old(lru.writes)
      ensures old(AllTracked()) ==> AllTracked()
      ensures old(AllTracked()) && key != LOCAL_IDC_KEY ==>
                && SameAt(tbl.Contents(), old(tbl.Contents()), Id(LOCAL_IDC_KEY))
                && (r.Ok? <==> Blocks(|framed|) + old(LocalCost()) <= tbl.maxSlots)
                && (r.Err? ==> Id(key) !in tbl.Contents())
    {
      ghost var c, order, writes := tbl.Contents(), lru.Order(), lru.writes;
      ghost var c', order', ok := Outcome(key, framed);
      EffectOf(c, order, writes, key, framed, c', order', ok);
      if AllTracked() {
        OutcomeTracked(key, framed, c', order', ok);
      }
      r := SetFramed(key, framed);
    }

    /** Stores a value unless the table already holds it. */
    method Set(key: Bytes, val: Bytes) returns (r: Result<()>)
      requires Valid() && |key| <= MAX_KEY && |val| < Pow256(VALUE_LEN)
      requires key != [] ==> Room(key)
      modifies tbl, tbl.slots, lru
      ensures Valid()
      ensures key == [] ==> r == Err(ErrParam)
      ensures key != [] && old(Lookup(key)) == Ok(val) ==> r == Err(ErrSameValue)
      ensures key == [] || old(Lookup(key)) == Ok(val) ==>
                tbl.Contents() == old(tbl.Contents()) && lru.Order() == old(lru.Order())
      ensures key != [] && old(Lookup(key)) != Ok(val) ==>
                && SetEffect(old(tbl.Contents()), old(lru.Order()), old(lru.writes), key, Framed(tbl.md5, val),
                             tbl.Contents(), lru.Order(), r.Ok?)
                && r == if r.Ok? then Ok(()) else Err(ErrTblSet)
      ensures key != [] && old(Lookup(key)) != Ok(val) && old(tbl.usedSlots) >= tbl.maxSlots ==>
                LastGone(old(lru.Order()), key, tbl.Contents(), lru.Order())
      ensures lru.writes == if r.Ok? then Written(old(lru.writes), key) else old(lru.writes)
      ensures key != [] && r != Err(ErrTblSet) ==> Lookup(key) == Ok(val)
      ensures forall x :: x in tbl.Contents() && x != Id(key) ==>
                x in old(tbl.Contents()) && tbl.Contents()[x] == old(tbl.Contents())[x]
      ensures old(AllTracked()) ==> AllTracked()
      ensures old(AllTracked()) && key != [] && key != LOCAL_IDC_KEY ==>
                && (Lookup(key) == Ok(val) || Lookup(key) == Err(ErrNotFound))
                && (r == Err(ErrTblSet) ==> Lookup(key) == Err(ErrNotFound))
                && SameAt(tbl.Contents(), old(tbl.Contents()), Id(LOCAL_IDC_KEY))
                && (Blocks(|Framed(tbl.md5, val)|) + old(LocalCost()) <= tbl.maxSlots ==> Lookup(key) == Ok(val))
    {
      if key == [] {
        return Err(ErrParam);
      }
      var inMem := Get(key);
      if inMem.Ok? && inMem.value == val {
        return Err(ErrSameValue);
      }
      tbl.UsedTotal();
      VerifyFramed(tbl.md5, val);
      r := SetChanged(key, Framed(tbl.md5, val));
    }

    lemma Outcome(key: Bytes, framed: Bytes) returns (c': Contents, order': seq<Bytes>, ok: bool)
      requires Valid() && |framed| >= VALUE_LEN
      ensures SetOutcome(tbl.Contents(), lru.Order(), key, framed, c', order', ok)
    {
      var e := EvictPut(tbl.Contents(), Id(key), framed, tbl.maxSlots, Ids(lru.Order()));
      KeptBound(tbl.Contents(), Id(key), framed, tbl.maxSlots, Ids(lru.Order()));
      c', ok := e.contents, e.ok;
      order' := if e.ok then Visited(lru.Order()[..e.kept], key) else lru.Order()[..e.kept];
    }

    // ---- traversal

    /** What the traversal returns for a stored entry: its whole key and its value, or the error. */
    ghost function EntryResult(id: Ident): Result<(Bytes, Bytes)>
      requires Sized() && id in tbl.Contents()
      reads tbl
    {
      var v := Verify(tbl.md5, tbl.Contents()[id]);
      if v.Err? then Err(v.error)
      else
        var k := RecoverKey(id.prefix, v.value);
        if k.Ok? then Ok((k.value, v.value)) else Err(k.error)
    }

    /** No entry is taken for the end of the table, and no key is empty. */
    lemma EntryKinds(id: Ident)
      requires Valid() && id in tbl.Contents()
      ensures EntryResult(id) != Err(ErrTblEnd)
      ensures EntryResult(id).Ok? ==> EntryResult(id).value.0 != []
    {
    }

    /** Every stored value was encoded with its own key; `keys` names the keys. */
    ghost predicate SelfDescribing(keys: map<Ident, KeyParts>)
      requires tbl.maxSlots >= 1 && Sized()
      reads tbl
    {
      forall id :: id in tbl.Contents() ==> EntryDescribed(keys, id)
    }

    ghost predicate EntryDescribed(keys: map<Ident, KeyParts>, id: Ident)
      requires tbl.maxSlots >= 1 && Sized() && id in tbl.Contents()
      reads tbl
    {
      && id in keys && id == Id(SerializeKey(keys[id]))
      && Verify(tbl.md5, tbl.Contents()[id]).Ok?
      && Describes(Verify(tbl.md5, tbl.Contents()[id]).value, keys[id])
    }

    /** In a self-describing table the traversal yields the entry's own key and value. */
    lemma YieldsFullKey(keys: map<Ident, KeyParts>, id: Ident)
      requires Valid() && SelfDescribing(keys) && id in tbl.Contents()
      ensures EntryDescribed(keys, id)
      ensures EntryResult(id) == Ok((SerializeKey(keys[id]), Verify(tbl.md5, tbl.Contents()[id]).value))
      ensures DeserializeKey(SerializeKey(keys[id])) == Ok(keys[id])
    {
      assert EntryDescribed(keys, id);
      KeyRecovered(Verify(tbl.md5, tbl.Contents()[id]).value, keys[id], id.prefix);
      KeyRoundTrip(keys[id]);
    }

    /** The next entry at or after idx, with its whole key. */
    method GetNext(idx: nat) returns (r: Result<(Bytes, Bytes)>, next: nat, ghost id: Ident)
      requires Valid()
      ensures tbl.Ahead(idx) == {} ==>
                && next == 1 + (if idx < tbl.maxSlots then tbl.maxSlots else idx)
                && r == Err(if idx <= tbl.maxSlots then ErrTblEnd else ErrNotFound)
      ensures tbl.Ahead(idx) != {} ==>
                && idx < next <= tbl.maxSlots && id in tbl.Contents()
                && id !in tbl.Ahead(next) && tbl.Ahead(idx) == tbl.Ahead(next) + {id}
                && r == EntryResult(id)
    {
      var found, name, data;
      found, name, data, next, id := tbl.GetNext(idx);
      if !found {
        next := next + 1;
        return Err(if next == tbl.maxSlots + 1 then ErrTblEnd else ErrNotFound), next, id;
      }
      var v := Verify(tbl.md5, data);
      if v.Err? {
        return Err(v.error), next, id;
      }
      var k := RecoverKey(name, v.value);
      r := if k.Ok? then Ok((k.value, v.value)) else Err(k.error);
    }

    lemma AheadShrinks(idx: nat, next: nat)
      requires Valid() && idx <= next
      ensures tbl.Ahead(next) <= tbl.Ahead(idx)
      ensures next >= tbl.maxSlots ==> tbl.Ahead(next) == {}
    {
      tbl.AheadAll();
    }

    /** The keys whose heads lie before idx. */
    ghost function Passed(idx: nat): set<Ident>
      reads tbl
    {
      tbl.Contents().Keys - tbl.Ahead(idx)
    }

    /** One round of a traversal inside the table: an entry that was not passed before, or the end. */
    method Advance(idx: nat) returns (r: Result<(Bytes, Bytes)>, next: nat, ghost id: Ident)
      requires Valid() && idx < tbl.maxSlots
      ensures idx < next && (next >= tbl.maxSlots ==> Passed(next) == tbl.Contents().Keys)
      ensures r == Err(ErrTblEnd) ==> Passed(next) == Passed(idx)
      ensures r != Err(ErrTblEnd) ==>
                && id in tbl.Contents() && id !in Passed(idx) && Passed(next) == Passed(idx) + {id}
                && r == EntryResult(id) && (r.Ok? ==> r.value.0 != [])
    {
      r, next, id := GetNext(idx);
      AheadShrinks(idx, next);
      if tbl.Ahead(idx) != {} {
        EntryKinds(id);
      }
    }

    /** The items are what the traversal returns for the ids, no id twice. */
    ghost predicate Visits(items: seq<Result<(Bytes, Bytes)>>, ids: seq<Ident>)
      requires Sized()
      reads tbl
    {
      && |items| == |ids|
      && (forall i, j :: 0 <= i < j < |ids| ==> ids[i] != ids[j])
      && forall i :: 0 <= i < |ids| ==> ids[i] in tbl.Contents() && items[i] == EntryResult(ids[i])
    }

    /** The ids are those of the entries before idx. */
    ghost predicate Traversed(items: seq<Result<(Bytes, Bytes)>>, ids: seq<Ident>, passed: set<Ident>)
      requires Sized()
      reads tbl
    {
      Visits(items, ids) && (set id | id in ids) == passed
    }

    lemma TraversedMore(items: seq<Result<(Bytes, Bytes)>>, ids: seq<Ident>, passed: set<Ident>, id: Ident)
      requires Valid() && Traversed(items, ids, passed) && id !in passed && id in tbl.Contents()
      ensures Traversed(items + [EntryResult(id)], ids + [id], passed + {id})
    {
      assert id in ids ==> id in passed;
      assert (set x | x in ids + [id]) == (set x | x in ids) + {id};
    }

    lemma NonePassed()
      requires Valid()
      ensures Passed(0) == {}
    {
      tbl.AheadAll();
    }

    /** One round of the traversal: an item for the entry met, nothing at the end. */
    method TraverseNext(idx: nat, items: seq<Result<(Bytes, Bytes)>>, ghost ids: seq<Ident>)
      returns (next: nat, items': seq<Result<(Bytes, Bytes)>>, ghost ids': seq<Ident>)
      requires Valid() && idx < tbl.maxSlots && Traversed(items, ids, Passed(idx))
      ensures idx < next && (next >= tbl.maxSlots ==> Passed(next) == tbl.Contents().Keys)
      ensures Traversed(items', ids', Passed(next))
    {
      var r;
      ghost var id;
      r, next, id := Advance(idx);
      items', ids' := items, ids;
      if r != Err(ErrTblEnd) {
        TraversedMore(items, ids, Passed(idx), id);
        items' := items + [r];
        ids' := ids + [id];
      }
    }

    /** A whole traversal ends, and meets every stored entry exactly once. */
    method Traverse() returns (items: seq<Result<(Bytes, Bytes)>>, ghost ids: seq<Ident>)
      requires Valid()
      ensures Traversed(items, ids, tbl.Contents().Keys)
    {
      var idx := 0;
      items, ids := [], [];
      NonePassed();
      while idx < tbl.maxSlots
        invariant Traversed(items, ids, Passed(idx))
        invariant idx >= tbl.maxSlots ==> Passed(idx) == tbl.Contents().Keys
        decreases tbl.maxSlots - idx
      {
        idx, items, ids := TraverseNext(idx, items, ids);
      }
    }

    /** In a self-describing table the traversal returns every key with its value. */
    lemma TraverseDescribed(items: seq<Result<(Bytes, Bytes)>>, ids: seq<Ident>, keys: map<Ident, KeyParts>, i: nat)
      requires Valid() && SelfDescribing(keys) && Visits(items, ids) && i < |ids|
      ensures ids[i] in keys && items[i] == Ok((SerializeKey(keys[ids[i]]),
                                                Verify(tbl.md5, tbl.Contents()[ids[i]]).value))
    {
      YieldsFullKey(keys, ids[i]);
    }

    // ---- the recency list of an inherited table

    predicate HasPath(key: Bytes) {
      DeserializeKey(key).Ok? && DeserializeKey(key).value.path != []
    }

    /** Visits a key when it has a path. */
    method VisitPath(key: Bytes)
      requires Valid() && key != []
      modifies lru
      ensures Valid()
      ensures lru.Order() == if HasPath(key) then Visited(old(lru.Order()), key) else old(lru.Order())
      ensures lru.writes == if HasPath(key) then old(lru.writes) + [key] else old(lru.writes)
      ensures forall x :: x in lru.Order() <==> x in old(lru.Order()) || (x == key && HasPath(key))
    {
      var parts := DeserializeKey(key);
      if parts.Ok? && parts.value.path != [] {
        VisitedKeys(lru.Order(), key);
        Visit(key);
      }
    }

    ghost function Firsts(w: seq<(Bytes, Ident)>): (ks: seq<Bytes>)
      ensures |ks| == |w|
      ensures forall i :: 0 <= i < |w| ==> ks[i] == w[i].0
    {
      seq(|w|, i requires 0 <= i < |w| => w[i].0)
    }

    ghost predicate KeyOf(k: Bytes, id: Ident)
      requires Sized()
      reads tbl
    {
      id in tbl.Contents() && EntryResult(id).Ok? && EntryResult(id).value.0 == k
    }

    /** Keys with the entries they come from, which lie before idx in the order of their first slots. */
    ghost predicate InSlotOrder(w: seq<(Bytes, Ident)>, idx: nat)
      requires Sized()
      reads tbl
    {
      && (forall i :: 0 <= i < |w| ==> w[i].1 in Passed(idx) && KeyOf(w[i].0, w[i].1))
      && (forall i, j :: 0 <= i < j < |w| ==> tbl.FirstSlot(w[i].1) < tbl.FirstSlot(w[j].1))
    }

    lemma SlotOrderLater(w: seq<(Bytes, Ident)>, idx: nat, next: nat)
      requires Valid() && InSlotOrder(w, idx) && Passed(idx) <= Passed(next)
      ensures InSlotOrder(w, next)
    {
    }

    lemma SlotOrderEnd(w: seq<(Bytes, Ident)>, idx: nat)
      requires Valid() && InSlotOrder(w, idx)
      ensures InSlotOrder(w, tbl.maxSlots)
    {
      tbl.AheadAll();
    }

    lemma SlotOrderMore(w: seq<(Bytes, Ident)>, idx: nat, next: nat, id: Ident)
      requires Valid() && InSlotOrder(w, idx) && Passed(next) == Passed(idx) + {id} && id !in Passed(idx)
      requires id in tbl.Contents() && EntryResult(id).Ok?
      ensures InSlotOrder(w + [(EntryResult(id).value.0, id)], next)
      ensures Firsts(w + [(EntryResult(id).value.0, id)]) == Firsts(w) + [EntryResult(id).value.0]
    {
      forall i | 0 <= i < |w|
        ensures tbl.FirstSlot(w[i].1) < tbl.FirstSlot(id)
      {
        tbl.FirstSlotAhead(w[i].1, idx);
        tbl.FirstSlotAhead(id, idx);
      }
    }

    /** x is the key of one of the entries, and has a path. */
    ghost predicate KeyOfSome(ids: set<Ident>, x: Bytes)
      requires Sized() && ids <= tbl.Contents().Keys
      reads tbl
    {
      HasPath(x) && exists id :: id in ids && EntryResult(id).Ok? && EntryResult(id).value.0 == x
    }

    /** All entries passed can be read, and the list has got exactly their keys with a path. */
    ghost predicate Rebuilt(before: seq<Bytes>, passed: set<Ident>, order: seq<Bytes>)
      requires Sized() && passed <= tbl.Contents().Keys
      reads tbl
    {
      && (forall id :: id in passed ==> EntryResult(id).Ok?)
      && (forall x :: x in order <==> x in before || KeyOfSome(passed, x))
    }

    lemma RebuiltMore(before: seq<Bytes>, passed: set<Ident>, order: seq<Bytes>, id: Ident, order': seq<Bytes>)
      requires Valid() && passed <= tbl.Contents().Keys && Rebuilt(before, passed, order)
      requires id in tbl.Contents() && EntryResult(id).Ok?
      requires forall x :: x in order' <==> x in order || (x == EntryResult(id).value.0 && HasPath(x))
      ensures Rebuilt(before, passed + {id}, order')
    {
      KeyOfMore(passed, id);
    }

    /** How far the list is rebuilt, standing at idx: which keys it has got, and in which order. */
    ghost predicate RebuiltTo(before: Recency, order: seq<Bytes>, writes: seq<Bytes>, idx: nat, w: seq<(Bytes, Ident)>)
      requires Sized()
      reads tbl
    {
      Rebuilt(before.order, Passed(idx), order) && writes == before.writes + Firsts(w) && InSlotOrder(w, idx)
    }

    /** The keys written once the entry id has been passed. */
    ghost function WrittenMore(w: seq<(Bytes, Ident)>, id: Ident, key: Bytes): seq<(Bytes, Ident)> {
      if HasPath(key) then w + [(key, id)] else w
    }

    lemma RebuiltToMore(before: Recency, now: Recency, idx: nat, next: nat, w: seq<(Bytes, Ident)>, id: Ident,
                        key: Bytes, order: seq<Bytes>)
      requires Valid() && RebuiltTo(before, now.order, now.writes, idx, w)
      requires Passed(next) == Passed(idx) + {id} && id !in Passed(idx)
      requires id in tbl.Contents() && EntryResult(id).Ok? && EntryResult(id).value.0 == key
      requires forall x :: x in order <==> x in now.order || (x == key && HasPath(key))
      ensures RebuiltTo(before, order, if HasPath(key) then now.writes + [key] else now.writes, next,
                        WrittenMore(w, id, key))
    {
      RebuiltMore(before.order, Passed(idx), now.order, id, order);
      if HasPath(key) {
        SlotOrderMore(w, idx, next, id);
      } else {
        SlotOrderLater(w, idx, next);
      }
    }

    /** One round: the next entry's key is visited, or the entry cannot be read. */
    method VisitNext(idx: nat, ghost before: Recency, ghost w: seq<(Bytes, Ident)>)
      returns (ok: bool, next: nat, ghost w': seq<(Bytes, Ident)>)
      requires Valid() && idx < tbl.maxSlots && RebuiltTo(before, lru.Order(), lru.writes, idx, w)
      modifies lru
      ensures Valid() && idx < next && (next >= tbl.maxSlots ==> Passed(next) == tbl.Contents().Keys)
      ensures ok ==> RebuiltTo(before, lru.Order(), lru.writes, next, w')
      ensures !ok ==> exists id :: id in tbl.Contents() && EntryResult(id).Err?
    {
      var r;
      ghost var id;
      r, next, id := Advance(idx);
      ok := r.Ok? || r.error == ErrTblEnd;
      w' := w;
      if r.Ok? {
        w' := VisitEntry(idx, next, id, r.value.0, before, w);
      }
    }

    method VisitEntry(ghost idx: nat, ghost next: nat, ghost id: Ident, key: Bytes, ghost before: Recency,
                      ghost w: seq<(Bytes, Ident)>)
      returns (ghost w': seq<(Bytes, Ident)>)
      requires Valid() && RebuiltTo(before, lru.Order(), lru.writes, idx, w) && key != []
      requires Passed(next) == Passed(idx) + {id} && id !in Passed(idx)
      requires id in tbl.Contents() && EntryResult(id).Ok? && EntryResult(id).value.0 == key
      modifies lru
      ensures Valid() && RebuiltTo(before, lru.Order(), lru.writes, next, w')
    {
      ghost var now := Recency(lru.Order(), lru.writes);
      VisitPath(key);
      w' := WrittenMore(w, id, key);
      RebuiltToMore(before, now, idx, next, w, id, key, lru.Order());
    }

    /**
     Rebuilds the recency list from a table: it gets exactly the keys with a path, written in
     the order of their first slots, unless an entry cannot be read.
     */
    method InitLru() returns (ok: bool, ghost w: seq<(Bytes, Ident)>)
      requires Valid()
      modifies lru
      ensures Valid() && (ok <==> forall id :: id in tbl.Contents() ==> EntryResult(id).Ok?)
      ensures ok ==> forall x :: x in lru.Order() <==> x in old(lru.Order()) || KeyOfSome(tbl.Contents().Keys, x)
      ensures ok ==> lru.writes == old(lru.writes) + Firsts(w) && InSlotOrder(w, tbl.maxSlots)
    {
      var idx := 0;
      w := [];
      NonePassed();
      ghost var before := Recency(lru.Order(), lru.writes);
      while idx < tbl.maxSlots
        invariant Valid() && RebuiltTo(before, lru.Order(), lru.writes, idx, w)
        invariant idx >= tbl.maxSlots ==> Passed(idx) == tbl.Contents().Keys
        decreases tbl.maxSlots - idx
      {
        ok, idx, w := VisitNext(idx, before, w);
        if !ok {
          return;
        }
      }
      SlotOrderEnd(w, idx);
      ok := true;
    }

    lemma KeyOfMore(ids: set<Ident>, id: Ident)
      requires Valid() && ids <= tbl.Contents().Keys && id in tbl.Contents() && EntryResult(id).Ok?
      ensures forall x ::
                KeyOfSome(ids + {id}, x) <==> KeyOfSome(ids, x) || (x == EntryResult(id).value.0 && HasPath(x))
    {
    }

    /** Every stored key has a path or is the local-idc key. */
    ghost predicate AllListable(keys: map<Ident, KeyParts>)
      requires tbl.maxSlots >= 1 && Sized() && SelfDescribing(keys)
      reads tbl
    {
      forall id :: id in tbl.Contents() ==> Listable(keys, id)
    }

    ghost predicate Listable(keys: map<Ident, KeyParts>, id: Ident) {
      id in keys && (keys[id].path != [] || keys[id].dataType == LOCAL_IDC)
    }

    /** A key that can be listed is tracked by a list of all the stored keys with a path. */
    lemma ListableTracked(keys: map<Ident, KeyParts>, id: Ident)
      requires Valid() && SelfDescribing(keys) && id in tbl.Contents() && Listable(keys, id)
      requires forall x :: KeyOfSome(tbl.Contents().Keys, x) ==> x in lru.Order()
      ensures id == Id(LOCAL_IDC_KEY) || id in Ids(lru.Order())
    {
      YieldsFullKey(keys, id);
      var key := SerializeKey(keys[id]);
      if keys[id].path != [] {
        assert KeyOfSome(tbl.Contents().Keys, key);
        var i :| 0 <= i < |lru.Order()| && lru.Order()[i] == key;
        assert Ids(lru.Order())[i] == id;
      } else {
        assert Encodable(keys[id]) && key == LOCAL_IDC_KEY;
      }
    }

    /** And a key that cannot is not. */
    lemma TrackedListable(keys: map<Ident, KeyParts>, id: Ident)
      requires Valid() && SelfDescribing(keys) && id in tbl.Contents()
      requires forall x :: x in lru.Order() ==> KeyOfSome(tbl.Contents().Keys, x)
      requires id == Id(LOCAL_IDC_KEY) || id in Ids(lru.Order())
      ensures Listable(keys, id)
    {
      YieldsFullKey(keys, id);
      if id == Id(LOCAL_IDC_KEY) {
        LocalAlone(SerializeKey(keys[id]));
        assert SerializeKey(keys[id])[0] == LOCAL_IDC;
      } else {
        var i :| 0 <= i < |lru.Order()| && Ids(lru.Order())[i] == id;
        var x := lru.Order()[i];
        assert x in lru.Order();
        var other :| other in tbl.Contents() && EntryResult(other).Ok? && EntryResult(other).value.0 == x;
        YieldsFullKey(keys, other);
        assert other == Id(x) == id;
      }
    }

    /**
     A list rebuilt from nothing tracks every key if and only if every stored key has a path or is the
     local-idc key.
     */
    lemma InitTracks(keys: map<Ident, KeyParts>)
      requires Valid() && SelfDescribing(keys)
      requires forall x :: x in lru.Order() <==> KeyOfSome(tbl.Contents().Keys, x)
      ensures AllTracked() <==> AllListable(keys)
    {
      forall id | id in tbl.Contents()
        ensures (id == Id(LOCAL_IDC_KEY) || id in Ids(lru.Order())) <==> Listable(keys, id)
      {
        if Listable(keys, id) {
          ListableTracked(keys, id);
        }
        if id == Id(LOCAL_IDC_KEY) || id in Ids(lru.Order()) {
          TrackedListable(keys, id);
        }
      }
    }

    /** A restart on a self-describing table: the list is rebuilt from nothing. */
    method Restart(ghost keys: map<Ident, KeyParts>) returns (ok: bool)
      requires Valid() && SelfDescribing(keys) && lru.Order() == []
      modifies lru
      ensures Valid() && SelfDescribing(keys) && ok && (AllTracked() <==> AllListable(keys))
    {
      forall id | id in tbl.Contents()
        ensures EntryResult(id).Ok?
      {
        YieldsFullKey(keys, id);
      }
      var done, _ := InitLru();
      ok := done;
      InitTracks(keys);
    }
  }
}
