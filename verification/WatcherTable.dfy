/** The agent's writes to the shared table are the writes the protocol counts on. */
module WatcherTable {
  import opened Basics
  import opened Codec
  import opened Frame
  import opened HashArrModel
  import opened SharedTable
  import opened WatcherModel

  /** What a reader finds for a key in a table with these contents. */
  ghost function ReadFrom(shm: Shm, c: Contents, k: Key): Result<Bytes>
    requires shm.tbl.maxSlots >= 1
  {
    var id := shm.Id(KeyBytes(k));
    if id in c && |c[id]| >= VALUE_LEN then Verify(shm.tbl.md5, c[id]) else Err(ErrNotFound)
  }

  /** The table as the protocol sees it: the keys of a universe that a reader finds, with their values. */
  ghost function TableFrom(shm: Shm, c: Contents, universe: set<Key>): map<Key, Bytes>
    requires shm.tbl.maxSlots >= 1
  {
    map k | k in universe && ReadFrom(shm, c, k).Ok? :: ReadFrom(shm, c, k).value
  }

  /** No two keys of the universe look alike to the hash table. */
  ghost predicate Separate(shm: Shm, universe: set<Key>)
    requires shm.tbl.maxSlots >= 1
  {
    forall k, k' :: k in universe && k' in universe && shm.Id(KeyBytes(k)) == shm.Id(KeyBytes(k')) ==> k == k'
  }

  lemma NotLocal(k: Key)
    ensures KeyBytes(k) != [] && KeyBytes(k) != LOCAL_IDC_KEY
  {
    assert KeyBytes(k)[0] != LOCAL_IDC;
  }

  /** A reader of the shared table finds what the contents say. */
  lemma LookupReads(shm: Shm, k: Key)
    requires shm.Valid()
    ensures shm.Lookup(KeyBytes(k)) == ReadFrom(shm, shm.tbl.Contents(), k)
  {
  }

  /** Contents that agree but for one key, and lack entries perhaps, are what a write leaves. */
  lemma WroteFrom(shm: Shm, c: Contents, c': Contents, universe: set<Key>, k: Key, v: Bytes, stored: bool)
    requires shm.tbl.maxSlots >= 1 && Separate(shm, universe) && k in universe
    requires forall x :: x in c' && x != shm.Id(KeyBytes(k)) ==> x in c && c'[x] == c[x]
    requires ReadFrom(shm, c', k) == if stored then Ok(v) else Err(ErrNotFound)
    ensures Wrote(TableFrom(shm, c, universe), TableFrom(shm, c', universe), k, v, stored)
  {
    forall x | x in TableFrom(shm, c', universe) && x != k
      ensures ReadFrom(shm, c', x) == ReadFrom(shm, c, x)
    {
      assert shm.Id(KeyBytes(x)) != shm.Id(KeyBytes(k));
    }
  }

  lemma ReadRemoved(shm: Shm, c: Contents, universe: set<Key>, k: Key, x: Key)
    requires shm.tbl.maxSlots >= 1 && Separate(shm, universe) && k in universe && x in universe
    ensures ReadFrom(shm, c - {shm.Id(KeyBytes(k))}, x) == if x == k then Err(ErrNotFound) else ReadFrom(shm, c, x)
  {
    assert x != k ==> shm.Id(KeyBytes(x)) != shm.Id(KeyBytes(k));
  }

  lemma RemovedFrom(shm: Shm, c: Contents, c': Contents, universe: set<Key>, k: Key)
    requires shm.tbl.maxSlots >= 1 && Separate(shm, universe) && k in universe && c' == c - {shm.Id(KeyBytes(k))}
    ensures TableFrom(shm, c', universe) == TableFrom(shm, c, universe) - {k}
  {
    forall x | x in universe
      ensures x in TableFrom(shm, c', universe) <==> x in TableFrom(shm, c, universe) && x != k
      ensures x in TableFrom(shm, c', universe) ==> TableFrom(shm, c', universe)[x] == TableFrom(shm, c, universe)[x]
    {
      ReadRemoved(shm, c, universe, k, x);
    }
  }

  /** What a set does to the contents and to what a reader finds. */
  method SetKey(shm: Shm, key: Bytes, v: Bytes) returns (r: Result<()>)
    requires shm.Valid() && shm.AllTracked() && key != [] && key != LOCAL_IDC_KEY
    requires |key| <= MAX_KEY && |v| < Pow256(VALUE_LEN) && shm.Room(key)
    modifies shm.tbl, shm.tbl.slots, shm.lru
    ensures shm.Valid() && shm.AllTracked()
    ensures r == Err(ErrSameValue) ==> shm.tbl.Contents() == old(shm.tbl.Contents()) && old(shm.Lookup(key)) == Ok(v)
    ensures r != Err(ErrSameValue) ==> shm.Lookup(key) == if r.Ok? then Ok(v) else Err(ErrNotFound)
    ensures forall x :: x in shm.tbl.Contents() && x != shm.Id(key) ==>
              x in old(shm.tbl.Contents()) && shm.tbl.Contents()[x] == old(shm.tbl.Contents())[x]
  {
    r := shm.Set(key, v);
  }

  /**
   A write stores the value, finds it there already, or is refused and leaves the key absent;
   other keys keep their values or are evicted.
   */
  method WriteKey(shm: Shm, k: Key, v: Bytes, ghost universe: set<Key>) returns (r: Result<()>)
    requires shm.Valid() && shm.AllTracked() && Separate(shm, universe) && k in universe
    requires |KeyBytes(k)| <= MAX_KEY && |v| < Pow256(VALUE_LEN) && shm.Room(KeyBytes(k))
    modifies shm.tbl, shm.tbl.slots, shm.lru
    ensures shm.Valid() && shm.AllTracked()
    ensures var table := TableFrom(shm, old(shm.tbl.Contents()), universe);
            var table' := TableFrom(shm, shm.tbl.Contents(), universe);
            if r == Err(ErrSameValue) then table' == table && k in table && table[k] == v
            else Wrote(table, table', k, v, r.Ok?)
  {
    ghost var c := shm.tbl.Contents();
    NotLocal(k);
    LookupReads(shm, k);
    r := SetKey(shm, KeyBytes(k), v);
    LookupReads(shm, k);
    if r != Err(ErrSameValue) {
      WroteFrom(shm, c, shm.tbl.Contents(), universe, k, v, r.Ok?);
    }
  }

  /** A removal takes one key from the table. */
  method RemoveKey(shm: Shm, k: Key, ghost universe: set<Key>) returns (r: Result<()>)
    requires shm.Valid() && Separate(shm, universe) && k in universe
    modifies shm.tbl, shm.tbl.slots
    ensures shm.Valid() && r == Ok(())
    ensures TableFrom(shm, shm.tbl.Contents(), universe) == TableFrom(shm, old(shm.tbl.Contents()), universe) - {k}
  {
    NotLocal(k);
    ghost var c := shm.tbl.Contents();
    r := shm.Remove(KeyBytes(k));
    RemovedFrom(shm, c, shm.tbl.Contents(), universe, k);
  }
}
