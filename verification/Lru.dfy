/** The recency list of table keys: the front was written last, the back is evicted first. */
module Lru {
  import opened Basics
  import opened Codec

  /** A list cell; its id stands for the list iterator that points to it. */
  datatype Cell = Cell(id: nat, key: Bytes)

  /** The keys of the cells, front first. */
  function Keys(cells: seq<Cell>): (ks: seq<Bytes>)
    ensures |ks| == |cells|
    ensures forall i :: 0 <= i < |cells| ==> ks[i] == cells[i].key
  {
    seq(|cells|, i requires 0 <= i < |cells| => cells[i].key)
  }

  /** ks without its first occurrence of k. */
  function Without(ks: seq<Bytes>, k: Bytes): (r: seq<Bytes>)
    ensures |r| <= |ks|
  {
    if ks == [] then [] else if ks[0] == k then ks[1..] else [ks[0]] + Without(ks[1..], k)
  }

  predicate Distinct(ks: seq<Bytes>) {
    forall i, j :: 0 <= i < j < |ks| ==> ks[i] != ks[j]
  }

  /** The list after a key has been written. */
  function Visited(ks: seq<Bytes>, k: Bytes): seq<Bytes> {
    if k == LOCAL_IDC_KEY then ks else [k] + Without(ks, k)
  }

  lemma DistinctCons(x: Bytes, ks: seq<Bytes>)
    requires Distinct(ks) && x !in ks
    ensures Distinct([x] + ks)
  {
    assert forall j :: 0 < j < |[x] + ks| ==> ([x] + ks)[j] == ks[j - 1];
  }

  lemma WithoutAbsent(ks: seq<Bytes>, k: Bytes)
    requires k !in ks
    ensures Without(ks, k) == ks
  {
  }

  lemma {:induction false} WithoutKeys(ks: seq<Bytes>, k: Bytes)
    requires Distinct(ks)
    ensures Distinct(Without(ks, k))
    ensures forall x :: x in Without(ks, k) <==> x in ks && x != k
  {
    if ks != [] {
      assert ks == [ks[0]] + ks[1..];
      WithoutKeys(ks[1..], k);
      if ks[0] == k {
        assert k !in ks[1..];
      } else {
        DistinctCons(ks[0], Without(ks[1..], k));
      }
    }
  }

  /** Writing a key keeps the list free of duplicates and puts the key in front. */
  lemma VisitedKeys(ks: seq<Bytes>, k: Bytes)
    requires Distinct(ks)
    ensures Distinct(Visited(ks, k))
    ensures forall x :: x in Visited(ks, k) <==> x in ks || (x == k && k != LOCAL_IDC_KEY)
    ensures k != LOCAL_IDC_KEY ==> Visited(ks, k)[0] == k
  {
    WithoutKeys(ks, k);
    DistinctCons(k, Without(ks, k));
  }

  lemma {:induction false} WithoutAt(ks: seq<Bytes>, i: nat)
    requires Distinct(ks) && i < |ks|
    ensures Without(ks, ks[i]) == ks[..i] + ks[i + 1..]
  {
    if i > 0 {
      WithoutAt(ks[1..], i - 1);
      assert ks[1..][..i - 1] == ks[1..i] && ks[1..][i..] == ks[i + 1..];
      assert ks[..i] == [ks[0]] + ks[1..i];
    }
  }

  // ---- the order, by when keys were written

  /** x stands before y. */
  ghost predicate StandsBefore(ks: seq<Bytes>, x: Bytes, y: Bytes) {
    exists i, j :: 0 <= i < j < |ks| && ks[i] == x && ks[j] == y
  }

  /** Where the keys of a list stand once the one at position p has gone. */
  lemma BeforeDropped(ks: seq<Bytes>, p: nat, x: Bytes, y: Bytes)
    requires p < |ks| && x != ks[p] && y != ks[p]
    ensures StandsBefore(ks[..p] + ks[p + 1..], x, y) <==> StandsBefore(ks, x, y)
  {
    var r := ks[..p] + ks[p + 1..];
    if StandsBefore(r, x, y) {
      var i, j :| 0 <= i < j < |r| && r[i] == x && r[j] == y;
      var i', j' := if i < p then i else i + 1, if j < p then j else j + 1;
      assert ks[i'] == x && ks[j'] == y;
    }
    if StandsBefore(ks, x, y) {
      var i, j :| 0 <= i < j < |ks| && ks[i] == x && ks[j] == y;
      var i', j' := if i < p then i else i - 1, if j < p then j else j - 1;
      assert r[i'] == x && r[j'] == y;
    }
  }

  lemma BeforeCons(k: Bytes, ks: seq<Bytes>, x: Bytes, y: Bytes)
    requires x != k && y != k
    ensures StandsBefore([k] + ks, x, y) <==> StandsBefore(ks, x, y)
  {
    var r := [k] + ks;
    if StandsBefore(r, x, y) {
      var i, j :| 0 <= i < j < |r| && r[i] == x && r[j] == y;
      assert ks[i - 1] == x && ks[j - 1] == y;
    }
    if StandsBefore(ks, x, y) {
      var i, j :| 0 <= i < j < |ks| && ks[i] == x && ks[j] == y;
      assert r[i + 1] == x && r[j + 1] == y;
    }
  }

  /** Writing a key leaves the order of the other keys as it is. */
  lemma VisitedOrder(ks: seq<Bytes>, k: Bytes, x: Bytes, y: Bytes)
    requires Distinct(ks) && x != k && y != k
    ensures StandsBefore(Visited(ks, k), x, y) <==> StandsBefore(ks, x, y)
  {
    if k != LOCAL_IDC_KEY {
      if k in ks {
        var p :| 0 <= p < |ks| && ks[p] == k;
        WithoutAt(ks, p);
        BeforeDropped(ks, p, x, y);
      } else {
        WithoutAbsent(ks, k);
      }
      BeforeCons(k, Without(ks, k), x, y);
    }
  }

  /** ks' is ks with k brought to the front, and everything else left in its order. */
  ghost predicate BroughtForward(ks: seq<Bytes>, ks': seq<Bytes>, k: Bytes) {
    && ks' != [] && ks'[0] == k
    && (forall x :: x in ks' <==> x in ks || x == k)
    && (forall x, y | x != k && y != k :: StandsBefore(ks', x, y) <==> StandsBefore(ks, x, y))
  }

  lemma VisitedForward(ks: seq<Bytes>, k: Bytes)
    requires Distinct(ks) && k != LOCAL_IDC_KEY
    ensures BroughtForward(ks, Visited(ks, k), k)
  {
    VisitedKeys(ks, k);
    forall x, y | x != k && y != k
      ensures StandsBefore(Visited(ks, k), x, y) <==> StandsBefore(ks, x, y)
    {
      VisitedOrder(ks, k, x, y);
    }
  }

  /** When a key was written last, counting from one; zero if never. */
  function LastWrite(writes: seq<Bytes>, k: Bytes): (n: nat)
    ensures n <= |writes|
    ensures n > 0 ==> writes[n - 1] == k
    ensures forall i :: n <= i < |writes| ==> writes[i] != k
  {
    if writes == [] then 0
    else if writes[|writes| - 1] == k then |writes|
    else LastWrite(writes[..|writes| - 1], k)
  }

  /** The keys are listed by their last write, newest first. */
  ghost predicate ByLastWrite(ks: seq<Bytes>, writes: seq<Bytes>) {
    && (forall i {:trigger LastWrite(writes, ks[i])} :: 0 <= i < |ks| ==> LastWrite(writes, ks[i]) > 0)
    && (forall i, j {:trigger LastWrite(writes, ks[i]), LastWrite(writes, ks[j])} ::
          0 <= i < j < |ks| ==> LastWrite(writes, ks[i]) > LastWrite(writes, ks[j]))
  }

  /** k was last written before every other key of ks. */
  ghost predicate Oldest(ks: seq<Bytes>, writes: seq<Bytes>, k: Bytes) {
    forall x :: x in ks && x != k ==> LastWrite(writes, k) < LastWrite(writes, x)
  }

  lemma LastWriteMore(writes: seq<Bytes>, k: Bytes, x: Bytes)
    ensures LastWrite(writes + [k], x) == if x == k then |writes| + 1 else LastWrite(writes, x)
  {
    assert (writes + [k])[..|writes|] == writes;
  }

  /** A write of k moves nothing but k, which is then the newest. */
  lemma VisitedByLastWrite(ks: seq<Bytes>, writes: seq<Bytes>, k: Bytes)
    requires Distinct(ks) && ByLastWrite(ks, writes) && k != LOCAL_IDC_KEY
    ensures ByLastWrite(Visited(ks, k), writes + [k])
  {
    var rest := Without(ks, k);
    WithoutKeys(ks, k);
    WithoutByLastWrite(ks, writes, k);
    forall i | 0 <= i < |rest|
      ensures LastWrite(writes + [k], rest[i]) == LastWrite(writes, rest[i])
    {
      assert rest[i] in rest;
      LastWriteMore(writes, k, rest[i]);
    }
    LastWriteMore(writes, k, k);
    ConsByLastWrite(k, rest, writes + [k]);
  }

  lemma ConsByLastWrite(k: Bytes, ks: seq<Bytes>, writes: seq<Bytes>)
    requires ByLastWrite(ks, writes) && LastWrite(writes, k) == |writes| > 0
    requires forall i {:trigger LastWrite(writes, ks[i])} :: 0 <= i < |ks| ==> LastWrite(writes, ks[i]) < |writes|
    ensures ByLastWrite([k] + ks, writes)
  {
    var r := [k] + ks;
    forall i | 0 <= i < |r|
      ensures LastWrite(writes, r[i]) > 0
    {
      if i > 0 {
        assert r[i] == ks[i - 1];
      }
    }
    forall i, j | 0 <= i < j < |r|
      ensures LastWrite(writes, r[i]) > LastWrite(writes, r[j])
    {
      var y := ks[j - 1];
      assert r[j] == y && LastWrite(writes, y) < |writes|;
      if i > 0 {
        var x := ks[i - 1];
        assert r[i] == x && LastWrite(writes, x) > LastWrite(writes, y);
      }
    }
  }

  /** Dropping one key keeps the order by last write. */
  lemma DroppedByLastWrite(ks: seq<Bytes>, writes: seq<Bytes>, p: nat)
    requires p < |ks| && ByLastWrite(ks, writes)
    ensures ByLastWrite(ks[..p] + ks[p + 1..], writes)
  {
    var r := ks[..p] + ks[p + 1..];
    forall i | 0 <= i < |r|
      ensures LastWrite(writes, r[i]) > 0
    {
      assert r[i] == ks[if i < p then i else i + 1];
    }
    forall i, j | 0 <= i < j < |r|
      ensures LastWrite(writes, r[i]) > LastWrite(writes, r[j])
    {
      assert r[i] == ks[if i < p then i else i + 1] && r[j] == ks[if j < p then j else j + 1];
    }
  }

  lemma WithoutByLastWrite(ks: seq<Bytes>, writes: seq<Bytes>, k: Bytes)
    requires Distinct(ks) && ByLastWrite(ks, writes)
    ensures ByLastWrite(Without(ks, k), writes)
  {
    if k in ks {
      var p :| 0 <= p < |ks| && ks[p] == k;
      WithoutAt(ks, p);
      DroppedByLastWrite(ks, writes, p);
    } else {
      WithoutAbsent(ks, k);
    }
  }

  /** Cells with distinct keys and ids, each found through the map. */
  ghost predicate CellsWf(cells: seq<Cell>, m: map<Bytes, nat>, nextId: nat) {
    && Distinct(Keys(cells))
    && (forall i, j :: 0 <= i < j < |cells| ==> cells[i].id != cells[j].id)
    && (forall i :: 0 <= i < |cells| ==> cells[i].id < nextId)
    && (forall i :: 0 <= i < |cells| ==> cells[i].key in m && m[cells[i].key] == cells[i].id)
  }

  function Dropped<T>(s: seq<T>, p: nat): seq<T>
    requires p < |s|
  {
    s[..p] + s[p + 1..]
  }

  lemma DroppedKeys(cells: seq<Cell>, p: nat)
    requires p < |cells| && Distinct(Keys(cells))
    ensures Keys(Dropped(cells, p)) == Without(Keys(cells), cells[p].key)
  {
    WithoutAt(Keys(cells), p);
    assert Keys(Dropped(cells, p)) == Dropped(Keys(cells), p);
  }

  lemma DroppedWf(cells: seq<Cell>, m: map<Bytes, nat>, nextId: nat, p: nat)
    requires CellsWf(cells, m, nextId) && p < |cells|
    ensures CellsWf(Dropped(cells, p), m, nextId)
  {
    DroppedKeys(cells, p);
    WithoutKeys(Keys(cells), cells[p].key);
    var r := Dropped(cells, p);
    forall i | 0 <= i < |r|
      ensures r[i].id < nextId && r[i].key in m && m[r[i].key] == r[i].id
    {
      assert r[i] == cells[if i < p then i else i + 1];
    }
    forall i, j | 0 <= i < j < |r|
      ensures r[i].id != r[j].id
    {
      assert r[i] == cells[if i < p then i else i + 1] && r[j] == cells[if j < p then j else j + 1];
    }
  }

  lemma LastCellWf(cells: seq<Cell>, m: map<Bytes, nat>, nextId: nat)
    requires cells != [] && CellsWf(cells, m, nextId)
    ensures CellsWf(cells[..|cells| - 1], m - {cells[|cells| - 1].key}, nextId)
  {
    var n := |cells| - 1;
    assert Keys(cells[..n]) == Keys(cells)[..n];
    assert forall i :: 0 <= i < n ==> Keys(cells)[i] != Keys(cells)[n];
  }

  /** Dropping the last cell and its map entry. */
  lemma LastCell(cells: seq<Cell>, m: map<Bytes, nat>, nextId: nat, writes: seq<Bytes>)
    requires cells != [] && CellsWf(cells, m, nextId) && ByLastWrite(Keys(cells), writes)
    requires forall k :: k in m ==> k in Keys(cells)
    ensures var n := |cells| - 1;
            var m' := m - {cells[n].key};
            && Keys(cells[..n]) == Keys(cells)[..n]
            && CellsWf(cells[..n], m', nextId) && ByLastWrite(Keys(cells[..n]), writes)
            && (forall k :: k in m' ==> k in Keys(cells[..n]))
  {
    var n := |cells| - 1;
    var ks := Keys(cells);
    assert Keys(cells[..n]) == ks[..n] && ks[..n] + ks[n + 1..] == ks[..n];
    DroppedByLastWrite(ks, writes, n);
    LastCellWf(cells, m, nextId);
    forall k | k in m && k != ks[n]
      ensures k in ks[..n]
    {
      var i :| 0 <= i < |ks| && ks[i] == k;
      assert ks[..n][i] == k;
    }
  }

  class List {
    var lruMem: seq<Cell>
    var keyToIterator: map<Bytes, nat>
    var nextId: nat
    ghost var writes: seq<Bytes>   // the keys written so far, oldest first

    /** The map holds, for exactly the listed keys, the cell of the key. */
    ghost predicate Valid()
      reads this
    {
      && CellsWf(lruMem, keyToIterator, nextId)
      && (forall k :: k in keyToIterator ==> k in Keys(lruMem))
      && ByLastWrite(Keys(lruMem), writes)
    }

    ghost function Order(): seq<Bytes>
      reads this
    {
      Keys(lruMem)
    }

    constructor ()
      ensures Valid() && Order() == [] && writes == []
    {
      lruMem, keyToIterator, nextId, writes := [], map[], 0, [];
    }

    /** The key to evict next, or the empty key: of the listed keys the one whose last write is oldest. */
    method GetRemoveKey() returns (key: Bytes)
      requires Valid()
      ensures key == if Order() == [] then [] else Order()[|Order()| - 1]
      ensures Oldest(Order(), writes, key)
    {
      if |lruMem| == 0 {
        return [];
      }
      return lruMem[|lruMem| - 1].key;
    }

    /** Drops the last key. */
    method RemoveKey() returns (key: Bytes)
      requires Valid() && Order() != []
      modifies this
      ensures Valid() && Order() == old(Order())[..|old(Order())| - 1] && key == old(Order())[|old(Order())| - 1]
      ensures writes == old(writes)
    {
      LastCell(lruMem, keyToIterator, nextId, writes);
      key := lruMem[|lruMem| - 1].key;
      lruMem := lruMem[..|lruMem| - 1];
      if key in keyToIterator {
        keyToIterator := keyToIterator - {key};
      }
    }

    /** Erases the cell the iterator points to. */
    method Erase(it: nat, ghost p: nat)
      requires p < |lruMem| && lruMem[p].id == it
      requires forall i, j :: 0 <= i < j < |lruMem| ==> lruMem[i].id != lruMem[j].id
      modifies this`lruMem
      ensures lruMem == Dropped(old(lruMem), p)
    {
      var i := 0;
      while lruMem[i].id != it
        invariant 0 <= i <= p
        decreases p - i
      {
        i := i + 1;
      }
      lruMem := lruMem[..i] + lruMem[i + 1..];
    }

    /** Puts a new cell for a key that is not listed in front. */
    method PushFront(key: Bytes)
      requires Unlisted(key) && ByLastWrite([key] + Keys(lruMem), writes)
      modifies this
      ensures Valid() && Order() == [key] + old(Order()) && writes == old(writes)
    {
      DistinctCons(key, Keys(lruMem));
      ghost var cells := lruMem;
      lruMem := [Cell(nextId, key)] + lruMem;
      keyToIterator := keyToIterator[key := nextId];
      nextId := nextId + 1;
      assert Keys(lruMem) == [key] + Keys(cells);
    }

    /** Valid, but for the key's own map entry. */
    ghost predicate Unlisted(key: Bytes)
      reads this
    {
      && key !in Keys(lruMem)
      && CellsWf(lruMem, keyToIterator, nextId)
      && (forall k :: k in keyToIterator && k != key ==> k in Keys(lruMem))
    }

    /** Erasing through the map's iterator erases the cell of the key. */
    method EraseKey(key: Bytes)
      requires Valid() && key in keyToIterator
      modifies this`lruMem
      ensures Unlisted(key) && Order() == Without(old(Order()), key)
    {
      ghost var cells := lruMem;
      ghost var p :| 0 <= p < |cells| && Keys(cells)[p] == key;
      DroppedKeys(cells, p);
      DroppedWf(cells, keyToIterator, nextId, p);
      WithoutKeys(Keys(cells), key);
      var it := keyToIterator[key];
      Erase(it, p);
    }

    /** A key has been written: it moves to the front. The local-idc key is never listed. */
    method VisitKey(key: Bytes)
      requires Valid()
      modifies this
      ensures Valid() && Order() == Visited(old(Order()), key)
      ensures if key == LOCAL_IDC_KEY then Order() == old(Order()) else BroughtForward(old(Order()), Order(), key)
      ensures writes == if key == LOCAL_IDC_KEY then old(writes) else old(writes) + [key]
    {
      if key == LOCAL_IDC_KEY {
        return;
      }
      VisitedByLastWrite(Keys(lruMem), writes, key);
      VisitedForward(Order(), key);
      if key !in keyToIterator {
        assert key !in Keys(lruMem);
        WithoutAbsent(Keys(lruMem), key);
      } else {
        EraseKey(key);
      }
      writes := writes + [key];
      PushFront(key);
    }
  }
}
