/** The fixed-memory hash table: slots changed in place, refining a finite map. */
module HashArr {
  import opened Basics
  import opened HashArrModel

  datatype Errno = NoError | ENOBUFS | ENOENT | EFAULT

  type Digest = d: Bytes | |d| == 16 witness seq(16, _ => 0)

  /** Slot i lies on the cyclic walk that starts at `start` and has reached `cur`. */
  predicate Walked(start: nat, cur: nat, wrapped: bool, i: nat) {
    if wrapped then i >= start || i < cur else start <= i < cur
  }

  class Table {
    const maxSlots: nat
    const murmur: Bytes -> nat     // 32-bit hash of a key
    const md5: Bytes -> Digest
    const slots: array<Slot>
    var usedSlots: int
    var num: int
    ghost var entries: map<Ident, Entry>
    ghost var owner: seq<Owner>

    /** Links, keys, sizes and counters agree; says nothing of the leaders' counts. */
    ghost predicate Structured()
      reads this, slots
    {
      && slots.Length == maxSlots >= 1
      && Wf(slots[..], entries, owner)
      && usedSlots == |UsedSet(slots[..])|
      && num == |entries|
    }

    ghost predicate Valid()
      reads this, slots
    {
      Structured() && Leaders(slots[..], entries)
    }

    ghost function Contents(): Contents
      reads this
    {
      Abs(entries)
    }

    function Home(key: Bytes): nat
      requires maxSlots >= 1
    {
      murmur(key) % maxSlots
    }

    function IdentOf(key: Bytes): Ident
      requires maxSlots >= 1
    {
      Ident(Home(key), |key|, key[..Min(|key|, KEY_SIZE)], if |key| > KEY_SIZE then md5(key) else [])
    }

    /**
     Two keys are taken for one if and only if they have the same home and are equal, or
     longer than 32 bytes and alike in length, first 32 bytes and digest.
     */
    lemma IdentSeparates(k1: Bytes, k2: Bytes)
      requires maxSlots >= 1
      ensures IdentOf(k1) == IdentOf(k2)
              <==> && murmur(k1) % maxSlots == murmur(k2) % maxSlots
                   && (k1 == k2 || (|k1| == |k2| > 32 && k1[..32] == k2[..32] && md5(k1) == md5(k2)))
    {
      if |k1| <= KEY_SIZE {
        assert k1[..|k1|] == k1;
      }
      if |k2| <= KEY_SIZE {
        assert k2[..|k2|] == k2;
      }
    }

    constructor (maxSlots: nat, murmur: Bytes -> nat, md5: Bytes -> Digest)
      requires maxSlots >= 1
      ensures Valid() && fresh(slots) && Contents() == map[]
      ensures this.maxSlots == maxSlots && this.murmur == murmur && this.md5 == md5
    {
      this.maxSlots, this.murmur, this.md5 := maxSlots, murmur, md5;
      slots := new Slot[maxSlots](_ => EMPTY_SLOT);
      usedSlots, num := 0, 0;
      entries, owner := map[], seq(maxSlots, _ => Free);
      new;
      assert UsedSet(slots[..]) == {};
      assert Wf(slots[..], entries, owner);
    }

    /** The first empty slot on the cyclic walk from startIdx. */
    method FindEmpty(startIdx: nat) returns (idx: int)
      requires slots.Length == maxSlots >= 1
      ensures -1 <= idx < maxSlots
      ensures idx >= 0 ==> slots[idx].count == 0
      ensures idx >= 0 ==> var start := if startIdx >= maxSlots then 0 else startIdx;
                forall i :: 0 <= i < maxSlots && Walked(start, idx, idx < start, i) ==> slots[i].count != 0
      ensures idx == -1 <==> forall i :: 0 <= i < maxSlots ==> slots[i].count != 0
    {
      var start := if startIdx >= maxSlots then 0 else startIdx;
      var cur, wrapped := start, false;
      while true
        invariant if wrapped then 0 <= cur < start else start <= cur < maxSlots
        invariant forall i :: 0 <= i < maxSlots && Walked(start, cur, wrapped, i) ==> slots[i].count != 0
        decreases if wrapped then start - cur else maxSlots - cur + start
      {
        if slots[cur].count == 0 { return cur; }
        cur := cur + 1;
        if cur >= maxSlots { cur, wrapped := 0, true; }
        if cur == start { break; }
      }
      return -1;
    }

    /** The comparison of a lookup with a head slot of its own home. */
    predicate SameKey(slot: Slot, key: Bytes) {
      && slot.data.Pair?
      && |key| == slot.data.keyLen
      && if |key| <= KEY_SIZE then key == slot.data.key
         else key[..KEY_SIZE] == slot.data.key && md5(key) == slot.data.keyMd5
    }

    lemma SameKeyIff(slot: Slot, id: Ident, key: Bytes)
      requires maxSlots >= 1
      requires IdentWf(id, maxSlots) && HeadOf(slot, id) && id.home == Home(key)
      ensures SameKey(slot, key) <==> id == IdentOf(key)
    {
      if |key| <= KEY_SIZE {
        assert key[..|key|] == key;
      }
    }

    /** The keys of home `hash` whose head lies on the walk from `hash` to `idx`. */
    ghost function SeenIds(hash: nat, idx: nat, wrapped: bool): set<Ident>
      reads this
    {
      set x | x in entries && x.home == hash && |entries[x].chain| > 0
        && Walked(hash, idx, wrapped, entries[x].chain[0])
    }

    lemma HeadOwner(i: nat, h: nat)
      requires Structured() && i < maxSlots
      requires slots[i].hash == h && (slots[i].count > 0 || slots[i].count == -1)
      ensures owner[i].Owned? && owner[i].pos == 0 && owner[i].id in HomeKeys(entries, h)
      ensures EntryWf(entries, owner, owner[i].id) && entries[owner[i].id].chain[0] == i
      ensures HeadOf(slots[i], owner[i].id)
    {
      assert SlotWf(slots[..], entries, owner, i);
    }

    lemma HeadSlot(x: Ident)
      requires Structured() && x in entries
      ensures EntryWf(entries, owner, x) && entries[x].chain[0] < maxSlots && owner[entries[x].chain[0]] == Owned(x, 0)
      ensures HeadOf(slots[entries[x].chain[0]], x)
      ensures slots[entries[x].chain[0]].count > 0 <==> entries[x].chain[0] == x.home
    {
      assert EntryWf(entries, owner, x);
      var i := entries[x].chain[0];
      assert SlotWf(slots[..], entries, owner, i);
    }

    predicate IsHead(i: nat, hash: nat)
      requires i < slots.Length
      reads slots
    {
      slots[i].hash == hash && (slots[i].count > 0 || slots[i].count == -1)
    }

    /** One step of the walk sees the owner of slot idx when that slot is a head of the home, and nothing else. */
    lemma SeenStep(hash: nat, idx: nat, wrapped: bool, idx': nat, wrapped': bool)
      requires Structured() && hash < maxSlots && idx < maxSlots
      requires if wrapped then idx < hash else hash <= idx
      requires if idx + 1 >= maxSlots then idx' == 0 && wrapped' else idx' == idx + 1 && wrapped' == wrapped
      ensures if IsHead(idx, hash) then
                && owner[idx].Owned?
                && owner[idx].id !in SeenIds(hash, idx, wrapped)
                && SeenIds(hash, idx', wrapped') == SeenIds(hash, idx, wrapped) + {owner[idx].id}
              else SeenIds(hash, idx', wrapped') == SeenIds(hash, idx, wrapped)
    {
      forall x | x in entries && x.home == hash
        ensures |entries[x].chain| > 0 && entries[x].chain[0] < maxSlots && owner[entries[x].chain[0]] == Owned(x, 0)
        ensures IsHead(entries[x].chain[0], hash)
      {
        HeadSlot(x);
      }
      if IsHead(idx, hash) {
        HeadOwner(idx, hash);
      }
    }

    /** Having seen as many keys as the leader counts, or all slots, the walk has seen every key of the home. */
    lemma SeenAll(hash: nat, idx: nat, wrapped: bool)
      requires Valid() && hash < maxSlots && slots[hash].count > 0
      requires |SeenIds(hash, idx, wrapped)| >= slots[hash].count || (wrapped && idx == hash)
      ensures SeenIds(hash, idx, wrapped) == HomeKeys(entries, hash)
    {
      assert slots[..][hash].count == |HomeKeys(entries, hash)|;
      SubsetCard(SeenIds(hash, idx, wrapped), HomeKeys(entries, hash));
      forall x | x in HomeKeys(entries, hash)
        ensures |entries[x].chain| > 0
      {
        HeadSlot(x);
      }
    }

    lemma HeadMatches(idx: nat, hash: nat, key: Bytes)
      requires Structured() && idx < maxSlots && IsHead(idx, hash) && hash == Home(key)
      ensures owner[idx].Owned?
      ensures SameKey(slots[idx], key) <==> owner[idx].id == IdentOf(key)
      ensures owner[idx].id in entries && |entries[owner[idx].id].chain| > 0 && entries[owner[idx].id].chain[0] == idx
    {
      HeadOwner(idx, hash);
      SameKeyIff(slots[idx], owner[idx].id, key);
    }

    /** The walk from the key's home to idx has met `count` heads of that home and not the key. */
    ghost predicate Scanned(key: Bytes, idx: nat, wrapped: bool, count: int)
      requires maxSlots >= 1
      reads this
    {
      |SeenIds(Home(key), idx, wrapped)| == count && IdentOf(key) !in SeenIds(Home(key), idx, wrapped)
    }

    lemma ScanStep(key: Bytes, hash: nat, idx: nat, wrapped: bool, count: int)
      requires Structured() && hash == Home(key) && idx < maxSlots && Scanned(key, idx, wrapped, count)
      requires if wrapped then idx < hash else hash <= idx
      ensures if IsHead(idx, hash) && SameKey(slots[idx], key) then
                IdentOf(key) in entries && |entries[IdentOf(key)].chain| > 0 && entries[IdentOf(key)].chain[0] == idx
              else
                Scanned(key, if idx + 1 >= maxSlots then 0 else idx + 1, wrapped || idx + 1 >= maxSlots,
                        count + if IsHead(idx, hash) then 1 else 0)
    {
      SeenStep(hash, idx, wrapped, if idx + 1 >= maxSlots then 0 else idx + 1, wrapped || idx + 1 >= maxSlots);
      if IsHead(idx, hash) {
        HeadMatches(idx, hash, key);
      }
    }

    lemma ScanEnd(key: Bytes, hash: nat, idx: nat, wrapped: bool, count: int)
      requires Valid() && hash == Home(key) && slots[hash].count > 0 && Scanned(key, idx, wrapped, count)
      requires count >= slots[hash].count || (wrapped && idx == hash)
      ensures IdentOf(key) !in entries
    {
      SeenAll(hash, idx, wrapped);
      var id := IdentOf(key);
      assert id.home == hash;
    }

    /** The early-stopping lookup finds a key exactly when it is stored. */
    method GetIdx(key: Bytes, hash: nat) returns (r: int)
      requires Valid() && hash == Home(key)
      ensures -1 <= r < maxSlots
      ensures r >= 0 <==> IdentOf(key) in entries
      ensures r >= 0 ==> |entries[IdentOf(key)].chain| > 0 && r == entries[IdentOf(key)].chain[0]
    {
      if slots[hash].count > 0 {
        var idx, count := hash, 0;
        ghost var wrapped := false;
        assert SeenIds(hash, idx, wrapped) == {};
        while count < slots[hash].count
          invariant if wrapped then 0 <= idx < hash else hash <= idx < maxSlots
          invariant Scanned(key, idx, wrapped, count)
          decreases if wrapped then hash - idx else maxSlots - idx + hash
        {
          ScanStep(key, hash, idx, wrapped, count);
          if IsHead(idx, hash) {
            count := count + 1;
            if SameKey(slots[idx], key) {
              return idx;
            }
          }
          idx := idx + 1;
          if idx >= maxSlots {
            idx, wrapped := 0, true;
          }
          if idx == hash { break; }
        }
        ScanEnd(key, hash, idx, wrapped, count);
      }
      assert Led(slots[..], IdentOf(key)) ==> slots[hash].count > 0;
      return -1;
    }

    lemma ChainSlot(x: Ident, j: nat)
      requires Structured() && x in entries && j < |entries[x].chain|
      ensures EntryWf(entries, owner, x) && |entries[x].chain| <= maxSlots
      ensures entries[x].chain[j] < maxSlots && owner[entries[x].chain[j]] == Owned(x, j)
      ensures Holds(slots[entries[x].chain[j]], x, j, entries[x])
      ensures Start(j) <= |entries[x].value|
    {
      assert EntryWf(entries, owner, x);
      ChainDistinct(entries, owner, x);
      assert SlotWf(slots[..], entries, owner, entries[x].chain[j]);
    }

    /** Block j of a chain: how much of the value it holds and where the chain goes on. */
    lemma ChainStep(x: Ident, j: nat)
      requires Structured() && x in entries && j < |entries[x].chain|
      ensures entries[x].chain[j] < maxSlots && |entries[x].chain| <= maxSlots
      ensures Start(j) < |entries[x].value|
      ensures var slot, v := slots[entries[x].chain[j]], entries[x].value;
              var end := Min(|v|, Start(j + 1));
              && slot.size == end - Start(j)
              && (slot.count == -2 ==> slot.data.Ext?)
              && (slot.count != -2 ==> slot.data.Pair?)
              && Payload(slot) == v[Start(j)..end]
              && v[..end] == v[..Start(j)] + Payload(slot)[..slot.size]
              && slot.link == (if j + 1 < |entries[x].chain| then entries[x].chain[j + 1] else -1)
              && end == (if j + 1 < |entries[x].chain| then Start(j + 1) else |v|)
    {
      ChainSlot(x, j);
    }

    /** First pass of a read: the length of the value; the deadlock guard never fires. */
    method DataSize(idx: nat, ghost id: Ident) returns (size: Option<nat>)
      requires Structured() && id in entries && |entries[id].chain| > 0 && idx == entries[id].chain[0]
      ensures size == Some(|entries[id].value|)
    {
      ghost var chain := entries[id].chain;
      var newIdx, valSize, loopCount: nat := idx, 0, 0;
      ghost var j := 0;
      while newIdx != -1
        invariant 0 <= j < |chain| && newIdx == chain[j] && loopCount == j
        invariant valSize == Start(j)
        decreases |chain| - j
      {
        ChainStep(id, j);
        valSize := valSize + slots[newIdx].size;
        if slots[newIdx].link == -1 { break; }
        loopCount := loopCount + 1;
        if loopCount > maxSlots { return None; }
        newIdx := slots[newIdx].link;
        j := j + 1;
      }
      return Some(valSize);
    }

    /** Second pass: copies the blocks of the chain that starts at idx. */
    method GetData(idx: nat, ghost id: Ident) returns (value: Option<Bytes>)
      requires Structured() && id in entries && |entries[id].chain| > 0 && idx == entries[id].chain[0]
      ensures value == Some(entries[id].value)
    {
      ghost var chain, v := entries[id].chain, entries[id].value;
      assert v[..|v|] == v;
      assert EntryWf(entries, owner, id);
      var total := DataSize(idx, id);
      if total.None? { return None; }
      var valSize := total.value;
      var buf: Bytes := [];
      var newIdx, loopCount: nat := idx, 0;
      ghost var j := 0;
      while |buf| < valSize && newIdx != -1
        invariant 0 <= j < |chain| && newIdx == chain[j] && loopCount == j
        invariant Start(j) < |v| && buf == v[..Start(j)]
        decreases |chain| - j
      {
        ChainStep(id, j);
        var slot := slots[newIdx];
        if |buf| + slot.size > valSize { return None; }
        buf := buf + (if slot.count == -2 then slot.data.block[..slot.size] else slot.data.value[..slot.size]);
        if slot.link == -1 { break; }
        loopCount := loopCount + 1;
        if loopCount > maxSlots { return None; }
        newIdx := slot.link;
        j := j + 1;
        ChainStep(id, j);
      }
      return Some(buf);
    }

    ghost predicate Counted()
      reads this, slots
    {
      slots.Length == maxSlots >= 1 && usedSlots == |UsedSet(slots[..])|
    }

    method CopySlot(idx1: nat, idx2: nat) returns (ok: bool, err: Errno)
      requires Counted() && idx1 < maxSlots && idx2 < maxSlots
      modifies this`usedSlots, slots
      ensures Counted()
      ensures ok <==> old(slots[idx1].count) == 0 && old(slots[idx2].count) != 0
      ensures slots[..] == if ok then old(slots[..])[idx1 := old(slots[idx2])] else old(slots[..])
      ensures err == if ok then NoError else EFAULT
    {
      if slots[idx1].count != 0 || slots[idx2].count == 0 {
        return false, EFAULT;
      }
      UsedUpdate(slots[..], idx1, slots[idx2]);
      slots[idx1] := slots[idx2];
      assert slots[..] == old(slots[..])[idx1 := old(slots[idx2])];
      usedSlots := usedSlots + 1;
      return true, NoError;
    }

    method RemoveSlot(idx: nat) returns (ok: bool, err: Errno)
      requires Counted() && idx < maxSlots
      modifies this`usedSlots, slots
      ensures Counted()
      ensures ok <==> old(slots[idx].count) != 0
      ensures slots[..] == if ok then old(slots[..])[idx := old(slots[idx]).(count := 0)] else old(slots[..])
      ensures err == if ok then NoError else EFAULT
    {
      if slots[idx].count == 0 {
        return false, EFAULT;
      }
      UsedUpdate(slots[..], idx, slots[idx].(count := 0));
      slots[idx] := slots[idx].(count := 0);
      assert slots[..] == old(slots[..])[idx := old(slots[idx]).(count := 0)];
      usedSlots := usedSlots - 1;
      return true, NoError;
    }

    /** Empties the whole chain of the key whose head is idx. */
    method RemoveData(idx: nat, ghost id: Ident) returns (ok: bool, err: Errno)
      requires Structured() && idx < maxSlots
      requires slots[idx].count != 0 ==> id in entries && |entries[id].chain| > 0 && idx == entries[id].chain[0]
      modifies this, slots
      ensures Structured()
      ensures ok <==> old(slots[idx].count) != 0
      ensures ok ==> entries == old(entries) - {id} && slots[..] == Emptied(old(slots[..]), old(owner), id)
      ensures ok ==> owner == Released(old(owner), id)
      ensures !ok ==> entries == old(entries) && slots[..] == old(slots[..]) && owner == old(owner)
      ensures err == if ok then NoError else EFAULT
    {
      if slots[idx].count == 0 {
        return false, EFAULT;
      }
      ghost var s, chain := slots[..], entries[id].chain;
      var cur, loopCount := idx, 0;
      ghost var j := 0;
      while true
        invariant 0 <= j < |chain| && loopCount == j
        invariant cur == chain[j] && cur < maxSlots
        invariant entries == old(entries) && owner == old(owner) && num == old(num)
        invariant Counted() && slots[..] == EmptiedBelow(s, owner, id, j)
        decreases |chain| - j
      {
        EmptyStep(s, entries, owner, id, j);
        var link := slots[cur].link;
        var _, _ := RemoveSlot(cur);
        j := j + 1;
        if link == -1 { break; }
        cur := link;
        loopCount := loopCount + 1;
        if loopCount > maxSlots { break; }
      }
      num := num - 1;
      FreeEntry(s, entries, owner, id, slots[..]);
      owner := Released(owner, id);
      entries := entries - {id};
      return true, NoError;
    }

    /** The 16-bit length field of a head slot. */
    function KeyField(key: Bytes): (n: KeyLen)
      ensures |key| <= MAX_KEY ==> n == |key|
    {
      |key| % (MAX_KEY + 1)
    }

    /** A lookup recognises the head slot written for its own key exactly when the length fits the field. */
    lemma HeadRecognised(key: Bytes, v: Bytes, count: Count, hash: nat, size: Size)
      ensures SameKey(Slot(count, hash, size, -1, Pair(v, key[..Min(|key|, KEY_SIZE)], KeyField(key), md5(key))), key)
              <==> |key| <= MAX_KEY
    {
      if |key| <= KEY_SIZE {
        assert key[..|key|] == key;
      }
    }

    /** Fills the empty slot idx as a head and stores the first bytes of the value in it. */
    method StoreHead(idx: nat, hash: nat, key: Bytes, value: Bytes, count: Count) returns (copySize: nat)
      requires Structured() && idx < maxSlots && hash == Home(key) && |key| <= MAX_KEY && |value| >= 1
      requires slots[idx].count == 0 && IdentOf(key) !in entries
      requires (count > 0 || count == -1) && (count > 0 <==> idx == hash)
      modifies this, slots
      ensures Structured() && usedSlots == old(usedSlots) + 1
      ensures copySize == Min(|value|, VALUE_SIZE)
      ensures entries == old(entries)[IdentOf(key) := Entry([idx], value[..copySize])]
      ensures slots[idx].count == count
      ensures Grown(old(slots[..]), old(owner), slots[..], owner, IdentOf(key), idx)
    {
      ghost var id, s := IdentOf(key), slots[..];
      copySize := |value|;
      if copySize > VALUE_SIZE { copySize := VALUE_SIZE; }
      slots[idx] := Slot(count, hash, copySize, -1,
                         Pair(value[..copySize], key[..Min(|key|, KEY_SIZE)], KeyField(key), md5(key)));
      num := num + 1;
      usedSlots := usedSlots + 1;
      assert slots[..] == s[idx := slots[idx]];
      UsedUpdate(s, idx, slots[idx]);
      GrownFirst(s, entries, owner, id, idx, slots[idx]);
      BeginEntry(s, entries, owner, idx, id, slots[idx], value[..copySize]);
      entries := entries[id := Entry([idx], value[..copySize])];
      owner := owner[idx := Owned(id, 0)];
    }

    /** Links the empty slot tmpIdx behind the last block newIdx and stores the next bytes of the value in it. */
    method StoreBlock(newIdx: nat, tmpIdx: nat, value: Bytes, saved: nat, ghost id: Ident) returns (copySize: nat)
      requires Structured() && id in entries && tmpIdx < maxSlots && slots[tmpIdx].count == 0
      requires |entries[id].chain| >= 1 && newIdx == entries[id].chain[|entries[id].chain| - 1]
      requires saved == Start(|entries[id].chain|) < |value| && entries[id].value == value[..saved]
      modifies this, slots
      ensures Structured() && usedSlots == old(usedSlots) + 1
      ensures copySize == Min(|value| - saved, EXT_SIZE)
      ensures entries == old(entries)[id := Entry(old(entries)[id].chain + [tmpIdx], value[..saved + copySize])]
      ensures Grown(old(slots[..]), old(owner), slots[..], owner, id, tmpIdx) && slots[tmpIdx].count == -2
    {
      ghost var s := slots[..];
      ExtendAt(id, tmpIdx);
      copySize := |value| - saved;
      if copySize > EXT_SIZE { copySize := EXT_SIZE; }
      slots[tmpIdx] := Slot(-2, newIdx, copySize, -1, Ext(value[saved..saved + copySize]));
      slots[newIdx] := slots[newIdx].(link := tmpIdx);
      usedSlots := usedSlots + 1;
      ghost var w := value[saved..saved + copySize];
      assert value[..saved + copySize] == value[..saved] + w;
      ExtendEntry(s, entries, owner, id, tmpIdx, w);
      UsedUpdate(s, tmpIdx, Slot(-2, newIdx, |w|, -1, Ext(w)));
      UsedUpdate(s[tmpIdx := Slot(-2, newIdx, |w|, -1, Ext(w))], newIdx, s[newIdx].(link := tmpIdx));
      assert slots[..] == s[tmpIdx := Slot(-2, newIdx, |w|, -1, Ext(w))][newIdx := s[newIdx].(link := tmpIdx)];
      owner := owner[tmpIdx := Owned(id, |entries[id].chain|)];
      entries := entries[id := Entry(entries[id].chain + [tmpIdx], value[..saved + copySize])];
    }

    lemma ExtendAt(id: Ident, tmpIdx: nat)
      requires Structured() && id in entries && tmpIdx < maxSlots && slots[tmpIdx].count == 0
      ensures owner[tmpIdx].Free? && |entries[id].chain| >= 1
      ensures var last := entries[id].chain[|entries[id].chain| - 1];
              last < maxSlots && last != tmpIdx && slots[last].count != 0
    {
      assert EntryWf(entries, owner, id);
      assert SlotWf(slots[..], entries, owner, tmpIdx);
      assert SlotWf(slots[..], entries, owner, entries[id].chain[|entries[id].chain| - 1]);
    }

    /** Takes back an entry under construction that found every slot taken. */
    method UndoPut(idx: nat, ghost id: Ident, ghost n: nat, ghost s: seq<Slot>, ghost m: map<Ident, Entry>,
                   ghost own: seq<Owner>)
      requires Structured() && idx < maxSlots && id in entries && Added(m, entries, id, entries[id].value)
      requires |entries[id].chain| >= 1 && entries[id].chain[0] == idx
      requires |entries[id].value| == Start(|entries[id].chain|) < n
      requires forall i :: 0 <= i < maxSlots ==> slots[i].count != 0
      requires Wf(s, m, own) && Grown(s, own, slots[..], owner, id, idx) && |s| == maxSlots && s[idx].count == 0
      modifies this, slots
      ensures Structured() && entries == m
      ensures CountsKept(s, slots[..], idx) && slots[idx].count == 0
      ensures |old(entries)[id].chain| < Blocks(n)
      ensures old(usedSlots) == maxSlots
    {
      FullIff(slots[..]);
      StoppedShort(entries, owner, id, n);
      RolledBack(s, m, own, slots[..], entries, owner, id, idx);
      var _, _ := RemoveData(idx, id);
      assert entries == m;
    }

    /** The entry of id under construction: the first `saved` bytes stored on top of the state (s, m, own). */
    ghost predicate Storing(id: Ident, idx: nat, newIdx: nat, value: Bytes, saved: nat, s: seq<Slot>,
                            m: map<Ident, Entry>, own: seq<Owner>)
      reads this, slots
    {
      && Structured() && idx < maxSlots && |s| == maxSlots && s[idx].count == 0 && Wf(s, m, own)
      && 0 < saved <= |value|
      && Added(m, entries, id, value[..saved])
      && |entries[id].chain| >= 1 && entries[id].chain[0] == idx
      && newIdx == entries[id].chain[|entries[id].chain| - 1]
      && (saved < |value| ==> saved == Start(|entries[id].chain|))
      && usedSlots == |UsedSet(s)| + |entries[id].chain|
      && Grown(s, own, slots[..], owner, id, idx)
    }

    /** One round of the storing loop: the next block, or the undoing of the entry when no slot is empty. */
    method StoreNext(idx: nat, newIdx: nat, value: Bytes, saved: nat, ghost id: Ident,
                     ghost s: seq<Slot>, ghost m: map<Ident, Entry>, ghost own: seq<Owner>)
                       returns (tmpIdx: int, copySize: nat)
      requires Storing(id, idx, newIdx, value, saved, s, m, own) && saved < |value|
      modifies this, slots
      ensures tmpIdx >= 0 ==> copySize > 0 && Storing(id, idx, tmpIdx, value, saved + copySize, s, m, own)
      ensures tmpIdx >= 0 ==> slots[idx].count == old(slots[idx].count)
      ensures tmpIdx < 0 ==> Structured() && entries == m && CountsKept(s, slots[..], idx) && slots[idx].count == 0
      ensures tmpIdx < 0 ==> maxSlots - |UsedSet(s)| < Blocks(|value|)
    {
      ghost var s1, own1, m1 := slots[..], owner, entries;
      copySize := 0;
      tmpIdx := FindEmpty(newIdx + 1);
      if tmpIdx < 0 {
        UndoPut(idx, id, |value|, s, m, own);
      } else {
        copySize := StoreBlock(newIdx, tmpIdx, value, saved, id);
        AddedStep(m, m1, id, value[..saved], entries[id]);
        GrownStep(s, own, s1, own1, slots[..], owner, id, idx, tmpIdx);
        HeadCountKept(s1, m1, own1, slots[..], owner, id, tmpIdx);
      }
    }

    /** The extension blocks of an entry whose head is stored. */
    method StoreRest(idx: nat, value: Bytes, first: nat, ghost id: Ident,
                     ghost s: seq<Slot>, ghost m: map<Ident, Entry>, ghost own: seq<Owner>) returns (ok: bool)
      requires Storing(id, idx, idx, value, first, s, m, own)
      modifies this, slots
      ensures Structured()
      ensures ok ==> Added(m, entries, id, value) && slots[idx].count == old(slots[idx].count)
      ensures !ok ==> entries == m && slots[idx].count == 0
      ensures CountsKept(s, slots[..], idx)
      ensures ok <==> Blocks(|value|) <= maxSlots - |UsedSet(s)|
    {
      var newIdx: nat, saved: nat := idx, first;
      while saved < |value|
        invariant Storing(id, idx, newIdx, value, saved, s, m, own) && slots[idx].count == old(slots[idx].count)
        decreases |value| - saved
      {
        var tmpIdx, copySize := StoreNext(idx, newIdx, value, saved, id, s, m, own);
        if tmpIdx < 0 {
          return false;
        }
        newIdx := tmpIdx;
        saved := saved + copySize;
      }
      GrownCounts(s, m, own, slots[..], entries, owner, id, idx);
      assert value[..saved] == value;
      StoredAll(slots[..], entries, owner, id);
      return true;
    }

    /**
     Stores a key and its value from the empty slot idx on, one block at a time.
     A block that finds no empty slot undoes the whole entry.
     */
    method PutData(idx: nat, hash: nat, key: Bytes, value: Bytes, count: Count) returns (ok: bool, err: Errno)
      requires Structured() && idx < maxSlots && hash == Home(key) && |key| <= MAX_KEY && |value| >= 1
      requires IdentOf(key) !in entries
      requires (count > 0 || count == -1) && (count > 0 <==> idx == hash)
      modifies this, slots
      ensures Structured()
      ensures old(slots[idx].count) != 0 ==> !ok && err == EFAULT && slots[..] == old(slots[..])
      ensures old(slots[idx].count) == 0 ==>
                && (ok <==> Blocks(|value|) <= maxSlots - old(usedSlots))
                && err == if ok then NoError else ENOBUFS
      ensures !ok ==> entries == old(entries)
      ensures ok ==> Added(old(entries), entries, IdentOf(key), value)
      ensures CountsKept(old(slots[..]), slots[..], idx)
      ensures slots[idx].count == if ok then count else old(slots[idx].count)
    {
      if slots[idx].count != 0 {
        return false, EFAULT;
      }
      ghost var id, s, own, m := IdentOf(key), slots[..], owner, entries;
      var saved := StoreHead(idx, hash, key, value, count);
      assert Added(m, entries, id, value[..saved]);
      ok := StoreRest(idx, value, saved, id, s, m, own);
      err := if ok then NoError else ENOBUFS;
    }

    /** Records the entries and owners that match the present slots. */
    ghost method Commit(s: seq<Slot>, m: map<Ident, Entry>, own: seq<Owner>)
      requires slots.Length == maxSlots >= 1 && slots[..] == s
      requires Wf(s, m, own) && Leaders(s, m) && usedSlots == |UsedSet(s)| && num == |m|
      modifies this`entries, this`owner
      ensures Valid() && entries == m
    {
      entries, owner := m, own;
    }

    /** Copies slot `hash` to the empty slot idx, empties it, and repairs the links of its neighbours. */
    method MoveSlot(hash: nat, idx: nat)
      requires Counted() && Movable(slots[..], hash, idx) && (slots[hash].count == -1 || slots[hash].count == -2)
      modifies this`usedSlots, slots
      ensures Counted() && slots[..] == Moved(old(slots[..]), hash, idx, old(slots[hash].count))
    {
      ghost var s := slots[..];
      var _, _ := CopySlot(idx, hash);
      var _, _ := RemoveSlot(hash);
      assert slots[..] == Copied(s, hash, idx, s[hash].count);
      if slots[idx].count == -2 {
        slots[slots[idx].hash] := slots[slots[idx].hash].(link := idx);
        if slots[idx].link != -1 {
          slots[slots[idx].link] := slots[slots[idx].link].(hash := idx);
        }
      } else if slots[idx].count == -1 {
        if slots[idx].link != -1 {
          slots[slots[idx].link] := slots[slots[idx].link].(hash := idx);
        }
      }
      assert slots[..] == Moved(s, hash, idx, s[hash].count);
      MovedUsed(s, hash, idx, s[hash].count);
    }

    /** Makes room in the home slot `hash` by moving the foreign slot there to the empty slot idx. */
    method Displace(hash: nat, idx: nat)
      requires Valid() && hash < maxSlots && idx < maxSlots && slots[hash].count < 0 && slots[idx].count == 0
      modifies this, slots
      ensures Valid() && Contents() == old(Contents()) && usedSlots == old(usedSlots)
      ensures slots[hash].count == 0
    {
      ghost var s, m, own := slots[..], entries, owner;
      DisplaceKeeps(s, m, own, hash, idx);
      NegativeCount(hash);
      MoveSlot(hash, idx);
      MovedUsed(s, hash, idx, s[hash].count);
      Commit(Moved(s, hash, idx, s[hash].count), MovedEntries(m, own, hash, idx), own[idx := own[hash]][hash := Free]);
    }

    lemma NegativeCount(i: nat)
      requires Structured() && i < maxSlots
      ensures slots[i].count >= -2
    {
      assert SlotWf(slots[..], entries, owner, i);
    }

    predicate IsDup(i: nat, idx: nat)
      requires i < slots.Length
      reads slots
    {
      slots[i].count == -1 && slots[i].hash == idx
    }

    /** The next collision entry, on the cyclic walk, of a home whose leader idx counts several keys. */
    method FindDup(idx: nat) returns (idx2: int)
      requires Valid() && idx < maxSlots && slots[idx].count > 1
      ensures 0 <= idx2 < maxSlots && idx2 != idx && slots[idx2].count == -1 && slots[idx2].hash == idx
      ensures forall i :: 0 <= i < maxSlots && Walked(idx + 1, idx2, idx2 < idx, i) ==> !IsDup(i, idx)
    {
      ghost var dup := CollisionExists(slots[..], entries, owner, idx);
      assert IsDup(dup, idx);
      idx2 := idx + 1;
      ghost var wrapped := false;
      while true
        invariant if wrapped then 0 <= idx2 <= idx else idx < idx2 <= maxSlots
        invariant forall i :: 0 <= i < maxSlots && Walked(idx + 1, idx2, wrapped, i) ==> !IsDup(i, idx)
        decreases if wrapped then idx - idx2 else maxSlots - idx2 + idx + 1
      {
        if idx2 >= maxSlots { idx2, wrapped := 0, true; }
        if idx2 == idx { return -1; }
        if slots[idx2].count == -1 && slots[idx2].hash == idx { break; }
        idx2 := idx2 + 1;
      }
    }

    /** Removing the only key of its home. */
    method RemoveSole(idx: nat, ghost id: Ident)
      requires Valid() && id in entries && |entries[id].chain| > 0 && idx == entries[id].chain[0] < maxSlots
      requires slots[idx].count == 1
      modifies this, slots
      ensures Valid() && Contents() == old(Contents()) - {id}
    {
      DropSole(slots[..], entries, owner, id);
      AbsRemove(entries, id);
      var _, _ := RemoveData(idx, id);
    }

    /** Removing a key that is a collision entry. */
    method RemoveCollision(idx: nat, ghost id: Ident) returns (err: Errno)
      requires Valid() && id in entries && |entries[id].chain| > 0 && idx == entries[id].chain[0] < maxSlots
      requires slots[idx].count == -1
      modifies this, slots
      ensures Valid() && Contents() == old(Contents()) - {id} && err == NoError
    {
      AbsRemove(entries, id);
      OthersAtHome(slots[..], entries, owner, id);
      var h := slots[idx].hash;
      if slots[h].count <= 1 {
        return EFAULT;
      }
      var count: Count := slots[h].count - 1;
      ghost var s1 := DropCollision(slots[..], entries, owner, id, count);
      slots[h] := slots[h].(count := count);
      assert slots[..] == s1;
      var _, _ := RemoveData(idx, id);
      return NoError;
    }

    /** Moves the collision entry idx2 into the emptied leader slot idx and gives it the leader's count. */
    method PromoteSlot(idx2: nat, idx: nat, count: Count, ghost s: seq<Slot>, ghost s': seq<Slot>)
      requires Counted() && slots[..] == s && Movable(s, idx2, idx) && s[idx2].count == -1 && count > 0
      requires s' == Moved(s, idx2, idx, count)
      modifies this`usedSlots, slots
      ensures Counted() && slots[..] == s'
    {
      var _, _ := CopySlot(idx, idx2);
      var _, _ := RemoveSlot(idx2);
      assert slots[..] == Copied(s, idx2, idx, -1);
      slots[idx] := slots[idx].(count := count);
      if slots[idx].link != -1 {
        slots[slots[idx].link] := slots[slots[idx].link].(hash := idx);
      }
      assert slots[..] == Moved(s, idx2, idx, count);
      MovedUsed(s, idx2, idx, count);
      MovedUsed(s, idx2, idx, -1);
    }

    /** Removing a leader that counts several keys: a collision entry is promoted. */
    method RemoveLeader(idx: nat, ghost id: Ident) returns (err: Errno)
      requires Valid() && id in entries && |entries[id].chain| > 0 && idx == entries[id].chain[0] < maxSlots
      requires slots[idx].count > 1
      modifies this, slots
      ensures Valid() && Contents() == old(Contents()) - {id} && err == NoError
    {
      var idx2 := FindDup(idx);
      if idx2 < 0 {
        return EFAULT;
      }
      var backupCount := slots[idx].count;
      var count: Count := backupCount - 1;
      ghost var s1, s', m', own' := Promoted(slots[..], entries, owner, id, idx, idx2, count);
      var _, _ := RemoveData(idx, id);
      PromoteSlot(idx2, idx, count, s1, s');
      Commit(s', m', own');
      return NoError;
    }

    /** Removes a key; the map loses that key and nothing else. */
    method Remove(key: Bytes) returns (ok: bool, err: Errno)
      requires Valid()
      modifies this, slots
      ensures Valid()
      ensures ok <==> IdentOf(key) in old(Contents())
      ensures Contents() == old(Contents()) - {IdentOf(key)}
      ensures err == if ok then NoError else ENOENT
    {
      var hash := Home(key);
      var idx := GetIdx(key, hash);
      ghost var id := IdentOf(key);
      AbsRemove(entries, id);
      if idx < 0 {
        return false, ENOENT;
      }
      OthersAtHome(slots[..], entries, owner, id);
      if slots[idx].count == 1 {
        RemoveSole(idx, id);
      } else if slots[idx].count > 1 {
        err := RemoveLeader(idx, id);
        if err != NoError { return false, err; }
      } else if slots[idx].count == -1 {
        err := RemoveCollision(idx, id);
        if err != NoError { return false, err; }
      } else {
        return false, ENOENT;
      }
      return true, NoError;
    }

    /** A put of an absent key whose home slot is empty. */
    method PutAsLeader(hash: nat, key: Bytes, value: Bytes) returns (ok: bool, err: Errno)
      requires Valid() && hash == Home(key) && |key| <= MAX_KEY && |value| >= 1
      requires IdentOf(key) !in entries && slots[hash].count == 0
      modifies this, slots
      ensures Valid() && (ok <==> Blocks(|value|) <= maxSlots - old(usedSlots))
      ensures Contents() == if ok then old(Contents())[IdentOf(key) := value] else old(Contents())
      ensures err == if ok then NoError else ENOBUFS
    {
      ghost var id, s, m := IdentOf(key), slots[..], entries;
      ok, err := PutData(hash, hash, key, value, 1);
      if ok {
        AbsAdded(m, entries, id, value);
      }
      PutAtHome(s, m, slots[..], entries, id);
    }

    /** A put of an absent key whose home already has a leader. */
    method PutAsCollision(hash: nat, key: Bytes, value: Bytes) returns (ok: bool, err: Errno)
      requires Valid() && hash == Home(key) && |key| <= MAX_KEY && |value| >= 1
      requires IdentOf(key) !in entries && 0 < slots[hash].count < MAX_COUNT
      modifies this, slots
      ensures Valid() && (ok <==> Blocks(|value|) <= maxSlots - old(usedSlots))
      ensures Contents() == if ok then old(Contents())[IdentOf(key) := value] else old(Contents())
      ensures err == if ok then NoError else ENOBUFS
    {
      ghost var id, s, m := IdentOf(key), slots[..], entries;
      FullIff(s);
      var idx := FindEmpty(hash);
      if idx < 0 {
        return false, ENOBUFS;
      }
      ok, err := PutData(idx, hash, key, value, -1);
      if !ok {
        PutFailed(s, m, slots[..], idx);
        return false, err;
      }
      AbsAdded(m, entries, id, value);
      var count: Count := slots[hash].count + 1;
      ghost var s2 := PutBeside(s, m, slots[..], entries, owner, id, idx, count);
      slots[hash] := slots[hash].(count := count);
      assert slots[..] == s2;
    }

    /** A put of an absent key whose home slot is taken by a foreign entry or block. */
    method PutDisplacing(hash: nat, key: Bytes, value: Bytes) returns (ok: bool, err: Errno)
      requires Valid() && hash == Home(key) && |key| <= MAX_KEY && |value| >= 1
      requires IdentOf(key) !in entries && slots[hash].count < 0
      modifies this, slots
      ensures Valid() && (ok <==> Blocks(|value|) <= maxSlots - old(usedSlots))
      ensures Contents() == if ok then old(Contents())[IdentOf(key) := value] else old(Contents())
      ensures err == if ok then NoError else ENOBUFS
    {
      FullIff(slots[..]);
      var idx := FindEmpty(hash + 1);
      if idx < 0 {
        return false, ENOBUFS;
      }
      Displace(hash, idx);
      assert IdentOf(key) !in Contents();
      ok, err := PutAsLeader(hash, key, value);
    }

    /** The used-slot counter is what the stored values need. */
    lemma UsedTotal()
      requires Valid()
      ensures usedSlots == Total(Contents()) <= maxSlots && num == |Contents()|
    {
      UsedIsTotal(slots[..], entries, owner);
      FullIff(slots[..]);
      assert Contents().Keys == entries.Keys;
    }

    lemma AbsentAtHome(key: Bytes)
      requires Valid() && IdentOf(key) !in Contents() && |HomeKeys(Contents(), Home(key))| < MAX_COUNT
      ensures slots[Home(key)].count < MAX_COUNT
    {
      HomeKeysAbs(entries, Home(key));
      assert slots[..][Home(key)].count > 0 ==> slots[..][Home(key)].count == |HomeKeys(entries, Home(key))|;
    }

    /** A put of a key that is not stored: the three cases of the home slot. */
    method PutAbsent(hash: nat, key: Bytes, value: Bytes) returns (ok: bool, err: Errno)
      requires Valid() && hash == Home(key) && |key| <= MAX_KEY && |value| >= 1
      requires IdentOf(key) !in Contents() && |HomeKeys(Contents(), hash)| < MAX_COUNT
      modifies this, slots
      ensures Valid() && PutResult(Contents(), ok) == PutSpec(old(Contents()), IdentOf(key), value, maxSlots)
      ensures err == if ok then NoError else ENOBUFS
    {
      UsedTotal();
      AbsentAtHome(key);
      PutSpecAbsent(Contents(), IdentOf(key), value, maxSlots);
      if slots[hash].count == 0 {
        ok, err := PutAsLeader(hash, key, value);
      } else if slots[hash].count > 0 {
        ok, err := PutAsCollision(hash, key, value);
      } else {
        ok, err := PutDisplacing(hash, key, value);
      }
    }

    /** The head of a value without bytes: no block is copied, so size and both counters stay as they were. */
    method StoreEmpty(idx: nat, hash: nat, key: Bytes, count: Count)
      requires Counted() && idx < maxSlots && slots[idx].count == 0 && count != 0
      modifies slots
      ensures slots[..] == old(slots[..])[idx := slots[idx]] && slots[idx].count == count
      ensures |UsedSet(slots[..])| == usedSlots + 1
    {
      var head := Slot(count, hash, slots[idx].size, -1,
                       Pair([], key[..Min(|key|, KEY_SIZE)], KeyField(key), md5(key)));
      UsedUpdate(slots[..], idx, head);
      slots[idx] := head;
      assert slots[..] == old(slots[..])[idx := head];
    }

    /** A put of an absent key with a value without bytes: a slot is taken that no counter knows of. */
    method PutAbsentEmpty(hash: nat, key: Bytes) returns (ok: bool, err: Errno)
      requires Valid() && hash == Home(key) && slots[hash].count < MAX_COUNT && usedSlots < maxSlots
      modifies this, slots
      ensures ok && err == NoError
      ensures |UsedSet(slots[..])| == usedSlots + 1
    {
      FullIff(slots[..]);
      ok, err := true, NoError;
      if slots[hash].count == 0 {
        StoreEmpty(hash, hash, key, 1);
      } else if slots[hash].count > 0 {
        var idx := FindEmpty(hash);
        if idx < 0 {
          return false, ENOBUFS;
        }
        StoreEmpty(idx, hash, key, -1);
        ghost var s := slots[..];
        UsedUpdate(s, hash, s[hash].(count := s[hash].count + 1));
        slots[hash] := slots[hash].(count := slots[hash].count + 1);
        assert slots[..] == s[hash := slots[hash]];
      } else {
        var idx := FindEmpty(hash + 1);
        if idx < 0 {
          return false, ENOBUFS;
        }
        Displace(hash, idx);
        StoreEmpty(hash, hash, key, 1);
      }
    }

    /**
     Stores a value. A key already present is removed first and the put retried;
     the retry finds the key absent, so it happens at most once.
     */
    method Put(key: Bytes, value: Bytes) returns (ok: bool, err: Errno)
      requires Valid() && |key| <= MAX_KEY
      requires IdentOf(key) in Contents() || |HomeKeys(Contents(), Home(key))| < MAX_COUNT
      modifies this, slots
      ensures Valid() <==> value != [] || !ok
      ensures value != [] || !ok ==>
                PutResult(Contents(), ok) == PutSpec(old(Contents()), IdentOf(key), value, maxSlots)
      ensures value == [] ==> (ok <==> old(usedSlots) < maxSlots)
      ensures old(usedSlots) >= maxSlots ==> !ok && Contents() == old(Contents())
      ensures ok && value != [] ==> Contents() == old(Contents())[IdentOf(key) := value]
      ensures !ok && old(usedSlots) < maxSlots ==> Contents() == old(Contents()) - {IdentOf(key)}
      ensures err == if ok then NoError else ENOBUFS
      decreases IdentOf(key) in Contents()
    {
      UsedTotal();
      if usedSlots >= maxSlots {
        return false, ENOBUFS;
      }
      var hash := Home(key);
      if slots[hash].count > 0 {
        var idx := GetIdx(key, hash);
        if idx >= 0 {
          ok, err := Replace(key, value);
          return;
        }
      } else {
        assert !Led(slots[..], IdentOf(key));
      }
      if value == [] {
        AbsentAtHome(key);
        ok, err := PutAbsentEmpty(hash, key);
      } else {
        ok, err := PutAbsent(hash, key, value);
      }
    }

    /** The put of a stored key: remove it, then put again. */
    method Replace(key: Bytes, value: Bytes) returns (ok: bool, err: Errno)
      requires Valid() && |key| <= MAX_KEY && IdentOf(key) in Contents() && usedSlots < maxSlots
      modifies this, slots
      ensures Valid() <==> value != [] || !ok
      ensures value != [] || !ok ==>
                PutResult(Contents(), ok) == PutSpec(old(Contents()), IdentOf(key), value, maxSlots)
      ensures value == [] ==> ok
      ensures err == if ok then NoError else ENOBUFS
      decreases IdentOf(key) in Contents(), 0
    {
      ghost var id := IdentOf(key);
      UsedTotal();
      HomeKeysRemoved(slots[..], entries, id);
      if value != [] {
        PutSpecPresent(Contents(), id, value, maxSlots);
      }
      TotalRemove(Contents(), id);
      ok, err := Remove(key);
      UsedTotal();
      if !ok {
        return false, err;
      }
      ok, err := Put(key, value);
    }

    /** Reads the value of a key. */
    method Get(key: Bytes) returns (value: Option<Bytes>, err: Errno)
      requires Valid()
      ensures value == if IdentOf(key) in Contents() then Some(Contents()[IdentOf(key)]) else None
      ensures err == if IdentOf(key) in Contents() then NoError else ENOENT
    {
      var idx := GetIdx(key, Home(key));
      if idx < 0 {
        return None, ENOENT;
      }
      value := GetData(idx, IdentOf(key));
      err := NoError;
    }

    method Exist(key: Bytes) returns (found: bool)
      requires Valid()
      ensures found <==> IdentOf(key) in Contents()
    {
      var idx := GetIdx(key, Home(key));
      return idx >= 0;
    }

    method Clear()
      requires Valid()
      modifies this, slots
      ensures Valid() && Contents() == map[]
    {
      UsedTotal();
      if usedSlots == 0 {
        return;
      }
      usedSlots, num := 0, 0;
      forall i | 0 <= i < maxSlots {
        slots[i] := EMPTY_SLOT;
      }
      ghost var own := seq(maxSlots, _ => Free);
      EmptyTable(slots[..], own);
      Commit(slots[..], map[], own);
    }

    /** The stored keys whose head lies at idx or after it. */
    ghost function Ahead(idx: nat): set<Ident>
      reads this
    {
      set id | id in entries && |entries[id].chain| > 0 && entries[id].chain[0] >= idx
    }

    /** The slot of the head of a stored key. */
    ghost function FirstSlot(id: Ident): nat
      reads this
    {
      if id in entries && |entries[id].chain| > 0 then entries[id].chain[0] else 0
    }

    lemma FirstSlotAhead(id: Ident, idx: nat)
      requires Valid() && id in Contents()
      ensures id in Ahead(idx) <==> FirstSlot(id) >= idx
    {
      HeadSlot(id);
    }

    lemma AheadAll()
      requires Valid()
      ensures Ahead(0) == Contents().Keys
      ensures Ahead(maxSlots) == {}
    {
      forall id | id in entries
        ensures |entries[id].chain| > 0 && entries[id].chain[0] < maxSlots
      {
        HeadSlot(id);
      }
    }

    lemma SlotKind(i: nat)
      requires Valid() && i < maxSlots
      ensures slots[i].count == 0 ==> owner[i].Free?
      ensures slots[i].count == -2 ==> owner[i].Owned? && owner[i].pos > 0
      ensures slots[i].count != 0 && slots[i].count != -2 ==>
                && owner[i].Owned? && owner[i].pos == 0 && owner[i].id in entries
                && HeadOf(slots[i], owner[i].id) && IdentWf(owner[i].id, maxSlots)
                && |entries[owner[i].id].chain| > 0 && entries[owner[i].id].chain[0] == i
    {
      assert SlotWf(slots[..], entries, owner, i);
      assert owner[i].Owned? ==> EntryWf(entries, owner, owner[i].id);
    }

    lemma AheadStep(i: nat)
      requires Valid() && i < maxSlots
      ensures if owner[i].Owned? && owner[i].pos == 0 then
                owner[i].id !in Ahead(i + 1) && Ahead(i) == Ahead(i + 1) + {owner[i].id}
              else Ahead(i) == Ahead(i + 1)
    {
      assert SlotWf(slots[..], entries, owner, i);
      forall id | id in entries
        ensures |entries[id].chain| > 0 && entries[id].chain[0] < maxSlots
                && owner[entries[id].chain[0]] == Owned(id, 0)
      {
        assert EntryWf(entries, owner, id);
      }
    }

    lemma AheadHead(i: nat)
      requires Valid() && i < maxSlots
      ensures if slots[i].count == 0 || slots[i].count == -2 then Ahead(i) == Ahead(i + 1)
              else owner[i].Owned? && owner[i].id !in Ahead(i + 1) && Ahead(i) == Ahead(i + 1) + {owner[i].id}
    {
      SlotKind(i);
      AheadStep(i);
    }

    /** Skips empty slots and extension blocks. */
    method FindHead(idx: nat) returns (next: nat)
      requires Valid()
      ensures idx <= next && (next <= maxSlots || next == idx) && Ahead(idx) == Ahead(next)
      ensures next < maxSlots ==> slots[next].count != 0 && slots[next].count != -2
      ensures next >= maxSlots ==> Ahead(next) == {}
    {
      next := idx;
      while next < maxSlots && (slots[next].count == 0 || slots[next].count == -2)
        invariant idx <= next && (next <= maxSlots || next == idx)
        invariant Ahead(idx) == Ahead(next)
      {
        AheadHead(next);
        next := next + 1;
      }
      AheadAll();
    }

    /** The next stored entry at or after idx: the kept key bytes and the whole value. */
    method GetNext(idx: nat) returns (found: bool, name: Bytes, data: Bytes, next: nat, ghost id: Ident)
      requires Valid()
      ensures found ==> id in Contents() && name == id.prefix && data == Contents()[id]
      ensures found ==> idx < next <= maxSlots && id !in Ahead(next) && Ahead(idx) == Ahead(next) + {id}
      ensures !found ==> next == (if idx < maxSlots then maxSlots else idx) && Ahead(idx) == {}
    {
      var i := FindHead(idx);
      found, name, data, next, id := false, [], [], i, Ident(0, 0, [], []);
      if i >= maxSlots {
        return;
      }
      SlotKind(i);
      AheadHead(i);
      id := owner[i].id;
      var keyLen := slots[i].data.keyLen;
      if keyLen > KEY_SIZE { keyLen := KEY_SIZE; }
      name := slots[i].data.key[..keyLen];
      var value := GetData(i, id);
      if value.None? {
        return;
      }
      found, data, next := true, value.value, i + 1;
    }
  }
}
