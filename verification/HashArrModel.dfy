/**
 The slot array of the fixed-memory hash table and the finite map it stands for.

 A table of |s| slots stores a map from key identities to byte strings. Every
 stored key owns a chain of slots: a head, which is the leader of the key's home
 (count > 0) or a collision entry (count -1), followed by extension blocks
 (count -2). `owner` records for each slot which key owns it and at which
 position of the chain, so that disjointness of chains is a local fact.
 */
module HashArrModel {
  import opened Basics

  const KEY_SIZE: nat := 32     // key bytes kept in a head slot
  const VALUE_SIZE: nat := 96   // value bytes kept in a head slot
  const EXT_SIZE: nat := 146    // value bytes kept in an extension block

  /** Field widths of a slot: a 16-bit signed count, an 8-bit size and a 16-bit key length. */
  const MAX_COUNT: nat := 32767
  const MAX_KEY: nat := 65535
  type Count = c: int | -32768 <= c <= 32767
  type Size = n: nat | n <= 255
  type KeyLen = n: nat | n <= 65535

  datatype SlotData =
    | Pair(value: Bytes, key: Bytes, keyLen: KeyLen, keyMd5: Bytes)
    | Ext(block: Bytes)

  datatype Slot = Slot(count: Count, hash: nat, size: Size, link: int, data: SlotData)

  const EMPTY_SLOT: Slot := Slot(0, 0, 0, 0, Pair([], [], 0, []))

  /** What a lookup compares: home slot, length, first bytes, and the digest of a long key. */
  datatype Ident = Ident(home: nat, len: nat, prefix: Bytes, digest: Bytes)

  datatype Entry = Entry(chain: seq<nat>, value: Bytes)

  datatype Owner = Free | Owned(id: Ident, pos: nat)

  type Contents = map<Ident, Bytes>

  ghost predicate IdentWf(id: Ident, n: nat) {
    id.home < n && |id.prefix| == Min(id.len, KEY_SIZE) && (id.len <= KEY_SIZE ==> id.digest == [])
  }

  // ---- splitting a value over the blocks of a chain

  /** Offset in the value of the j-th block of a chain. */
  function Start(j: nat): (n: nat)
    ensures j > 0 ==> n >= VALUE_SIZE
  {
    if j == 0 then 0 else VALUE_SIZE + EXT_SIZE * (j - 1)
  }

  /** Slots taken by a value of n bytes. */
  function Blocks(n: nat): (b: nat)
    ensures b >= 1
    ensures n >= 1 ==> Start(b - 1) < n <= Start(b)
  {
    if n <= VALUE_SIZE then 1 else 1 + (n - VALUE_SIZE + EXT_SIZE - 1) / EXT_SIZE
  }

  lemma BlocksUnique(n: nat, k: nat)
    requires n >= 1 && k >= 1 && Start(k - 1) < n <= Start(k)
    ensures k == Blocks(n)
  {
  }

  function Piece(v: Bytes, j: nat): Bytes
    requires Start(j) <= |v|
  {
    v[Start(j)..Min(|v|, Start(j + 1))]
  }

  function Payload(slot: Slot): Bytes {
    if slot.data.Pair? then slot.data.value else slot.data.block
  }

  // ---- well-formedness

  ghost predicate HeadOf(slot: Slot, id: Ident) {
    && (slot.count > 0 || slot.count == -1)
    && slot.hash == id.home
    && slot.data.Pair?
    && slot.data.keyLen == id.len
    && slot.data.key == id.prefix
    && (id.len > KEY_SIZE ==> slot.data.keyMd5 == id.digest)
  }

  function NextLink(chain: seq<nat>, pos: nat): int
    requires pos < |chain|
  {
    if pos + 1 < |chain| then chain[pos + 1] else -1
  }

  /** Slot contents prescribed for position pos of the chain of id. */
  ghost predicate Holds(slot: Slot, id: Ident, pos: nat, e: Entry)
    requires pos < |e.chain|
  {
    && slot.link == NextLink(e.chain, pos)
    && Start(pos) <= |e.value|
    && Payload(slot) == Piece(e.value, pos)
    && slot.size == |Payload(slot)|
    && if pos == 0 then
         HeadOf(slot, id) && (slot.count > 0 <==> e.chain[0] == id.home)
       else
         slot.count == -2 && slot.hash == e.chain[pos - 1] && slot.data.Ext?
  }

  ghost predicate SlotWf(s: seq<Slot>, m: map<Ident, Entry>, own: seq<Owner>, i: nat)
    requires i < |s| == |own|
  {
    if own[i].Free? then
      s[i].count == 0
    else
      && own[i].id in m
      && own[i].pos < |m[own[i].id].chain|
      && m[own[i].id].chain[own[i].pos] == i
      && Holds(s[i], own[i].id, own[i].pos, m[own[i].id])
  }

  ghost predicate EntryWf(m: map<Ident, Entry>, own: seq<Owner>, id: Ident)
    requires id in m
  {
    && IdentWf(id, |own|)
    && |m[id].chain| >= 1
    && Start(|m[id].chain| - 1) < |m[id].value| <= Start(|m[id].chain|)
    && forall j :: 0 <= j < |m[id].chain| ==>
         m[id].chain[j] < |own| && own[m[id].chain[j]] == Owned(id, j)
  }

  ghost predicate Wf(s: seq<Slot>, m: map<Ident, Entry>, own: seq<Owner>) {
    && |s| == |own|
    && (forall id {:trigger EntryWf(m, own, id)} :: id in m ==> EntryWf(m, own, id))
    && (forall i :: 0 <= i < |s| ==> SlotWf(s, m, own, i))
  }

  /** The keys with home h. */
  ghost function HomeKeys<V>(m: map<Ident, V>, h: nat): set<Ident> {
    set id | id in m && id.home == h
  }

  ghost predicate Led(s: seq<Slot>, id: Ident) {
    id.home < |s| && s[id.home].count > 0
  }

  /** Every stored key's home slot is a leader that counts the keys of that home. */
  ghost predicate Leaders(s: seq<Slot>, m: map<Ident, Entry>) {
    && (forall id {:trigger Led(s, id)} :: id in m ==> Led(s, id))
    && (forall i {:trigger HomeKeys(m, i)} :: 0 <= i < |s| && s[i].count > 0 ==> s[i].count == |HomeKeys(m, i)|)
  }

  ghost function Abs(m: map<Ident, Entry>): (c: Contents) {
    map id | id in m :: m[id].value
  }

  ghost function UsedSet(s: seq<Slot>): set<nat> {
    set i | 0 <= i < |s| && s[i].count != 0
  }

  // ---- the four changes the operations make

  /** A new head in an empty slot. */
  lemma BeginEntry(s: seq<Slot>, m: map<Ident, Entry>, own: seq<Owner>, idx: nat, id: Ident, slot: Slot, v: Bytes)
    requires Wf(s, m, own) && idx < |s| && own[idx].Free? && id !in m && IdentWf(id, |s|)
    requires 1 <= |v| <= VALUE_SIZE
    requires Holds(slot, id, 0, Entry([idx], v))
    ensures Wf(s[idx := slot], m[id := Entry([idx], v)], own[idx := Owned(id, 0)])
  {
    var m', own', s' := m[id := Entry([idx], v)], own[idx := Owned(id, 0)], s[idx := slot];
    forall x | x in m'
      ensures EntryWf(m', own', x)
    {
      if x != id {
        assert EntryWf(m, own, x);
      }
    }
    forall i | 0 <= i < |s'|
      ensures SlotWf(s', m', own', i)
    {
      assert SlotWf(s, m, own, i);
    }
  }

  /** One more extension block at the end of a chain whose blocks are all full. */
  lemma ExtendEntry(s: seq<Slot>, m: map<Ident, Entry>, own: seq<Owner>, id: Ident, tmp: nat, w: Bytes)
    requires Wf(s, m, own) && id in m && tmp < |s| && own[tmp].Free?
    requires |m[id].chain| >= 1 && |m[id].value| == Start(|m[id].chain|) && 1 <= |w| <= EXT_SIZE
    ensures var last := m[id].chain[|m[id].chain| - 1];
            last < |s| && last != tmp &&
            Wf(s[tmp := Slot(-2, last, |w|, -1, Ext(w))][last := s[last].(link := tmp)],
               m[id := Entry(m[id].chain + [tmp], m[id].value + w)],
               own[tmp := Owned(id, |m[id].chain|)])
  {
    var e := m[id];
    assert EntryWf(m, own, id);
    var last := e.chain[|e.chain| - 1];
    var s' := s[tmp := Slot(-2, last, |w|, -1, Ext(w))][last := s[last].(link := tmp)];
    var m', own' := m[id := Entry(e.chain + [tmp], e.value + w)], own[tmp := Owned(id, |e.chain|)];
    forall x | x in m'
      ensures EntryWf(m', own', x)
    {
      assert EntryWf(m, own, x);
    }
    forall i | 0 <= i < |s'|
      ensures SlotWf(s', m', own', i)
    {
      assert SlotWf(s, m, own, i);
      ExtendSlot(s, m, own, id, tmp, w, i);
    }
  }

  lemma HoldsExtended(slot: Slot, id: Ident, p: nat, e: Entry, tmp: nat, w: Bytes)
    requires p < |e.chain| && |e.value| == Start(|e.chain|) && Holds(slot, id, p, e)
    ensures Holds(if p + 1 == |e.chain| then slot.(link := tmp) else slot, id, p, Entry(e.chain + [tmp], e.value + w))
  {
    assert Start(p + 1) <= Start(|e.chain|);
    assert Piece(e.value + w, p) == Piece(e.value, p);
  }

  lemma ExtendSlot(s: seq<Slot>, m: map<Ident, Entry>, own: seq<Owner>, id: Ident, tmp: nat, w: Bytes, i: nat)
    requires id in m && i < |s| == |own| && tmp < |s| && own[tmp].Free?
    requires EntryWf(m, own, id) && SlotWf(s, m, own, i)
    requires |m[id].value| == Start(|m[id].chain|) && 1 <= |w| <= EXT_SIZE
    ensures var last := m[id].chain[|m[id].chain| - 1];
            SlotWf(s[tmp := Slot(-2, last, |w|, -1, Ext(w))][last := s[last].(link := tmp)],
                   m[id := Entry(m[id].chain + [tmp], m[id].value + w)],
                   own[tmp := Owned(id, |m[id].chain|)], i)
  {
    var e := m[id];
    var k := |e.chain|;
    var last := e.chain[k - 1];
    assert own[last] == Owned(id, k - 1);
    if i == tmp {
      assert Piece(e.value + w, k) == w;
    } else if own[i].Owned? && own[i].id == id {
      HoldsExtended(s[i], id, own[i].pos, e, tmp, w);
      assert own[i].pos + 1 == k <==> i == last;
    }
  }

  ghost function Released(own: seq<Owner>, id: Ident): (r: seq<Owner>)
    ensures |r| == |own|
  {
    seq(|own|, i requires 0 <= i < |own| => if own[i].Owned? && own[i].id == id then Free else own[i])
  }

  /** Emptying every slot of one chain. */
  lemma FreeEntry(s: seq<Slot>, m: map<Ident, Entry>, own: seq<Owner>, id: Ident, s': seq<Slot>)
    requires Wf(s, m, own) && id in m && |s'| == |s|
    requires forall i :: 0 <= i < |s| ==>
               s'[i] == if own[i].Owned? && own[i].id == id then s[i].(count := 0) else s[i]
    ensures Wf(s', m - {id}, Released(own, id))
  {
    var m', own' := m - {id}, Released(own, id);
    forall x | x in m'
      ensures EntryWf(m', own', x)
    {
      assert EntryWf(m, own, x);
    }
    forall i | 0 <= i < |s'|
      ensures SlotWf(s', m', own', i)
    {
      assert SlotWf(s, m, own, i);
    }
  }

  /** Slot i once position pos of the chain lives in slot `to`. */
  ghost function Relinked(slot: Slot, i: nat, chain: seq<nat>, pos: nat, to: nat): Slot
    requires pos < |chain|
  {
    if pos > 0 && i == chain[pos - 1] then slot.(link := to)
    else if pos + 1 < |chain| && i == chain[pos + 1] then slot.(hash := to)
    else slot
  }

  /** The slots after moving slot `from` to the empty slot `to`, its neighbours relinked. */
  ghost predicate MovedSlots(s: seq<Slot>, m: map<Ident, Entry>, own: seq<Owner>, from: nat, to: nat, count: Count,
                             s': seq<Slot>)
    requires Wf(s, m, own) && from < |s| && to < |s| && own[from].Owned?
  {
    assert SlotWf(s, m, own, from);
    var id, pos := own[from].id, own[from].pos;
    var chain := m[id].chain;
    && |s'| == |s|
    && s'[to] == s[from].(count := count)
    && s'[from].count == 0
    && forall i :: 0 <= i < |s| && i != from && i != to ==>
         s'[i] == Relinked(s[i], i, chain, pos, to)
  }

  lemma MoveEntry(s: seq<Slot>, m: map<Ident, Entry>, own: seq<Owner>, from: nat, to: nat, count: Count, s': seq<Slot>)
    requires Wf(s, m, own) && from < |s| && to < |s| && own[from].Owned? && own[to].Free?
    requires own[from].pos == 0 ==> (count > 0 || count == -1) && (count > 0 <==> to == own[from].id.home)
    requires own[from].pos > 0 ==> count == -2
    requires MovedSlots(s, m, own, from, to, count, s')
    ensures SlotWf(s, m, own, from)
    ensures var id, pos := own[from].id, own[from].pos;
            Wf(s', m[id := Entry(m[id].chain[pos := to], m[id].value)], own[to := own[from]][from := Free])
  {
    assert SlotWf(s, m, own, from);
    var id, pos := own[from].id, own[from].pos;
    var m' := m[id := Entry(m[id].chain[pos := to], m[id].value)];
    var own' := own[to := own[from]][from := Free];
    assert EntryWf(m, own, id);
    forall x | x in m'
      ensures EntryWf(m', own', x)
    {
      assert EntryWf(m, own, x);
    }
    forall i | 0 <= i < |s'|
      ensures SlotWf(s', m', own', i)
    {
      assert SlotWf(s, m, own, i);
      if i == from {
      } else if i == to {
        MoveTarget(s, m, own, from, to, count, s');
      } else {
        MoveOther(s, m, own, from, to, s', i);
      }
    }
  }

  lemma MoveTarget(s: seq<Slot>, m: map<Ident, Entry>, own: seq<Owner>, from: nat, to: nat, count: Count, s': seq<Slot>)
    requires |s| == |s'| == |own| && from < |s| && to < |s| && own[from].Owned? && own[to].Free?
    requires SlotWf(s, m, own, from) && EntryWf(m, own, own[from].id)
    requires own[from].pos == 0 ==> (count > 0 || count == -1) && (count > 0 <==> to == own[from].id.home)
    requires own[from].pos > 0 ==> count == -2
    requires s'[to] == s[from].(count := count)
    ensures var id, pos := own[from].id, own[from].pos;
            SlotWf(s', m[id := Entry(m[id].chain[pos := to], m[id].value)], own[to := own[from]][from := Free], to)
  {
  }

  lemma HoldsMoved(slot: Slot, id: Ident, p: nat, e: Entry, pos: nat, to: nat)
    requires p < |e.chain| && pos < |e.chain| && p != pos && Holds(slot, id, p, e)
    ensures Holds(if p + 1 == pos then slot.(link := to) else if p == pos + 1 then slot.(hash := to) else slot,
                  id, p, Entry(e.chain[pos := to], e.value))
  {
  }

  lemma MoveOther(s: seq<Slot>, m: map<Ident, Entry>, own: seq<Owner>, from: nat, to: nat, s': seq<Slot>, i: nat)
    requires |s| == |s'| == |own| && from < |s| && to < |s| && own[from].Owned? && own[to].Free?
    requires i < |s| && i != from && i != to
    requires SlotWf(s, m, own, from) && SlotWf(s, m, own, i) && EntryWf(m, own, own[from].id)
    requires s'[i] == Relinked(s[i], i, m[own[from].id].chain, own[from].pos, to)
    ensures var id, pos := own[from].id, own[from].pos;
            SlotWf(s', m[id := Entry(m[id].chain[pos := to], m[id].value)], own[to := own[from]][from := Free], i)
  {
    var id, pos := own[from].id, own[from].pos;
    RelinkedAt(s[i], own, i, id, m[id], pos, to);
    if own[i].Owned? && own[i].id == id {
      HoldsMoved(s[i], id, own[i].pos, m[id], pos, to);
    }
  }

  lemma RelinkedAt(slot: Slot, own: seq<Owner>, i: nat, id: Ident, e: Entry, pos: nat, to: nat)
    requires i < |own| && pos < |e.chain|
    requires forall j :: 0 <= j < |e.chain| ==> e.chain[j] < |own| && own[e.chain[j]] == Owned(id, j)
    requires own[i].Owned? && own[i].id == id ==> own[i].pos < |e.chain| && e.chain[own[i].pos] == i
    ensures Relinked(slot, i, e.chain, pos, to)
            == if own[i].Free? || own[i].id != id then slot
               else if own[i].pos + 1 == pos then slot.(link := to)
               else if own[i].pos == pos + 1 then slot.(hash := to)
               else slot
  {
  }

  // ---- slots in use

  /** The bytes of a map, in slots. */
  ghost function Total(c: Contents): nat
    decreases |c|
  {
    if c == map[] then 0
    else
      var id :| id in c;
      Blocks(|c[id]|) + Total(c - {id})
  }

  lemma {:induction false} TotalRemove(c: Contents, id: Ident)
    requires id in c
    ensures Total(c) == Blocks(|c[id]|) + Total(c - {id})
    decreases |c|
  {
    var x :| x in c && Total(c) == Blocks(|c[x]|) + Total(c - {x});
    if x != id {
      TotalRemove(c - {x}, id);
      TotalRemove(c - {id}, x);
      assert c - {x} - {id} == c - {id} - {x};
    }
  }

  lemma TotalPut(c: Contents, id: Ident, v: Bytes)
    requires id !in c
    ensures Total(c[id := v]) == Blocks(|v|) + Total(c)
  {
    TotalRemove(c[id := v], id);
    assert c[id := v] - {id} == c;
  }

  ghost function ChainSet(chain: seq<nat>): set<nat> {
    set i | i in chain
  }

  lemma {:induction false} ChainCard(chain: seq<nat>)
    requires forall j, k :: 0 <= j < k < |chain| ==> chain[j] != chain[k]
    ensures |ChainSet(chain)| == |chain|
  {
    if |chain| == 0 {
      assert ChainSet(chain) == {};
    } else {
      var n := |chain| - 1;
      ChainCard(chain[..n]);
      assert chain == chain[..n] + [chain[n]];
      assert ChainSet(chain) == ChainSet(chain[..n]) + {chain[n]};
      assert chain[n] !in chain[..n];
    }
  }

  lemma ChainDistinct(m: map<Ident, Entry>, own: seq<Owner>, id: Ident)
    requires id in m && EntryWf(m, own, id)
    ensures forall j, k :: 0 <= j < k < |m[id].chain| ==> m[id].chain[j] != m[id].chain[k]
    ensures |m[id].chain| <= |own|
    ensures |m[id].chain| == Blocks(|m[id].value|)
  {
    var chain := m[id].chain;
    forall j, k | 0 <= j < k < |chain|
      ensures chain[j] != chain[k]
    {
      assert own[chain[j]].pos == j && own[chain[k]].pos == k;
    }
    ChainCard(chain);
    SubsetCard(ChainSet(chain), Below(|own|));
    BlocksUnique(|m[id].value|, |chain|);
  }

  ghost function Emptied(s: seq<Slot>, own: seq<Owner>, id: Ident): (r: seq<Slot>)
    requires |s| == |own|
    ensures |r| == |s|
  {
    seq(|s|, i requires 0 <= i < |s| => if own[i].Owned? && own[i].id == id then s[i].(count := 0) else s[i])
  }

  /** The non-empty slots are exactly those the stored values need. */
  lemma {:induction false} UsedIsTotal(s: seq<Slot>, m: map<Ident, Entry>, own: seq<Owner>)
    requires Wf(s, m, own)
    ensures |UsedSet(s)| == Total(Abs(m))
    decreases |m|
  {
    if m == map[] {
      forall i | 0 <= i < |s| ensures s[i].count == 0 {
        assert SlotWf(s, m, own, i);
      }
      assert UsedSet(s) == {};
      assert Abs(m) == map[];
    } else {
      var id :| id in m;
      var s' := Emptied(s, own, id);
      FreeEntry(s, m, own, id, s');
      UsedIsTotal(s', m - {id}, Released(own, id));
      UsedEmptied(s, m, own, id);
      TotalRemove(Abs(m), id);
      assert Abs(m) - {id} == Abs(m - {id});
    }
  }

  lemma UsedEmptied(s: seq<Slot>, m: map<Ident, Entry>, own: seq<Owner>, id: Ident)
    requires Wf(s, m, own) && id in m
    ensures |UsedSet(s)| == |UsedSet(Emptied(s, own, id))| + Blocks(|m[id].value|)
  {
    var chain := m[id].chain;
    var s' := Emptied(s, own, id);
    assert EntryWf(m, own, id);
    ChainDistinct(m, own, id);
    ChainCard(chain);
    forall i | 0 <= i < |s|
      ensures i in ChainSet(chain) <==> own[i].Owned? && own[i].id == id
      ensures i in ChainSet(chain) ==> s[i].count != 0
    {
      assert SlotWf(s, m, own, i);
    }
    assert forall i :: i in ChainSet(chain) ==> i < |s|;
    assert UsedSet(s) == UsedSet(s') + ChainSet(chain);
    assert UsedSet(s') !! ChainSet(chain);
  }

  /** A table has no empty slot exactly when its stored values need them all. */
  lemma FullIff(s: seq<Slot>)
    ensures |UsedSet(s)| <= |s|
    ensures |UsedSet(s)| == |s| <==> forall i :: 0 <= i < |s| ==> s[i].count != 0
  {
    SubsetCard(UsedSet(s), Below(|s|));
    if forall i :: 0 <= i < |s| ==> s[i].count != 0 {
      assert UsedSet(s) == Below(|s|);
    }
    if |UsedSet(s)| == |s| {
      forall i | 0 <= i < |s| ensures s[i].count != 0 {
        assert i in Below(|s|);
      }
    }
  }

  lemma UsedUpdate(s: seq<Slot>, i: nat, slot: Slot)
    requires i < |s|
    ensures |UsedSet(s[i := slot])|
            == |UsedSet(s)| - (if s[i].count != 0 then 1 else 0) + (if slot.count != 0 then 1 else 0)
  {
    var rest := UsedSet(s) - {i};
    assert UsedSet(s) == if s[i].count != 0 then rest + {i} else rest;
    assert UsedSet(s[i := slot]) == if slot.count != 0 then rest + {i} else rest;
  }

  // ---- emptying a chain slot by slot

  ghost function EmptiedBelow(s: seq<Slot>, own: seq<Owner>, id: Ident, j: nat): (r: seq<Slot>)
    requires |s| == |own|
    ensures |r| == |s|
    ensures j == 0 ==> r == s
  {
    seq(|s|, i requires 0 <= i < |s| =>
      if own[i].Owned? && own[i].id == id && own[i].pos < j then s[i].(count := 0) else s[i])
  }

  lemma EmptyStep(s: seq<Slot>, m: map<Ident, Entry>, own: seq<Owner>, id: Ident, j: nat)
    requires Wf(s, m, own) && id in m && j < |m[id].chain|
    ensures |m[id].chain| <= |s|
    ensures var i, r := m[id].chain[j], EmptiedBelow(s, own, id, j);
            && i < |s|
            && r[i].count != 0
            && r[i].link == NextLink(m[id].chain, j)
            && EmptiedBelow(s, own, id, j + 1) == r[i := r[i].(count := 0)]
    ensures j + 1 < |m[id].chain| ==> m[id].chain[j + 1] < |s|
    ensures j + 1 == |m[id].chain| ==> EmptiedBelow(s, own, id, j + 1) == Emptied(s, own, id)
  {
    assert EntryWf(m, own, id);
    ChainDistinct(m, own, id);
    var i := m[id].chain[j];
    assert SlotWf(s, m, own, i);
    forall x | 0 <= x < |s| && own[x].Owned? && own[x].id == id
      ensures own[x].pos < |m[id].chain| && (own[x].pos == j <==> x == i)
    {
      assert SlotWf(s, m, own, x);
    }
    EmptiedNext(s, own, id, j, i);
  }

  /** Emptying the blocks of a chain below j + 1 is emptying those below j and then block j. */
  lemma EmptiedNext(s: seq<Slot>, own: seq<Owner>, id: Ident, j: nat, i: nat)
    requires |s| == |own| && i < |s|
    requires own[i] == Owned(id, j)
    requires forall x :: 0 <= x < |s| && own[x].Owned? && own[x].id == id ==> (own[x].pos == j <==> x == i)
    ensures var r := EmptiedBelow(s, own, id, j);
            EmptiedBelow(s, own, id, j + 1) == r[i := r[i].(count := 0)]
  {
  }

  // ---- what a put leaves alone

  /** m' is m with a value stored for a key it did not have. */
  ghost predicate Added(m: map<Ident, Entry>, m': map<Ident, Entry>, id: Ident, v: Bytes) {
    id !in m && id in m' && m' == m[id := m'[id]] && m'[id].value == v
  }

  lemma AddedStep(m: map<Ident, Entry>, m1: map<Ident, Entry>, id: Ident, v: Bytes, e: Entry)
    requires Added(m, m1, id, v)
    ensures Added(m, m1[id := e], id, e.value)
  {
  }

  /** Slots in use keep owner and count; of the empty ones, idx and new blocks of id may be filled. */
  ghost predicate Grown(s: seq<Slot>, own: seq<Owner>, s': seq<Slot>, own': seq<Owner>, id: Ident, idx: nat)
    requires |s| == |own|
  {
    && |s'| == |own'| == |s|
    && forall i :: 0 <= i < |s| ==>
         if own[i].Owned? then own'[i] == own[i] && s'[i].count == s[i].count
         else own'[i].Owned? ==> own'[i].id == id && (i == idx || s'[i].count == -2)
  }

  ghost predicate CountsKept(s: seq<Slot>, s': seq<Slot>, idx: nat) {
    && |s'| == |s|
    && forall i :: 0 <= i < |s| && i != idx ==>
         if s[i].count != 0 then s'[i].count == s[i].count else s'[i].count == 0 || s'[i].count == -2
  }

  lemma GrownFirst(s: seq<Slot>, m: map<Ident, Entry>, own: seq<Owner>, id: Ident, idx: nat, slot: Slot)
    requires Wf(s, m, own) && idx < |s| && s[idx].count == 0
    ensures own[idx].Free?
    ensures Grown(s, own, s[idx := slot], own[idx := Owned(id, 0)], id, idx)
  {
    assert SlotWf(s, m, own, idx);
  }

  lemma GrownStep(s: seq<Slot>, own: seq<Owner>, s1: seq<Slot>, own1: seq<Owner>, s2: seq<Slot>, own2: seq<Owner>,
                  id: Ident, idx: nat, tmp: nat)
    requires |s| == |own| && Grown(s, own, s1, own1, id, idx)
    requires Grown(s1, own1, s2, own2, id, tmp) && tmp < |s2| && s2[tmp].count == -2
    ensures Grown(s, own, s2, own2, id, idx)
  {
  }

  lemma HeadCountKept(s: seq<Slot>, m: map<Ident, Entry>, own: seq<Owner>, s': seq<Slot>, own': seq<Owner>, id: Ident,
                      tmp: nat)
    requires Wf(s, m, own) && id in m && Grown(s, own, s', own', id, tmp)
    ensures |m[id].chain| >= 1 && m[id].chain[0] < |s| && s'[m[id].chain[0]].count == s[m[id].chain[0]].count
  {
    assert EntryWf(m, own, id);
  }

  lemma GrownCounts(s: seq<Slot>, m: map<Ident, Entry>, own: seq<Owner>, s': seq<Slot>, m': map<Ident, Entry>,
                    own': seq<Owner>,
                    id: Ident, idx: nat)
    requires Wf(s, m, own) && Wf(s', m', own') && Grown(s, own, s', own', id, idx)
    ensures CountsKept(s, s', idx)
  {
    forall i | 0 <= i < |s| && i != idx
      ensures if s[i].count != 0 then s'[i].count == s[i].count else s'[i].count == 0 || s'[i].count == -2
    {
      assert SlotWf(s, m, own, i) && SlotWf(s', m', own', i);
    }
  }

  lemma RolledBack(s: seq<Slot>, m: map<Ident, Entry>, own: seq<Owner>, s': seq<Slot>, m': map<Ident, Entry>,
                   own': seq<Owner>,
                   id: Ident, idx: nat)
    requires Wf(s, m, own) && Wf(s', m', own') && Grown(s, own, s', own', id, idx) && id !in m
    requires idx < |s| && s[idx].count == 0
    ensures CountsKept(s, Emptied(s', own', id), idx) && Emptied(s', own', id)[idx].count == 0
  {
    forall i | 0 <= i < |s|
      ensures Emptied(s', own', id)[i].count == s[i].count
    {
      assert SlotWf(s, m, own, i) && SlotWf(s', m', own', i);
    }
  }

  /** A put that stored every block found room for all of them. */
  lemma StoredAll(s: seq<Slot>, m: map<Ident, Entry>, own: seq<Owner>, id: Ident)
    requires Wf(s, m, own) && id in m
    ensures |m[id].chain| == Blocks(|m[id].value|)
    ensures |UsedSet(s)| <= |s|
  {
    assert EntryWf(m, own, id);
    BlocksUnique(|m[id].value|, |m[id].chain|);
    FullIff(s);
  }

  /** A put that stopped at a block boundary with every slot taken was too long for the free slots. */
  lemma StoppedShort(m: map<Ident, Entry>, own: seq<Owner>, id: Ident, n: nat)
    requires id in m && EntryWf(m, own, id) && |m[id].value| == Start(|m[id].chain|) < n
    ensures |m[id].chain| < Blocks(n)
  {
  }

  // ---- leaders

  lemma HomeAdd(m: map<Ident, Entry>, m': map<Ident, Entry>, id: Ident, h: nat)
    requires id !in m && m'.Keys == m.Keys + {id}
    ensures |HomeKeys(m', h)| == |HomeKeys(m, h)| + (if id.home == h then 1 else 0)
  {
    assert HomeKeys(m', h) == if id.home == h then HomeKeys(m, h) + {id} else HomeKeys(m, h);
  }

  lemma NoLeaderNoKeys(s: seq<Slot>, m: map<Ident, Entry>, h: nat)
    requires Leaders(s, m) && h < |s| && s[h].count <= 0
    ensures HomeKeys(m, h) == {}
  {
    assert forall id :: id in HomeKeys(m, h) ==> Led(s, id);
  }

  /** A new key: its home slot becomes a leader or counts one more. */
  lemma LeadersAdd(s: seq<Slot>, m: map<Ident, Entry>, s': seq<Slot>, m': map<Ident, Entry>, id: Ident)
    requires Leaders(s, m) && id !in m && m'.Keys == m.Keys + {id}
    requires id.home < |s| == |s'|
    requires s'[id.home].count == if s[id.home].count > 0 then s[id.home].count + 1 else 1
    requires forall i :: 0 <= i < |s| && i != id.home ==>
               s'[i].count == s[i].count || (s[i].count <= 0 && s'[i].count <= 0)
    ensures Leaders(s', m')
  {
    if s[id.home].count <= 0 {
      NoLeaderNoKeys(s, m, id.home);
    }
    forall x | x in m'
      ensures Led(s', x)
    {
      assert x in m ==> Led(s, x);
    }
    forall i | 0 <= i < |s'| && s'[i].count > 0
      ensures s'[i].count == |HomeKeys(m', i)|
    {
      HomeAdd(m, m', id, i);
    }
  }

  /** One key less: its home slot counts one less, or is a leader no more. */
  lemma LeadersDrop(s: seq<Slot>, m: map<Ident, Entry>, s': seq<Slot>, m': map<Ident, Entry>, id: Ident)
    requires Leaders(s, m) && id in m && m'.Keys == m.Keys - {id}
    requires id.home < |s| == |s'|
    requires if s[id.home].count == 1 then s'[id.home].count <= 0 else s'[id.home].count == s[id.home].count - 1
    requires forall i :: 0 <= i < |s| && i != id.home ==>
               s'[i].count == s[i].count || (s[i].count <= 0 && s'[i].count <= 0)
    ensures Leaders(s', m')
  {
    assert Led(s, id);
    assert m.Keys == m'.Keys + {id};
    HomeAdd(m', m, id, id.home);
    forall x | x in m'
      ensures Led(s', x)
    {
      assert Led(s, x);
      if x.home == id.home {
        assert x in HomeKeys(m', id.home);
      }
    }
    forall i | 0 <= i < |s'| && s'[i].count > 0
      ensures s'[i].count == |HomeKeys(m', i)|
    {
      HomeAdd(m', m, id, i);
    }
  }

  /** The same keys and the same leader counts. */
  lemma LeadersSame(s: seq<Slot>, m: map<Ident, Entry>, s': seq<Slot>, m': map<Ident, Entry>)
    requires Leaders(s, m) && m'.Keys == m.Keys && |s| == |s'|
    requires forall i :: 0 <= i < |s| ==> s'[i].count == s[i].count || (s[i].count <= 0 && s'[i].count <= 0)
    ensures Leaders(s', m')
  {
    forall x | x in m'
      ensures Led(s', x)
    {
      assert Led(s, x);
    }
    forall i | 0 <= i < |s'| && s'[i].count > 0
      ensures s'[i].count == |HomeKeys(m', i)|
    {
      assert HomeKeys(m', i) == HomeKeys(m, i);
    }
  }

  // ---- the finite map a table stands for

  datatype PutResult = PutResult(contents: Contents, ok: bool)

  /**
   Put on the finite map. A full table refuses; otherwise an old value of the key
   goes first, and the new one is stored exactly when its blocks fit.
   */
  ghost function PutSpec(c: Contents, id: Ident, v: Bytes, maxSlots: nat): PutResult {
    if Total(c) >= maxSlots then PutResult(c, false)
    else if Total(c - {id}) + Blocks(|v|) <= maxSlots then PutResult(c[id := v], true)
    else PutResult(c - {id}, false)
  }

  // ---- moving a slot

  /** The slots once slot `from` has been copied to `to` with a new count and emptied. */
  function Copied(s: seq<Slot>, from: nat, to: nat, count: Count): seq<Slot>
    requires from < |s| && to < |s|
  {
    s[to := s[from]][from := s[from].(count := 0)][to := s[from].(count := count)]
  }

  /** The back link of the block after slot i set to i. */
  function NextRepaired(s: seq<Slot>, i: nat): seq<Slot>
    requires i < |s| && (s[i].link != -1 ==> 0 <= s[i].link < |s|)
  {
    if s[i].link != -1 then s[s[i].link := s[s[i].link].(hash := i)] else s
  }

  /** The forward link of the block before extension block i set to i. */
  function PrevRepaired(s: seq<Slot>, i: nat): seq<Slot>
    requires i < |s| && s[i].hash < |s|
  {
    s[s[i].hash := s[s[i].hash].(link := i)]
  }

  /** Where the slot to be moved and its neighbours are. */
  lemma Neighbours(s: seq<Slot>, m: map<Ident, Entry>, own: seq<Owner>, from: nat, to: nat)
    requires Wf(s, m, own) && from < |s| && to < |s| && s[from].count != 0 && s[to].count == 0
    ensures own[from].Owned? && own[to].Free? && SlotWf(s, m, own, from)
    ensures EntryWf(m, own, own[from].id)
    ensures s[from].count == -2 <==> own[from].pos > 0
    ensures s[from].count == -2 ==> s[from].hash < |s| && s[from].hash != from && s[from].hash != to
    ensures s[from].link != -1 ==> 0 <= s[from].link < |s| && s[from].link != from && s[from].link != to
    ensures s[from].count == -2 && s[from].link != -1 ==> s[from].link != s[from].hash
    ensures own[from].id in m && own[from].pos < |m[own[from].id].chain|
    ensures var chain, pos := m[own[from].id].chain, own[from].pos;
            && s[from].link == NextLink(chain, pos)
            && (pos > 0 ==> s[from].hash == chain[pos - 1])
  {
    assert SlotWf(s, m, own, from) && SlotWf(s, m, own, to);
    var chain, pos := m[own[from].id].chain, own[from].pos;
    assert EntryWf(m, own, own[from].id);
    if pos > 0 {
      assert own[chain[pos - 1]] == Owned(own[from].id, pos - 1);
    }
    if pos + 1 < |chain| {
      assert own[chain[pos + 1]] == Owned(own[from].id, pos + 1);
    }
  }

  /** The indices a move follows are inside the table and apart. */
  ghost predicate Movable(s: seq<Slot>, from: nat, to: nat) {
    && from < |s| && to < |s| && s[from].count != 0 && s[to].count == 0
    && (s[from].count == -2 ==> s[from].hash < |s| && s[from].hash != from && s[from].hash != to)
    && (s[from].link != -1 ==> 0 <= s[from].link < |s| && s[from].link != from && s[from].link != to)
    && (s[from].count == -2 && s[from].link != -1 ==> s[from].link != s[from].hash)
  }

  /** Slot `from` moved to `to`, taking over `count`, with the links of its neighbours repaired. */
  ghost function Moved(s: seq<Slot>, from: nat, to: nat, count: Count): (r: seq<Slot>)
    requires Movable(s, from, to) && (count == -2 <==> s[from].count == -2) && count != 0
    ensures |r| == |s|
    ensures r[from].count == 0 && r[to].count == count
    ensures forall i :: 0 <= i < |s| && i != from && i != to ==> r[i].count == s[i].count
  {
    var s1 := Copied(s, from, to, count);
    if count == -2 then NextRepaired(PrevRepaired(s1, to), to) else NextRepaired(s1, to)
  }

  lemma MovedUsed(s: seq<Slot>, from: nat, to: nat, count: Count)
    requires Movable(s, from, to) && (count == -2 <==> s[from].count == -2) && count != 0
    ensures |UsedSet(Moved(s, from, to, count))| == |UsedSet(Copied(s, from, to, count))| == |UsedSet(s)|
  {
    UsedSwapped(s, Moved(s, from, to, count), from, to);
    UsedSwapped(s, Copied(s, from, to, count), from, to);
  }

  lemma UsedSwapped(s: seq<Slot>, r: seq<Slot>, from: nat, to: nat)
    requires |r| == |s| && from < |s| && to < |s| && s[from].count != 0 && s[to].count == 0
    requires r[from].count == 0 && r[to].count != 0
    requires forall i :: 0 <= i < |s| && i != from && i != to ==> r[i].count == s[i].count
    ensures |UsedSet(r)| == |UsedSet(s)|
  {
    forall i | 0 <= i < |s|
      ensures i in UsedSet(r) <==> i in UsedSet(s) - {from} + {to}
    {
    }
    assert UsedSet(r) == UsedSet(s) - {from} + {to};
  }

  lemma RepairMoves(s: seq<Slot>, m: map<Ident, Entry>, own: seq<Owner>, from: nat, to: nat, count: Count)
    requires Wf(s, m, own) && from < |s| && to < |s| && s[from].count != 0 && s[to].count == 0
    requires count != 0 && (count == -2 <==> s[from].count == -2)
    ensures own[from].Owned? && own[to].Free? && (own[from].pos > 0 <==> s[from].count == -2)
    ensures Movable(s, from, to)
    ensures MovedSlots(s, m, own, from, to, count, Moved(s, from, to, count))
  {
    Neighbours(s, m, own, from, to);
  }

  ghost function MovedEntries(m: map<Ident, Entry>, own: seq<Owner>, from: nat, to: nat): map<Ident, Entry>
    requires from < |own| && own[from].Owned? && own[from].id in m && own[from].pos < |m[own[from].id].chain|
  {
    m[own[from].id := Entry(m[own[from].id].chain[own[from].pos := to], m[own[from].id].value)]
  }

  /** A foreign slot moved to an empty one: same keys, same values, same leaders. */
  lemma DisplaceKeeps(s: seq<Slot>, m: map<Ident, Entry>, own: seq<Owner>, from: nat, to: nat)
    requires Wf(s, m, own) && Leaders(s, m) && from < |s| && to < |s| && s[from].count < 0 && s[to].count == 0
    ensures Movable(s, from, to) && own[from].Owned? && own[from].id in m && own[from].pos < |m[own[from].id].chain|
    ensures var m' := MovedEntries(m, own, from, to);
            && Wf(Moved(s, from, to, s[from].count), m', own[to := own[from]][from := Free])
            && Leaders(Moved(s, from, to, s[from].count), m')
            && Abs(m') == Abs(m) && m'.Keys == m.Keys
  {
    Neighbours(s, m, own, from, to);
    assert Led(s, own[from].id);
    MoveKeeps(s, m, own, from, to, s[from].count);
    LeadersSame(s, m, Moved(s, from, to, s[from].count), MovedEntries(m, own, from, to));
  }

  lemma MoveKeeps(s: seq<Slot>, m: map<Ident, Entry>, own: seq<Owner>, from: nat, to: nat, count: Count)
    requires Wf(s, m, own) && from < |s| && to < |s| && s[from].count != 0 && s[to].count == 0
    requires own[from].Owned? && own[from].pos == 0 ==>
               (count > 0 || count == -1) && (count > 0 <==> to == own[from].id.home)
    requires own[from].Owned? && own[from].pos > 0 ==> count == -2
    ensures Movable(s, from, to) && own[from].Owned? && own[from].id in m && own[from].pos < |m[own[from].id].chain|
    ensures count != 0 && (count == -2 <==> s[from].count == -2)
    ensures var m' := MovedEntries(m, own, from, to);
            && Wf(Moved(s, from, to, count), m', own[to := own[from]][from := Free])
            && Abs(m') == Abs(m) && m'.Keys == m.Keys
  {
    Neighbours(s, m, own, from, to);
    RepairMoves(s, m, own, from, to, count);
    MoveEntry(s, m, own, from, to, count, Moved(s, from, to, count));
  }

  // ---- removing

  /** Another count on a leader is no concern of the chains. */
  lemma Recount(s: seq<Slot>, m: map<Ident, Entry>, own: seq<Owner>, h: nat, c: Count)
    requires Wf(s, m, own) && h < |s| && s[h].count > 0 && c > 0
    ensures Wf(s[h := s[h].(count := c)], m, own)
    ensures UsedSet(s[h := s[h].(count := c)]) == UsedSet(s)
  {
    var s' := s[h := s[h].(count := c)];
    forall i | 0 <= i < |s'|
      ensures SlotWf(s', m, own, i)
    {
      assert SlotWf(s, m, own, i);
    }
  }

  lemma EmptiedCounts(s: seq<Slot>, m: map<Ident, Entry>, own: seq<Owner>, id: Ident, i: nat)
    requires Wf(s, m, own) && id in m && i < |s|
    ensures |m[id].chain| > 0
    ensures i == m[id].chain[0] ==> Emptied(s, own, id)[i].count == 0
    ensures i != m[id].chain[0] ==>
              || Emptied(s, own, id)[i].count == s[i].count
              || (s[i].count == -2 && Emptied(s, own, id)[i].count == 0)
  {
    assert EntryWf(m, own, id);
    assert SlotWf(s, m, own, i);
  }

  /** A leader that counts more than one key has a collision entry elsewhere. */
  lemma CollisionExists(s: seq<Slot>, m: map<Ident, Entry>, own: seq<Owner>, h: nat) returns (i: nat)
    requires Wf(s, m, own) && Leaders(s, m) && h < |s| && s[h].count > 1
    ensures i < |s| && i != h && s[i].count == -1 && s[i].hash == h
  {
    assert SlotWf(s, m, own, h);
    var id := own[h].id;
    assert EntryWf(m, own, id);
    if HomeKeys(m, h) <= {id} {
      SubsetCard(HomeKeys(m, h), {id});
    }
    var x :| x in HomeKeys(m, h) && x != id;
    assert EntryWf(m, own, x);
    i := m[x].chain[0];
    assert SlotWf(s, m, own, i);
  }

  /** A collision entry is never the only key of its home. */
  lemma OthersAtHome(s: seq<Slot>, m: map<Ident, Entry>, own: seq<Owner>, id: Ident)
    requires Wf(s, m, own) && Leaders(s, m) && id in m
    ensures |m[id].chain| > 0 && m[id].chain[0] < |s| && id.home < |s| && s[m[id].chain[0]].hash == id.home
    ensures s[m[id].chain[0]].count == -1 ==> m[id].chain[0] != id.home && s[id.home].count > 1
    ensures s[m[id].chain[0]].count == -1 || (s[m[id].chain[0]].count > 0 && m[id].chain[0] == id.home)
  {
    assert EntryWf(m, own, id) && Led(s, id);
    assert SlotWf(s, m, own, m[id].chain[0]);
    var h := id.home;
    assert SlotWf(s, m, own, h);
    if m[id].chain[0] != h {
      var x := own[h].id;
      assert {x, id} <= HomeKeys(m, h);
      SubsetCard({x, id}, HomeKeys(m, h));
    }
  }

  lemma DropSole(s: seq<Slot>, m: map<Ident, Entry>, own: seq<Owner>, id: Ident)
    requires Wf(s, m, own) && Leaders(s, m) && id in m && |m[id].chain| > 0 && m[id].chain[0] < |s|
    requires s[m[id].chain[0]].count == 1
    ensures Leaders(Emptied(s, own, id), m - {id})
  {
    OthersAtHome(s, m, own, id);
    forall i | 0 <= i < |s|
      ensures i != id.home ==>
                || Emptied(s, own, id)[i].count == s[i].count
                || (s[i].count <= 0 && Emptied(s, own, id)[i].count <= 0)
      ensures i == id.home ==> Emptied(s, own, id)[i].count == 0
    {
      EmptiedCounts(s, m, own, id, i);
    }
    LeadersDrop(s, m, Emptied(s, own, id), m - {id}, id);
  }

  lemma DropCollision(s: seq<Slot>, m: map<Ident, Entry>, own: seq<Owner>, id: Ident, count: Count)
    returns (s1: seq<Slot>)
    requires Wf(s, m, own) && Leaders(s, m) && id in m && |m[id].chain| > 0 && m[id].chain[0] < |s|
    requires s[m[id].chain[0]].count == -1 && id.home < |s| && count == s[id.home].count - 1 > 0
    ensures s1 == s[id.home := s[id.home].(count := count)]
    ensures Wf(s1, m, own) && UsedSet(s1) == UsedSet(s) && Leaders(Emptied(s1, own, id), m - {id})
    ensures s1[m[id].chain[0]].count == -1
  {
    OthersAtHome(s, m, own, id);
    var h := id.home;
    s1 := s[h := s[h].(count := count)];
    Recount(s, m, own, h, count);
    forall i | 0 <= i < |s|
      ensures i != h ==>
                || Emptied(s1, own, id)[i].count == s[i].count
                || (s[i].count <= 0 && Emptied(s1, own, id)[i].count <= 0)
      ensures i == h ==> Emptied(s1, own, id)[i].count == s[i].count - 1
    {
      EmptiedCounts(s1, m, own, id, i);
    }
    LeadersDrop(s, m, Emptied(s1, own, id), m - {id}, id);
  }

  lemma AbsRemove(m: map<Ident, Entry>, id: Ident)
    ensures Abs(m - {id}) == Abs(m) - {id}
    ensures id !in m ==> Abs(m) - {id} == Abs(m)
    ensures id in m ==> |m - {id}| == |m| - 1
  {
    assert (m - {id}).Keys == m.Keys - {id};
  }

  /** The collision entry that takes over the slot of a removed leader. */
  lemma PromoteKeeps(s: seq<Slot>, m: map<Ident, Entry>, own: seq<Owner>, id: Ident, idx2: nat)
    requires Wf(s, m, own) && Leaders(s, m) && id in m && |m[id].chain| > 0 && m[id].chain[0] < |s|
    requires s[m[id].chain[0]].count > 1
    requires idx2 < |s| && s[idx2].count == -1 && s[idx2].hash == m[id].chain[0]
    ensures var s1, m1, own1, h := Emptied(s, own, id), m - {id}, Released(own, id), m[id].chain[0];
            && Wf(s1, m1, own1) && s1[h].count == 0 && s1[idx2].count == -1
            && Movable(s1, idx2, h) && own1[idx2].Owned? && own1[idx2].id in m1
               && own1[idx2].pos < |m1[own1[idx2].id].chain|
            && var s', m' := Moved(s1, idx2, h, s[h].count - 1), MovedEntries(m1, own1, idx2, h);
            && Wf(s', m', own1[h := own1[idx2]][idx2 := Free])
            && Abs(m') == Abs(m) - {id} && m'.Keys == m.Keys - {id} && |m'| == |m| - 1
  {
    OthersAtHome(s, m, own, id);
    AbsRemove(m, id);
    var s1, m1, own1, h := Emptied(s, own, id), m - {id}, Released(own, id), m[id].chain[0];
    FreeEntry(s, m, own, id, s1);
    EmptiedCounts(s, m, own, id, h);
    EmptiedCounts(s, m, own, id, idx2);
    assert SlotWf(s1, m1, own1, idx2);
    MoveKeeps(s1, m1, own1, idx2, h, s[h].count - 1);
    var m' := MovedEntries(m1, own1, idx2, h);
    assert |m'.Keys| == |m1.Keys|;
  }

  lemma PromoteLeaders(s: seq<Slot>, m: map<Ident, Entry>, own: seq<Owner>, id: Ident, idx2: nat, m': map<Ident, Entry>)
    requires Wf(s, m, own) && Leaders(s, m) && id in m && |m[id].chain| > 0 && m[id].chain[0] < |s|
    requires s[m[id].chain[0]].count > 1
    requires idx2 < |s| && s[idx2].count == -1 && s[idx2].hash == m[id].chain[0]
    requires m'.Keys == m.Keys - {id}
    requires Movable(Emptied(s, own, id), idx2, m[id].chain[0]) && Emptied(s, own, id)[idx2].count == -1
    ensures Leaders(Moved(Emptied(s, own, id), idx2, m[id].chain[0], s[m[id].chain[0]].count - 1), m')
  {
    OthersAtHome(s, m, own, id);
    var h := m[id].chain[0];
    var s' := Moved(Emptied(s, own, id), idx2, h, s[h].count - 1);
    forall i | 0 <= i < |s|
      ensures i != h ==> s'[i].count == s[i].count || (s[i].count <= 0 && s'[i].count <= 0)
    {
      EmptiedCounts(s, m, own, id, i);
    }
    LeadersDrop(s, m, s', m', id);
  }

  /** The whole state after a promotion. */
  lemma Promoted(s: seq<Slot>, m: map<Ident, Entry>, own: seq<Owner>, id: Ident, idx: nat, idx2: nat, count: Count)
    returns (s1: seq<Slot>, s': seq<Slot>, m': map<Ident, Entry>, own': seq<Owner>)
    requires Wf(s, m, own) && Leaders(s, m) && id in m && |m[id].chain| > 0 && idx == m[id].chain[0] < |s|
    requires s[idx].count > 1 && count == s[idx].count - 1
    requires idx2 < |s| && s[idx2].count == -1 && s[idx2].hash == idx
    ensures s1 == Emptied(s, own, id) && Movable(s1, idx2, idx) && s1[idx2].count == -1
    ensures s' == Moved(s1, idx2, idx, count)
    ensures Wf(s', m', own') && Leaders(s', m') && Abs(m') == Abs(m) - {id} && |m'| == |m - {id}|
  {
    PromoteKeeps(s, m, own, id, idx2);
    AbsRemove(m, id);
    var own1 := Released(own, id);
    s1 := Emptied(s, own, id);
    s', m' := Moved(s1, idx2, idx, count), MovedEntries(m - {id}, own1, idx2, idx);
    own' := own1[idx := own1[idx2]][idx2 := Free];
    PromoteLeaders(s, m, own, id, idx2, m');
  }

  // ---- putting

  lemma AbsAdded(m: map<Ident, Entry>, m': map<Ident, Entry>, id: Ident, v: Bytes)
    requires Added(m, m', id, v)
    ensures Abs(m') == Abs(m)[id := v] && m'.Keys == m.Keys + {id}
  {
  }

  /** A put into the empty home slot: a new leader, or no change of leaders. */
  lemma PutAtHome(s: seq<Slot>, m: map<Ident, Entry>, s': seq<Slot>, m': map<Ident, Entry>, id: Ident)
    requires Leaders(s, m) && id.home < |s| && s[id.home].count == 0 && CountsKept(s, s', id.home)
    requires (id !in m && m'.Keys == m.Keys + {id} && s'[id.home].count == 1) || (m' == m && s'[id.home].count == 0)
    ensures Leaders(s', m')
  {
    if s'[id.home].count == 1 {
      LeadersAdd(s, m, s', m', id);
    } else {
      LeadersSame(s, m, s', m');
    }
  }

  lemma PutFailed(s: seq<Slot>, m: map<Ident, Entry>, s': seq<Slot>, idx: nat)
    requires Leaders(s, m) && idx < |s| && s[idx].count == 0 && CountsKept(s, s', idx) && s'[idx].count == 0
    ensures Leaders(s', m)
  {
    LeadersSame(s, m, s', m);
  }

  /** A put beside a leader, once the leader counts the new key. */
  lemma PutBeside(s: seq<Slot>, m: map<Ident, Entry>, s': seq<Slot>, m': map<Ident, Entry>, own': seq<Owner>,
                  id: Ident, idx: nat, count: Count)
    returns (s2: seq<Slot>)
    requires Leaders(s, m) && id.home < |s| && idx < |s| && idx != id.home && s[idx].count == 0
    requires s[id.home].count > 0 && count == s[id.home].count + 1
    requires CountsKept(s, s', idx) && s'[idx].count == -1
    requires id !in m && m'.Keys == m.Keys + {id} && Wf(s', m', own')
    ensures s'[id.home].count == s[id.home].count
    ensures s2 == s'[id.home := s'[id.home].(count := count)]
    ensures Wf(s2, m', own') && UsedSet(s2) == UsedSet(s') && Leaders(s2, m')
  {
    s2 := s'[id.home := s'[id.home].(count := count)];
    Recount(s', m', own', id.home, count);
    LeadersAdd(s, m, s2, m', id);
  }

  lemma HomeKeysAbs(m: map<Ident, Entry>, h: nat)
    ensures HomeKeys(Abs(m), h) == HomeKeys(m, h)
  {
  }

  /** A leader's count is at most what its field holds, so one removal makes room for one key. */
  lemma HomeKeysRemoved(s: seq<Slot>, m: map<Ident, Entry>, id: Ident)
    requires Leaders(s, m) && id in m
    ensures |HomeKeys(Abs(m) - {id}, id.home)| < MAX_COUNT
  {
    HomeKeysAbs(m, id.home);
    assert Led(s, id);
    assert s[id.home].count == |HomeKeys(m, id.home)|;
    assert HomeKeys(Abs(m), id.home) == HomeKeys(Abs(m) - {id}, id.home) + {id};
  }

  lemma PutSpecAbsent(c: Contents, id: Ident, v: Bytes, maxSlots: nat)
    requires id !in c && |v| >= 1
    ensures PutSpec(c, id, v, maxSlots)
            == if Total(c) + Blocks(|v|) <= maxSlots then PutResult(c[id := v], true) else PutResult(c, false)
  {
    assert c - {id} == c;
  }

  lemma PutSpecPresent(c: Contents, id: Ident, v: Bytes, maxSlots: nat)
    requires id in c && |v| >= 1 && Total(c) < maxSlots
    ensures PutSpec(c, id, v, maxSlots) == PutSpec(c - {id}, id, v, maxSlots)
  {
    TotalRemove(c, id);
    assert (c - {id}) - {id} == c - {id};
    assert (c - {id})[id := v] == c[id := v];
  }

  lemma EmptyTable(s: seq<Slot>, own: seq<Owner>)
    requires |s| == |own| && forall i :: 0 <= i < |s| ==> s[i] == EMPTY_SLOT && own[i] == Free
    ensures Wf(s, map[], own) && Leaders(s, map[]) && |UsedSet(s)| == 0
  {
    assert UsedSet(s) == {};
  }

  /**
   What a put does to the other keys, and to its own. A full table refuses every put, also
   that of a stored key, and changes nothing; otherwise a failed put loses the key.
   */
  lemma PutFrame(c: Contents, id: Ident, v: Bytes, maxSlots: nat)
    requires |v| >= 1
    ensures var r := PutSpec(c, id, v, maxSlots);
            && r.contents - {id} == c - {id}
            && (r.ok ==> id in r.contents && r.contents[id] == v)
            && (Total(c) >= maxSlots ==> !r.ok && r.contents == c)
            && (!r.ok && Total(c) < maxSlots ==> r.contents == c - {id})
            && (!r.ok && id !in c ==> r.contents == c)
  {
    assert id !in c ==> c - {id} == c;
    assert c[id := v] - {id} == c - {id};
  }

  /** A value of n bytes takes one slot for the first 96 bytes and one for each begun 146 bytes beyond. */
  lemma BlocksExact(n: nat)
    ensures Blocks(n) == if n <= 96 then 1 else 1 + (n - 96 + 145) / 146
  {
  }

  /**
   Exact capacity, with n bytes taking one slot up to 96 and one more for each begun 146
   beyond: a non-empty value is stored if and only if some slot is free and the slots that
   are free, together with those of the key's old value, suffice.
   */
  lemma CapacityExact(c: Contents, id: Ident, v: Bytes, maxSlots: nat)
    requires |v| >= 1
    ensures PutSpec(c, id, v, maxSlots).ok
            <==> && maxSlots - Total(c) >= 1
                 && maxSlots - Total(c) + (if id in c then 1 + (if |c[id]| <= 96 then 0 else |c[id]| + 49) / 146 else 0)
                    >= 1 + (if |v| <= 96 then 0 else |v| + 49) / 146
  {
    BlocksExact(|v|);
    if id in c {
      BlocksExact(|c[id]|);
      TotalRemove(c, id);
    } else {
      assert c - {id} == c;
    }
  }
}
