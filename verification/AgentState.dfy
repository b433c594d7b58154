/** The shared containers of the agent, updated in place under their mutexes. */
module AgentState {
  import opened Basics
  import opened WatcherModel
  import opened WatcherSync

  /** The deque of keys to process and the set that keeps a key from being queued twice. */
  class NodeQueue {
    var need: seq<Key>
    var exist: set<Key>

    ghost function View(): Queue<Key>
      reads this
    {
      Queue(need, exist)
    }

    ghost predicate Valid()
      reads this
    {
      View().Wf()
    }

    constructor ()
      ensures Valid() && View() == Queue([], {})
    {
      need, exist := [], {};
    }

    method AddWatcherNode(key: Key)
      requires Valid()
      modifies this
      ensures Valid() && View() == old(View()).Push(key)
      ensures need == (if key in old(exist) then old(need) else old(need) + [key]) && exist == old(exist) + {key}
    {
      PushWf(View(), key);
      if key !in exist {
        need := need + [key];
        exist := exist + {key};
      }
    }

    /** Takes the oldest key, if there is one. */
    method Take() returns (key: Option<Key>)
      requires Valid()
      modifies this
      ensures Valid()
      ensures if old(need) == [] then key == None && View() == old(View())
              else && key == Some(old(need)[0]) && View() == old(View()).Pop()
                   && need == old(need)[1..] && exist == old(exist) - {old(need)[0]}
    {
      if need == [] {
        return None;
      }
      PopWf(View());
      key := Some(need[0]);
      exist := exist - {need[0]};
      need := need[1..];
    }
  }

  /** The deque of triggers and the values they carry. */
  class TriggerQueue {
    var need: seq<Trigger>
    var exist: map<Trigger, Bytes>

    ghost predicate Valid()
      reads this
    {
      Queue(need, exist.Keys).Wf()
    }

    constructor ()
      ensures Valid() && need == [] && exist == map[]
    {
      need, exist := [], map[];
    }

    /** The first value queued for a trigger is the one kept. */
    method AddChangeTriggerNode(t: Trigger, val: Bytes)
      requires Valid()
      modifies this
      ensures Valid()
      ensures t in old(exist) ==> need == old(need) && exist == old(exist)
      ensures t !in old(exist) ==> need == old(need) + [t] && exist == old(exist)[t := val]
    {
      if t !in exist {
        PushWf(Queue(need, exist.Keys), t);
        need := need + [t];
        exist := exist[t := val];
        assert exist.Keys == old(exist.Keys) + {t};
      }
    }

    /** Takes the oldest trigger; its value is always found. */
    method Take() returns (r: Option<(Trigger, Bytes)>)
      requires Valid()
      modifies this
      ensures Valid()
      ensures if old(need) == [] then r == None && need == [] && exist == old(exist)
              else && old(need)[0] in old(exist) && r == Some((old(need)[0], old(exist)[old(need)[0]]))
                   && need == old(need)[1..] && exist == old(exist) - {old(need)[0]}
    {
      if need == [] {
        return None;
      }
      PopWf(Queue(need, exist.Keys));
      var t := need[0];
      assert t in exist.Keys;
      r := Some((t, exist[t]));
      need := need[1..];
      exist := exist - {t};
      assert exist.Keys == old(exist.Keys) - {t};
    }
  }

  /** The gray nodes of the current release. */
  class GrayNodes {
    var nodes: map<Key, Bytes>

    constructor ()
      ensures nodes == map[]
    {
      nodes := map[];
    }

    method IsGray(key: Key) returns (val: Option<Bytes>)
      ensures val == if key in nodes then Some(nodes[key]) else None
    {
      val := if key in nodes then Some(nodes[key]) else None;
    }

    /** Inserts the listed nodes; a key that is gray already keeps its value, another gets the first one listed. */
    method Set(added: seq<(Key, Bytes)>)
      modifies this
      ensures nodes == GrayInserted(old(nodes), added)
      ensures forall k :: k in nodes <==> k in old(nodes) || exists p: nat :: FirstFor(added, k, p)
      ensures forall k :: k in old(nodes) ==> k in nodes && nodes[k] == old(nodes)[k]
      ensures forall k, p: nat :: k !in old(nodes) && FirstFor(added, k, p) ==> k in nodes && nodes[k] == added[p].1
    {
      forall k
        ensures k in GrayInserted(nodes, added) <==> k in nodes || exists p: nat :: FirstFor(added, k, p)
        ensures k in nodes ==> GrayInserted(nodes, added)[k] == nodes[k]
      {
        GrayInsertedAt(nodes, added, k);
        if k in FirstOf(added) {
          var _ := FirstListed(added, k);
        }
      }
      forall k, p: nat | k !in nodes && FirstFor(added, k, p)
        ensures k in GrayInserted(nodes, added) && GrayInserted(nodes, added)[k] == added[p].1
      {
        GrayInsertedFirst(nodes, added, k, p);
      }
      for i := 0 to |added|
        invariant GrayInserted(old(nodes), added) == GrayInserted(nodes, added[i..])
      {
        assert added[i..][1..] == added[i + 1..];
        if added[i].0 !in nodes {
          nodes := nodes[added[i].0 := added[i].1];
        }
      }
    }

    /** Lists every gray key once. */
    method Get() returns (listed: seq<Key>)
      ensures (set k | k in listed) == nodes.Keys
      ensures |listed| == |nodes|
    {
      listed := [];
      var rest := nodes.Keys;
      while rest != {}
        invariant rest <= nodes.Keys && (set k | k in listed) == nodes.Keys - rest
        invariant |listed| + |rest| == |nodes|
        decreases |rest|
      {
        var k :| k in rest;
        assert (set x | x in listed + [k]) == (set x | x in listed) + {k};
        listed := listed + [k];
        rest := rest - {k};
      }
    }

    method Clear()
      modifies this
      ensures nodes == map[]
    {
      nodes := map[];
    }
  }
}
