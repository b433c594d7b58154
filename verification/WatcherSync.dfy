/** No update is lost and no gray value outlives its release: an invariant of every run. */
module WatcherSync {
  import opened Basics
  import opened ServiceStatus
  import opened WatcherModel
  import opened WatcherView

  // ---- what the callback tests

  /** The callback tests exactly the keys whose own watch the event reports, and the service of a changed child. */
  lemma TestsExact(e: Event, t: Test)
    ensures t in Tests(e)
            <==> (Concerns(e, t.tableKey) && t == Own(t.tableKey))
                 || (ConcernsChild(e, t.tableKey) && t.pendingKey == KeyAt(Node, e.at))
  {
    var k := t.tableKey;
    assert k == KeyAt(k.kind, At(k)) && (k.kind == Node || k.kind == Service || k.kind == Batch);
    var all := Tests(e);
    if t in all {
      var i :| 0 <= i < |all| && all[i] == t;
    }
    match e
    case Deleted(at) =>
      assert all[0] == Own(KeyAt(Node, at)) && all[1] == Own(KeyAt(Service, at)) && all[2] == Own(KeyAt(Batch, at));
    case Changed(at) =>
      assert all[0] == Own(KeyAt(Node, at));
      assert ParentOf(at).Some? ==> all[1] == Test(KeyAt(Node, at), KeyAt(Service, ParentOf(at).value));
    case Child(at) =>
      assert all[0] == Own(KeyAt(Service, at)) && all[1] == Own(KeyAt(Batch, at));
  }

  // ---- what is still owed to a key

  /** Queued, or about to be queued by the gray thread. */
  ghost predicate Scheduled(s: State, k: Key) {
    k in s.work.members || k in s.grayThread.todo
  }

  /** The callback will still test the key, or queue it. */
  ghost predicate HandlerOwes(h: Handler, k: Key) {
    match h
    case Testing(todo) => Own(k) in todo
    case Pended(todo) => todo != [] && Own(k) in todo[1..]
    case Adding(todo) => Own(k) in todo
  }

  /** The callback found the key not pending and will look for it in the table. */
  ghost predicate HalfTested(h: Handler, k: Key) {
    h.Pended? && h.todo != [] && h.todo[0] == Own(k)
  }

  ghost predicate Reported(events: seq<Event>, k: Key) {
    exists e :: e in events && Concerns(e, k)
  }

  /** A processing of the key that starts with a fresh read is certain to follow. */
  ghost predicate Owed(s: State, k: Key) {
    Scheduled(s, k) || Reported(s.events, k) || HandlerOwes(s.handler, k)
  }

  ghost predicate ChildReported(events: seq<Event>, k: Key) {
    exists e :: e in events && ConcernsChild(e, k)
  }

  ghost predicate ChildTested(todo: seq<Test>, k: Key) {
    exists t :: t in todo && t.tableKey == k && t != Own(k)
  }

  /** A changed child of service k is announced or being tested; the service is queued if it is in the table by then. */
  ghost predicate ChildOwed(s: State, k: Key) {
    k.kind == Service && (ChildReported(s.events, k) || ChildTested(s.handler.todo, k))
  }

  // ---- in step with ZooKeeper

  /** Every watch is set that reports a change of what ZooKeeper holds for the key. */
  ghost predicate Watched(s: State, k: Key) {
    match k.kind
    case Node => At(k) in s.dataW
    case Batch => At(k) in s.childW
    case Service =>
      && At(k) in s.childW
      && (At(k) in s.zk ==> forall n :: n in s.zk[At(k)].children ==> ChildAt(At(k), n) in s.dataW)
  }

  /** v is what ZooKeeper holds for the key, and its watches are set. */
  ghost predicate Current(s: State, k: Key, v: Bytes) {
    Held(s.zk, k) == Some(v) && Watched(s, k)
  }

  ghost predicate Synced(s: State, k: Key) {
    k in s.table && Current(s, k, s.table[k])
  }

  ghost predicate ChildRead(s: State, k: Key, name: Bytes, status: int) {
    ChildAt(At(k), name) in s.dataW && StatusAt(s.zk, ChildAt(At(k), name)) == Some(status)
  }

  /** The names are the children of service k, the statuses those of the first of them, and all is watched. */
  ghost predicate ReadOk(s: State, k: Key, names: seq<Bytes>, status: seq<int>) {
    && At(k) in s.zk && At(k) in s.childW && s.zk[At(k)].children == names && |status| <= |names|
    && forall i :: 0 <= i < |status| ==> ChildRead(s, k, names[i], status[i])
  }

  ghost predicate BadChild(s: State, k: Key, name: Bytes) {
    var c := ChildAt(At(k), name);
    c in s.dataW && c in s.zk && StatusOf(s.zk[c].data) == None
  }

  /** Service k has a child of no valid status; the list and that child are watched. */
  ghost predicate Stuck(s: State, k: Key) {
    && k.kind == Service && At(k) in s.zk && At(k) in s.childW
    && exists n :: n in s.zk[At(k)].children && BadChild(s, k, n)
  }

  /** What a service may lack beyond other keys. */
  ghost predicate Excused(s: State, k: Key) {
    ChildOwed(s, k) || k in s.dropped || Stuck(s, k)
  }

  ghost predicate Holds(w: Worker, k: Key) {
    !w.Idle? && w.key == k
  }

  // ---- the invariant, key by key

  /** A gray key in the table has its gray value, unless a write of it is to come. */
  ghost predicate GrayInv(s: State, k: Key) {
    k in s.gray ==>
      if !Holds(s.worker, k) || s.worker.Triggering? || s.worker.Finishing? then
        k in s.table ==> s.table[k] == s.gray[k] || Scheduled(s, k)
      else if s.worker.Dequeued? || s.worker.Checking? then true
      else if s.worker.GrayWriting? then s.worker.val == s.gray[k] || Scheduled(s, k)
      else Scheduled(s, k)
  }

  /** A key that is not gray is in step with ZooKeeper, unless a fresh read of it is to come. */
  ghost predicate SyncInv(s: State, k: Key) {
    k !in s.gray && Readable(k) ==>
      if !Holds(s.worker, k) then
        k in s.table ==> Synced(s, k) || Owed(s, k) || HalfTested(s.handler, k) || k in s.unswept || Excused(s, k)
      else if s.worker.Triggering? || s.worker.Finishing? then
        k in s.table ==> Synced(s, k) || Owed(s, k) || Excused(s, k)
      else if s.worker.Writing? then Current(s, k, s.worker.val) || Owed(s, k) || Excused(s, k)
      else if s.worker.Statusing? then ReadOk(s, k, s.worker.names, s.worker.status) || Owed(s, k) || Excused(s, k)
      else if s.worker.GrayWriting? then Owed(s, k)
      else true
  }

  ghost predicate KeyInv(s: State, k: Key) {
    GrayInv(s, k) && SyncInv(s, k)
  }

  /** The facts about the threads that do not concern one key. */
  ghost predicate ThreadInv(s: State) {
    && s.pending == (if s.worker.Idle? || s.worker.Dequeued? then {} else {s.worker.key})
    && (s.grayThread.Listed? ==> s.gray.Keys == set k | k in s.grayThread.todo)
    && (s.handler.Pended? || s.handler.Adding? ==> s.handler.todo != [])
    && (s.worker.Reading? || s.worker.Restoring? ==> false)
    && (!s.worker.Idle? ==> s.worker.key !in s.unswept)
    && (s.worker.Statusing? ==> s.worker.key.kind == Service)
    && (s.assist.Comparing? ==> s.assist.key.kind == Service)
    && (forall k :: k in s.dropped ==> k.kind == Service)
    && (forall t :: t in s.handler.todo && t != Own(t.tableKey) ==> t.tableKey.kind == Service)
  }

  ghost predicate Outstanding(s: State, k: Key) {
    Owed(s, k) || HalfTested(s.handler, k) || ChildOwed(s, k)
  }

  /**
   The assistant still holds the value of an inherited key, and what it has read of a service is true
   or about to be read again.
   */
  ghost predicate AssistInv(s: State) {
    (s.assist.Got? || s.assist.Dumped? || s.assist.Comparing?) && s.assist.key in s.unswept
      && s.assist.key in s.table ==>
      && s.table[s.assist.key] == s.assist.val
      && (s.assist.Comparing? ==>
            ReadOk(s, s.assist.key, s.assist.names, s.assist.status) || Outstanding(s, s.assist.key))
  }

  ghost predicate Inv(s: State) {
    s.work.Wf() && TreeWf(s.zk) && ThreadInv(s) && AssistInv(s) && forall k :: KeyInv(s, k)
  }

  lemma InitInv(s: State)
    requires Init(s)
    ensures Inv(s)
  {
  }

  /** A completely read service is in step. */
  lemma ReadComplete(s: State, k: Key, names: seq<Bytes>, status: seq<int>)
    requires k.kind == Service && ReadOk(s, k, names, status) && |status| == |names|
    ensures Current(s, k, ServiceValue(k, names, status))
  {
    forall i | 0 <= i < |names|
      ensures StatusAt(s.zk, ChildAt(At(k), names[i])) == Some(status[i]) && ChildAt(At(k), names[i]) in s.dataW
    {
      assert ChildRead(s, k, names[i], status[i]);
    }
    assert StatusesAt(s.zk, At(k), names) == status;
  }

  lemma ListedFirst(s: State, k: Key)
    requires k.kind == Service && At(k) in s.zk && At(k) in s.childW
    ensures ReadOk(s, k, s.zk[At(k)].children, [])
    ensures s.zk[At(k)].children == [] ==> Current(s, k, ServiceValue(k, [], []))
  {
    if s.zk[At(k)].children == [] {
      ReadComplete(s, k, [], []);
    }
  }

  /** One more status read. */
  lemma ReadMore(s: State, s': State, k: Key, names: seq<Bytes>, status: seq<int>, x: int)
    requires ReadOk(s, k, names, status) && |status| < |names|
    requires s'.zk == s.zk && s.dataW <= s'.dataW && s.childW <= s'.childW
    requires ChildRead(s', k, names[|status|], x)
    ensures ReadOk(s', k, names, status + [x])
  {
    forall i | 0 <= i < |status + [x]|
      ensures ChildRead(s', k, names[i], (status + [x])[i])
    {
      assert i < |status| ==> ChildRead(s, k, names[i], status[i]);
    }
  }

  /**
   A read that meets a child without a valid status leaves the service waiting for that child, not for
   one that is gone.
   */
  lemma ReadStops(s: State, s': State, k: Key, names: seq<Bytes>, status: seq<int>)
    requires TreeWf(s.zk) && k.kind == Service && ReadOk(s, k, names, status) && |status| < |names|
    requires StatusAt(s.zk, ChildAt(At(k), names[|status|])) == None
    requires s'.zk == s.zk && s'.childW == s.childW && s'.dataW == DataWatched(s, ChildAt(At(k), names[|status|]))
    ensures Stuck(s', k)
  {
    var n := names[|status|];
    assert n in s.zk[At(k)].children;
    assert ChildExists(s.zk, At(k), n);
    assert BadChild(s', k, n);
  }

  /** More watches take nothing back. */
  lemma WatchesGrow(s: State, s': State, k: Key)
    requires s'.zk == s.zk && s.dataW <= s'.dataW && s.childW <= s'.childW
    ensures forall v :: Current(s, k, v) ==> Current(s', k, v)
    ensures forall names, status :: ReadOk(s, k, names, status) ==> ReadOk(s', k, names, status)
    ensures Stuck(s, k) ==> Stuck(s', k)
  {
    forall names, status | ReadOk(s, k, names, status)
      ensures ReadOk(s', k, names, status)
    {
      forall i | 0 <= i < |status|
        ensures ChildRead(s', k, names[i], status[i])
      {
        assert ChildRead(s, k, names[i], status[i]);
      }
    }
    if Stuck(s, k) {
      var n :| n in s.zk[At(k)].children && BadChild(s, k, n);
      assert BadChild(s', k, n);
    }
  }

  // ---- the callback

  lemma TestsCover(e: Event, k: Key)
    requires Concerns(e, k)
    ensures Own(k) in Tests(e)
  {
    match e
    case Deleted(_) =>
      assert Tests(e)[match k.kind case Node => 0 case Service => 1 case Batch => 2] == Own(k);
    case Changed(_) =>
      assert Tests(e)[0] == Own(k);
    case Child(_) =>
      assert Tests(e)[if k.kind == Service then 0 else 1] == Own(k);
  }

  /** A changed child makes the callback test its service, with the child's own key for the pending test. */
  lemma TestsCoverChild(e: Event, k: Key)
    requires ConcernsChild(e, k)
    ensures Test(KeyAt(Node, e.at), k) in Tests(e) && ChildTested(Tests(e), k)
  {
    assert Tests(e)[1] == Test(KeyAt(Node, e.at), k);
  }

  lemma TailMember<T>(x: T, xs: seq<T>)
    requires x in xs && xs != []
    ensures x == xs[0] || x in xs[1..]
  {
    assert xs == [xs[0]] + xs[1..];
  }

  /** A step that leaves worker, gray set, table and ZooKeeper alone keeps a key in step if nothing owed is dropped. */
  lemma Unforgotten(s: State, s': State, k: Key)
    requires KeyInv(s, k)
    requires s'.worker == s.worker && s'.gray == s.gray && s'.table == s.table
    requires s'.zk == s.zk && s.dataW <= s'.dataW && s.childW <= s'.childW && s.dropped <= s'.dropped
    requires Scheduled(s, k) ==> Scheduled(s', k)
    requires Owed(s, k) ==> Owed(s', k) || (!Holds(s.worker, k) && HalfTested(s'.handler, k))
    requires HalfTested(s.handler, k) && k in s.table ==> Owed(s', k) || HalfTested(s'.handler, k)
    requires ChildOwed(s, k) ==> ChildOwed(s', k) || Owed(s', k) || k in s'.dropped
    requires k in s.unswept && k in s.table ==> k in s'.unswept || Outstanding(s', k) || Synced(s', k) || Excused(s', k)
    requires Holds(s.worker, k) ==> k !in s.unswept
    ensures KeyInv(s', k)
  {
    WatchesGrow(s, s', k);
  }

  /** The assistant's read stays good under a step of another thread that drops nothing owed to a key in the table. */
  lemma AssistKept(s: State, s': State)
    requires AssistInv(s) && s'.assist == s.assist
    requires s'.zk == s.zk && s.dataW <= s'.dataW && s.childW <= s'.childW && s'.unswept <= s.unswept
    requires !s.assist.Walking? && s.assist.key in s'.unswept && s.assist.key in s'.table ==>
               && s.assist.key in s.table && s'.table[s.assist.key] == s.table[s.assist.key]
               && (Outstanding(s, s.assist.key) ==> Outstanding(s', s.assist.key))
    ensures AssistInv(s')
  {
    if !s.assist.Walking? {
      WatchesGrow(s, s', s.assist.key);
    }
  }

  lemma DeliverKey(s: State, s': State, k: Key)
    requires Delivers(s, s')
    ensures Owed(s, k) ==> Owed(s', k)
    ensures ChildOwed(s, k) ==> ChildOwed(s', k)
  {
    if Reported(s.events, k) {
      var e :| e in s.events && Concerns(e, k);
      if e == s.events[0] {
        TestsCover(e, k);
      } else {
        TailMember(e, s.events);
      }
    }
    if k.kind == Service && ChildReported(s.events, k) {
      var e :| e in s.events && ConcernsChild(e, k);
      if e == s.events[0] {
        TestsCoverChild(e, k);
      } else {
        TailMember(e, s.events);
      }
    }
  }

  lemma DeliverKeeps(s: State, s': State)
    requires Inv(s) && Delivers(s, s')
    ensures Inv(s')
  {
    forall k
      ensures KeyInv(s', k)
      ensures Outstanding(s, k) ==> Outstanding(s', k)
    {
      assert KeyInv(s, k);
      DeliverKey(s, s', k);
      Unforgotten(s, s', k);
    }
    AssistKept(s, s');
  }

  /** The pending test drops a key only while no processing of it is under way past the dequeueing. */
  lemma PendingTestKey(s: State, s': State, k: Key)
    requires ThreadInv(s) && KeyInv(s, k) && TestsPending(s, s')
    ensures KeyInv(s', k)
    ensures Outstanding(s, k) ==> Outstanding(s', k)
  {
    if Own(k) in s.handler.todo {
      TailMember(Own(k), s.handler.todo);
    }
    assert s'.handler.todo == s.handler.todo;
    if Holds(s.worker, k) && s.worker.Dequeued? {
      assert KeyInv(s', k);
    } else {
      Unforgotten(s, s', k);
    }
  }

  lemma PendingTestKeeps(s: State, s': State)
    requires Inv(s) && TestsPending(s, s')
    ensures Inv(s')
  {
    forall k
      ensures KeyInv(s', k)
      ensures Outstanding(s, k) ==> Outstanding(s', k)
    {
      assert KeyInv(s, k);
      PendingTestKey(s, s', k);
    }
    AssistKept(s, s');
  }

  lemma TableTestOwed(s: State, s': State, k: Key)
    requires ThreadInv(s) && TestsTable(s, s')
    ensures Owed(s, k) ==> Owed(s', k)
    ensures HalfTested(s.handler, k) && k in s.table ==> Owed(s', k)
  {
    if HandlerOwes(s.handler, k) {
      assert Own(k) in s.handler.todo;
    }
  }

  /** A test for a changed child is dropped if its service is not in the table. */
  lemma TableTestChild(s: State, s': State, k: Key)
    requires TestsTable(s, s') && ChildOwed(s, k)
    ensures ChildOwed(s', k) || (k !in s.table && k in s'.dropped)
  {
    if ChildTested(s.handler.todo, k) {
      var t :| t in s.handler.todo && t.tableKey == k && t != Own(k);
      TailMember(t, s.handler.todo);
    }
  }

  lemma TableTestKey(s: State, s': State, k: Key)
    requires ThreadInv(s) && KeyInv(s, k) && TestsTable(s, s')
    ensures KeyInv(s', k)
    ensures Outstanding(s, k) && k in s.table ==> Outstanding(s', k)
  {
    TableTestOwed(s, s', k);
    if ChildOwed(s, k) {
      TableTestChild(s, s', k);
    }
    Unforgotten(s, s', k);
  }

  lemma TableTestKeeps(s: State, s': State)
    requires Inv(s) && TestsTable(s, s')
    ensures Inv(s')
  {
    forall k
      ensures KeyInv(s', k)
      ensures Outstanding(s, k) && k in s.table ==> Outstanding(s', k)
    {
      assert KeyInv(s, k);
      TableTestKey(s, s', k);
    }
    AssistKept(s, s');
  }

  lemma HandlerAddKey(s: State, s': State, k: Key)
    requires ThreadInv(s) && KeyInv(s, k) && HandlerAdds(s, s')
    ensures KeyInv(s', k)
    ensures Outstanding(s, k) ==> Outstanding(s', k)
  {
    if HandlerOwes(s.handler, k) {
      TailMember(Own(k), s.handler.todo);
    }
    if ChildTested(s.handler.todo, k) {
      var t :| t in s.handler.todo && t.tableKey == k && t != Own(k);
      TailMember(t, s.handler.todo);
    }
    Unforgotten(s, s', k);
  }

  lemma PushWf<T>(q: Queue<T>, x: T)
    requires q.Wf()
    ensures q.Push(x).Wf() && q.Push(x).members == q.members + {x}
  {
  }

  lemma PopWf<T>(q: Queue<T>)
    requires q.Wf() && q.order != []
    ensures q.Pop().Wf()
  {
    forall x | x in q.order && x != q.order[0] ensures x in q.order[1..] {
      TailMember(x, q.order);
    }
  }

  lemma HandlerAddKeeps(s: State, s': State)
    requires Inv(s) && HandlerAdds(s, s')
    ensures Inv(s')
  {
    forall k
      ensures KeyInv(s', k)
      ensures Outstanding(s, k) ==> Outstanding(s', k)
    {
      assert KeyInv(s, k);
      HandlerAddKey(s, s', k);
    }
    PushWf(s.work, s.handler.todo[0].tableKey);
    AssistKept(s, s');
  }

  lemma HandlerKeeps(s: State, s': State)
    requires Inv(s) && HandlerStep(s, s')
    ensures Inv(s')
  {
    if Delivers(s, s') {
      DeliverKeeps(s, s');
    } else if TestsPending(s, s') {
      PendingTestKeeps(s, s');
    } else if TestsTable(s, s') {
      TableTestKeeps(s, s');
    } else {
      HandlerAddKeeps(s, s');
    }
  }

  // ---- the worker

  /** Worker steps on another key. */
  lemma OtherKey(s: State, s': State, k: Key)
    requires KeyInv(s, k) && !Holds(s.worker, k) && !Holds(s'.worker, k)
    requires s'.gray == s.gray && s'.handler == s.handler && s'.events == s.events && s'.grayThread == s.grayThread
    requires k in s.work.members ==> k in s'.work.members
    requires k in s'.table ==> k in s.table && s'.table[k] == s.table[k]
    requires s'.zk == s.zk && s.dataW <= s'.dataW && s.childW <= s'.childW
    requires k in s.unswept ==> k in s'.unswept
    requires k in s.dropped ==> k in s'.dropped
    ensures KeyInv(s', k)
  {
    WatchesGrow(s, s', k);
  }

  lemma DequeueKeeps(s: State, s': State)
    requires Inv(s) && Dequeues(s, s')
    ensures Inv(s')
  {
    forall k ensures KeyInv(s', k) {
      assert KeyInv(s, k);
      if k != s.work.order[0] {
        OtherKey(s, s', k);
      }
    }
    PopWf(s.work);
    AssistKept(s, s');
  }

  lemma AddPendingKeeps(s: State, s': State)
    requires Inv(s) && AddsPending(s, s')
    ensures Inv(s')
  {
    forall k ensures KeyInv(s', k) {
      assert KeyInv(s, k);
      if k != s.worker.key {
        OtherKey(s, s', k);
      }
    }
    AssistKept(s, s');
  }

  lemma CheckGrayKeeps(s: State, s': State)
    requires Inv(s) && ChecksGray(s, s')
    ensures Inv(s')
  {
    forall k ensures KeyInv(s', k) {
      assert KeyInv(s, k);
      if k != s.worker.key {
        OtherKey(s, s', k);
      }
    }
    AssistKept(s, s');
  }

  lemma StoreKeeps(s: State, s': State, table': map<Key, Bytes>)
    requires Inv(s) && (s.worker.GrayWriting? || s.worker.Writing?)
    requires Stored(s, s', s.worker.key, s.worker.val, table', true)
    ensures Inv(s')
  {
    forall k ensures KeyInv(s', k) {
      assert KeyInv(s, k);
      if k != s.worker.key {
        OtherKey(s, s', k);
      }
    }
    AssistKept(s, s');
  }

  lemma SameKeeps(s: State, s': State)
    requires Inv(s) && (s.worker.GrayWriting? || s.worker.Writing?)
    requires SameValue(s, s', s.worker.key, s.worker.val)
    ensures Inv(s')
  {
    forall k ensures KeyInv(s', k) {
      assert KeyInv(s, k);
      if k != s.worker.key {
        OtherKey(s, s', k);
      }
    }
    AssistKept(s, s');
  }

  lemma RefuseKeeps(s: State, s': State, table': map<Key, Bytes>)
    requires Inv(s) && (s.worker.GrayWriting? || s.worker.Writing?)
    requires Refused(s, s', s.worker.key, s.worker.val, table')
    ensures Inv(s')
  {
    forall k ensures KeyInv(s', k) {
      assert KeyInv(s, k);
      if k != s.worker.key {
        OtherKey(s, s', k);
      }
    }
    AssistKept(s, s');
  }

  lemma WriteKeeps(s: State, s': State, table': map<Key, Bytes>)
    requires Inv(s) && (s.worker.GrayWriting? || s.worker.Writing?)
    requires WritesThen(s, s', s.worker.key, s.worker.val, table', true)
    ensures Inv(s')
  {
    if Stored(s, s', s.worker.key, s.worker.val, table', true) {
      StoreKeeps(s, s', table');
    } else if SameValue(s, s', s.worker.key, s.worker.val) {
      SameKeeps(s, s');
    } else {
      RefuseKeeps(s, s', table');
    }
  }

  /** What a node or batch key reads is current. */
  lemma FetchedCurrent(s: State, s': State, k: Key, v: Bytes)
    requires k.kind != Service && Held(s.zk, k) == Some(v)
    requires s'.zk == s.zk && s'.dataW == Watching(s, k).dataW && s'.childW == Watching(s, k).childW
    ensures Current(s', k, v)
  {
  }

  /** A step that reads ZooKeeper for the worker's key. */
  ghost predicate WorkerReads(s: State, s': State) {
    && s' == s.(worker := s'.worker, seen := s'.seen, dataW := s'.dataW, childW := s'.childW, dropped := s'.dropped,
                disturbed := s'.disturbed)
    && s.dataW <= s'.dataW && s.childW <= s'.childW
    && (s.worker.Fetching? || s.worker.Statusing?) && !s'.worker.Idle? && s'.worker.key == s.worker.key
    && !s'.worker.Dequeued? && !s'.worker.Reading? && !s'.worker.Restoring?
    && (s'.worker.Statusing? ==> s'.worker.key.kind == Service)
    && s.dropped - {s.worker.key} <= s'.dropped <= s.dropped
  }

  lemma FetchShape(s: State, s': State)
    requires Fetches(s, s')
    ensures WorkerReads(s, s')
  {
  }

  lemma ListShape(s: State, s': State)
    requires Lists(s, s')
    ensures WorkerReads(s, s')
  {
  }

  lemma StatusShape(s: State, s': State)
    requires ReadsStatus(s, s') && s.worker.key.kind == Service
    ensures WorkerReads(s, s')
  {
  }

  lemma WorkerReadsKeeps(s: State, s': State)
    requires Inv(s) && WorkerReads(s, s') && KeyInv(s', s.worker.key)
    ensures Inv(s')
  {
    forall k ensures KeyInv(s', k) {
      assert KeyInv(s, k);
      if k != s.worker.key {
        OtherKey(s, s', k);
      }
    }
    AssistKept(s, s');
  }

  /** What the worker has read is what ZooKeeper holds, or something is to come. */
  ghost predicate ReadSettled(s: State, k: Key) {
    || Owed(s, k)
    || Excused(s, k)
    || match s.worker
       case Writing(_, v) => Current(s, k, v)
       case Statusing(_, names, status) => ReadOk(s, k, names, status)
       case Removing(_) => true
       case _ => false
  }

  lemma ReadKeeps(s: State, s': State)
    requires Inv(s) && WorkerReads(s, s')
    requires s.worker.key !in s.gray && Readable(s.worker.key) ==> ReadSettled(s', s.worker.key)
    requires s'.worker.Writing? || s'.worker.Statusing? || s'.worker.Finishing? || s'.worker.Removing?
    ensures Inv(s')
  {
    assert KeyInv(s, s.worker.key);
    assert KeyInv(s', s.worker.key);
    WorkerReadsKeeps(s, s');
  }

  lemma FetchSettled(s: State, s': State)
    requires Fetches(s, s')
    ensures ReadSettled(s', s.worker.key) && (s'.worker.Writing? || s'.worker.Removing?)
  {
    if v :| Held(s.zk, s.worker.key) == Some(v) {
      FetchedCurrent(s, s', s.worker.key, v);
    }
  }

  lemma FetchKeeps(s: State, s': State)
    requires Inv(s) && Fetches(s, s')
    ensures Inv(s')
  {
    FetchShape(s, s');
    FetchSettled(s, s');
    ReadKeeps(s, s');
  }

  lemma ListSettled(s: State, s': State)
    requires Lists(s, s')
    ensures ReadSettled(s', s.worker.key) && (s'.worker.Writing? || s'.worker.Statusing? || s'.worker.Removing?)
  {
    if At(s.worker.key) in s.zk {
      ListedFirst(s', s.worker.key);
    }
  }

  lemma ListKeeps(s: State, s': State)
    requires Inv(s) && Lists(s, s')
    ensures Inv(s')
  {
    ListShape(s, s');
    ListSettled(s, s');
    ReadKeeps(s, s');
  }

  lemma StatusSettled(s: State, s': State)
    requires TreeWf(s.zk) && ReadsStatus(s, s') && s.worker.key.kind == Service
    ensures ReadSettled(s, s.worker.key) ==> ReadSettled(s', s.worker.key)
    ensures s'.worker.Writing? || s'.worker.Statusing? || s'.worker.Finishing?
  {
    var k, names, status := s.worker.key, s.worker.names, s.worker.status;
    WatchesGrow(s, s', k);
    if ReadOk(s, k, names, status) {
      match StatusAt(s.zk, ChildAt(At(k), names[|status|]))
      case Some(x) =>
        ReadMore(s, s', k, names, status, x);
        if s'.worker.Writing? {
          ReadComplete(s', k, names, status + [x]);
        }
      case None =>
        ReadStops(s, s', k, names, status);
    }
  }

  lemma StatusKeeps(s: State, s': State)
    requires Inv(s) && ReadsStatus(s, s')
    ensures Inv(s')
  {
    StatusShape(s, s');
    StatusSettled(s, s');
    assert KeyInv(s, s.worker.key);
    ReadKeeps(s, s');
  }

  lemma SkipKeeps(s: State, s': State)
    requires Inv(s) && SkipsEmpty(s, s')
    ensures Inv(s')
  {
    forall k ensures KeyInv(s', k) {
      assert KeyInv(s, k);
      if k != s.worker.key {
        OtherKey(s, s', k);
      }
    }
    AssistKept(s, s');
  }

  lemma RemoveKeeps(s: State, s': State)
    requires Inv(s) && Removes(s, s')
    ensures Inv(s')
  {
    forall k ensures KeyInv(s', k) {
      assert KeyInv(s, k);
      if k != s.worker.key {
        OtherKey(s, s', k);
      }
    }
    AssistKept(s, s');
  }

  lemma AddTriggerKeeps(s: State, s': State)
    requires Inv(s) && AddsTrigger(s, s')
    ensures Inv(s')
  {
    forall k ensures KeyInv(s', k) {
      assert KeyInv(s, k);
      if k != s.worker.key {
        OtherKey(s, s', k);
      }
    }
    AssistKept(s, s');
  }

  lemma DelPendingKeeps(s: State, s': State)
    requires Inv(s) && DelsPending(s, s')
    ensures Inv(s')
  {
    forall k ensures KeyInv(s', k) {
      assert KeyInv(s, k);
      if k != s.worker.key {
        OtherKey(s, s', k);
      }
    }
    AssistKept(s, s');
  }

  lemma WorkerKeeps(s: State, s': State)
    requires Inv(s) && WorkerStep(s, s')
    ensures Inv(s')
  {
    if Dequeues(s, s') {
      DequeueKeeps(s, s');
    } else if AddsPending(s, s') {
      AddPendingKeeps(s, s');
    } else if ChecksGray(s, s') {
      CheckGrayKeeps(s, s');
    } else if t :| WritesGray(s, s', t) {
      WriteKeeps(s, s', t);
    } else if Fetches(s, s') {
      FetchKeeps(s, s');
    } else if Lists(s, s') {
      ListKeeps(s, s');
    } else if ReadsStatus(s, s') {
      StatusKeeps(s, s');
    } else if SkipsEmpty(s, s') {
      SkipKeeps(s, s');
    } else if t :| Writes(s, s', t) {
      WriteKeeps(s, s', t);
    } else if Removes(s, s') {
      RemoveKeeps(s, s');
    } else if AddsTrigger(s, s') {
      AddTriggerKeeps(s, s');
    } else {
      DelPendingKeeps(s, s');
    }
  }

  // ---- the gray thread

  lemma {:induction false} GrayInsertedAt(gray: map<Key, Bytes>, nodes: seq<(Key, Bytes)>, k: Key)
    ensures k in GrayInserted(gray, nodes) <==> k in gray || k in FirstOf(nodes)
    ensures k in gray ==> GrayInserted(gray, nodes)[k] == gray[k]
    decreases |nodes|
  {
    if nodes != [] {
      var gray1 := if nodes[0].0 in gray then gray else gray[nodes[0].0 := nodes[0].1];
      GrayInsertedAt(gray1, nodes[1..], k);
      assert FirstOf(nodes) == [nodes[0].0] + FirstOf(nodes[1..]);
    }
  }

  /** Position p is the first that lists the key. */
  ghost predicate FirstFor(nodes: seq<(Key, Bytes)>, k: Key, p: nat) {
    p < |nodes| && nodes[p].0 == k && forall i :: 0 <= i < p ==> nodes[i].0 != k
  }

  lemma {:induction false} FirstListed(nodes: seq<(Key, Bytes)>, k: Key) returns (p: nat)
    requires k in FirstOf(nodes)
    ensures FirstFor(nodes, k, p)
    decreases |nodes|
  {
    if nodes[0].0 == k {
      p := 0;
    } else {
      assert FirstOf(nodes) == [nodes[0].0] + FirstOf(nodes[1..]);
      var q := FirstListed(nodes[1..], k);
      p := q + 1;
      assert forall i :: 0 < i < |nodes| ==> nodes[i] == nodes[1..][i - 1];
    }
  }

  /** A key that was not gray gets the first value listed for it. */
  lemma {:induction false} GrayInsertedFirst(gray: map<Key, Bytes>, nodes: seq<(Key, Bytes)>, k: Key, p: nat)
    requires k !in gray && FirstFor(nodes, k, p)
    ensures k in GrayInserted(gray, nodes) && GrayInserted(gray, nodes)[k] == nodes[p].1
    decreases |nodes|
  {
    var gray1 := if nodes[0].0 in gray then gray else gray[nodes[0].0 := nodes[0].1];
    if p == 0 {
      GrayInsertedAt(gray1, nodes[1..], k);
    } else {
      GrayInsertedFirst(gray1, nodes[1..], k, p - 1);
    }
  }

  lemma GraySetKeeps(s: State, s': State, nodes: seq<(Key, Bytes)>)
    requires Inv(s) && GraySets(s, s', nodes)
    ensures Inv(s')
  {
    forall k ensures KeyInv(s', k) {
      assert KeyInv(s, k);
      GrayInsertedAt(s.gray, nodes, k);
    }
    AssistKept(s, s');
  }

  lemma GrayFailKeeps(s: State, s': State, todo: seq<Key>)
    requires Inv(s) && GrayFails(s, s', todo)
    ensures Inv(s')
  {
    forall k ensures KeyInv(s', k) {
      assert KeyInv(s, k);
      Unforgotten(s, s', k);
    }
    AssistKept(s, s');
  }

  lemma GrayListKeeps(s: State, s': State, todo: seq<Key>)
    requires Inv(s) && GrayLists(s, s', todo)
    ensures Inv(s')
  {
    forall k ensures KeyInv(s', k) {
      assert KeyInv(s, k);
      Unforgotten(s, s', k);
    }
    AssistKept(s, s');
  }

  /** Clearing the gray set leaves every formerly gray key with the gray thread, to be queued. */
  lemma GrayClearKeeps(s: State, s': State)
    requires Inv(s) && GrayClears(s, s')
    ensures Inv(s')
    ensures forall k :: k in s.gray ==> Owed(s', k)
  {
    forall k
      ensures KeyInv(s', k)
      ensures k in s.gray ==> Owed(s', k)
    {
      assert KeyInv(s, k);
    }
    AssistKept(s, s');
  }

  lemma GrayAddKeeps(s: State, s': State)
    requires Inv(s) && GrayAdds(s, s')
    ensures Inv(s')
  {
    forall k
      ensures KeyInv(s', k)
      ensures Scheduled(s, k) ==> Scheduled(s', k)
    {
      assert KeyInv(s, k);
      if k in s.grayThread.todo {
        TailMember(k, s.grayThread.todo);
      }
      Unforgotten(s, s', k);
    }
    PushWf(s.work, s.grayThread.todo[0]);
    AssistKept(s, s');
  }

  lemma GrayKeeps(s: State, s': State)
    requires Inv(s) && GrayStep(s, s')
    ensures Inv(s')
  {
    if n :| GraySets(s, s', n) {
      GraySetKeeps(s, s', n);
    } else if t :| GrayFails(s, s', t) {
      GrayFailKeeps(s, s', t);
    } else if t :| GrayLists(s, s', t) {
      GrayListKeeps(s, s', t);
    } else if GrayClears(s, s') {
      GrayClearKeeps(s, s');
    } else {
      GrayAddKeeps(s, s');
    }
  }

  // ---- the assistant and the trigger thread

  lemma AssistReadKeeps(s: State, s': State, key: Key)
    requires Inv(s) && AssistReads(s, s', key)
    ensures Inv(s')
  {
    forall k ensures KeyInv(s', k) {
      assert KeyInv(s, k);
      Unforgotten(s, s', k);
    }
  }

  lemma AssistDumpKeeps(s: State, s': State)
    requires Inv(s) && AssistDumps(s, s')
    ensures Inv(s')
  {
    forall k ensures KeyInv(s', k) {
      assert KeyInv(s, k);
      Unforgotten(s, s', k);
    }
  }

  /** A step that reads ZooKeeper for the assistant's key. */
  ghost predicate AssistReadsZk(s: State, s': State) {
    && s' == s.(assist := s'.assist, dataW := s'.dataW, childW := s'.childW, unswept := s'.unswept,
                disturbed := s'.disturbed)
    && s.dataW <= s'.dataW && s.childW <= s'.childW
    && !s.assist.Walking? && (s'.assist.Comparing? ==> s'.assist.key.kind == Service)
    && s.unswept - {s.assist.key} <= s'.unswept <= s.unswept
  }

  lemma AssistCompareShape(s: State, s': State)
    requires AssistCompares(s, s')
    ensures AssistReadsZk(s, s')
  {
  }

  lemma AssistListShape(s: State, s': State)
    requires AssistLists(s, s')
    ensures AssistReadsZk(s, s')
  {
  }

  lemma AssistStatusShape(s: State, s': State)
    requires AssistStatus(s, s') && s.assist.key.kind == Service
    ensures AssistReadsZk(s, s')
  {
  }

  /** The assistant leaves a key that is in step or has something outstanding. */
  ghost predicate LeavesSettled(s: State, s': State, k: Key) {
    k in s.unswept && k in s.table ==> k in s'.unswept || Outstanding(s', k) || Synced(s', k) || Excused(s', k)
  }

  lemma AssistReadsZkKeeps(s: State, s': State)
    requires Inv(s) && AssistReadsZk(s, s') && LeavesSettled(s, s', s.assist.key) && AssistInv(s')
    ensures Inv(s')
  {
    forall k ensures KeyInv(s', k) {
      assert KeyInv(s, k);
      Unforgotten(s, s', k);
    }
  }

  lemma AssistCompareKey(s: State, s': State)
    requires Inv(s) && AssistCompares(s, s')
    ensures LeavesSettled(s, s', s.assist.key) && AssistInv(s')
  {
    var k := s.assist.key;
    if k in s.unswept && k in s.table && Held(s.zk, k) == Some(s.assist.val) {
      FetchedCurrent(s, s', k, s.assist.val);
    }
  }

  lemma AssistCompareKeeps(s: State, s': State)
    requires Inv(s) && AssistCompares(s, s')
    ensures Inv(s')
  {
    AssistCompareKey(s, s');
    AssistCompareShape(s, s');
    AssistReadsZkKeeps(s, s');
  }

  /** A service comparison that is complete or goes on, with what is read so far true or something outstanding. */
  lemma NextCompareSettled(s: State, s': State, names: seq<Bytes>, status: seq<int>)
    requires AssistInv(s) && (s.assist.Dumped? || s.assist.Comparing?) && s.assist.key.kind == Service
             && |status| <= |names|
    requires AssistReadsZk(s, s') && s'.assist == NextCompare(s.assist.key, s.assist.val, names, status)
    requires s.assist.key in s.unswept && s.assist.key in s.table ==>
               ReadOk(s', s.assist.key, names, status) || Outstanding(s', s.assist.key)
    requires s'.assist.Walking? || s'.unswept == s.unswept
    ensures LeavesSettled(s, s', s.assist.key) && AssistInv(s')
  {
    var k := s.assist.key;
    if k in s.unswept && k in s.table && !Outstanding(s', k) {
      if |status| == |names| {
        ReadComplete(s', k, names, status);
      }
    }
  }

  lemma AssistListKey(s: State, s': State)
    requires AssistInv(s) && AssistLists(s, s') && AssistReadsZk(s, s')
    ensures LeavesSettled(s, s', s.assist.key) && AssistInv(s')
  {
    var k := s.assist.key;
    if At(k) in s.zk {
      ListedFirst(s', k);
      NextCompareSettled(s, s', s.zk[At(k)].children, []);
    }
  }

  lemma AssistListKeeps(s: State, s': State)
    requires Inv(s) && AssistLists(s, s')
    ensures Inv(s')
  {
    AssistListShape(s, s');
    AssistListKey(s, s');
    AssistReadsZkKeeps(s, s');
  }

  /** What is read of an inherited service grows by one status or stops at a child without one. */
  lemma AssistStatusRead(s: State, s': State)
    requires Inv(s) && AssistStatus(s, s') && AssistReadsZk(s, s')
    requires s.assist.key in s.unswept && s.assist.key in s.table && !Outstanding(s', s.assist.key)
    ensures var k, names, status := s.assist.key, s.assist.names, s.assist.status;
            match StatusAt(s.zk, ChildAt(At(k), names[|status|]))
            case Some(x) => ReadOk(s', k, names, status + [x])
            case None => Stuck(s', k)
  {
    var k, names, status := s.assist.key, s.assist.names, s.assist.status;
    match StatusAt(s.zk, ChildAt(At(k), names[|status|]))
    case Some(x) =>
      ReadMore(s, s', k, names, status, x);
    case None =>
      ReadStops(s, s', k, names, status);
  }

  lemma AssistStatusKey(s: State, s': State)
    requires Inv(s) && AssistStatus(s, s') && AssistReadsZk(s, s')
    ensures LeavesSettled(s, s', s.assist.key) && AssistInv(s')
  {
    var k, names, status := s.assist.key, s.assist.names, s.assist.status;
    if k in s.unswept && k in s.table && !Outstanding(s', k) {
      AssistStatusRead(s, s');
    }
    if x :| StatusAt(s.zk, ChildAt(At(k), names[|status|])) == Some(x) {
      NextCompareSettled(s, s', names, status + [x]);
    }
  }

  lemma AssistStatusKeeps(s: State, s': State)
    requires Inv(s) && AssistStatus(s, s')
    ensures Inv(s')
  {
    AssistStatusShape(s, s');
    AssistStatusKey(s, s');
    AssistReadsZkKeeps(s, s');
  }

  lemma AssistAddKeeps(s: State, s': State)
    requires Inv(s) && AssistAdds(s, s')
    ensures Inv(s')
  {
    forall k ensures KeyInv(s', k) {
      assert KeyInv(s, k);
      Unforgotten(s, s', k);
    }
    PushWf(s.work, s.assist.key);
  }

  /** A key without a path is not compared. */
  lemma AssistSkipKeeps(s: State, s': State)
    requires Inv(s) && AssistSkips(s, s')
    ensures Inv(s')
  {
    forall k ensures KeyInv(s', k) {
      assert KeyInv(s, k);
      if k != s.assist.key {
        Unforgotten(s, s', k);
      }
    }
  }

  lemma AssistKeeps(s: State, s': State)
    requires Inv(s) && AssistStep(s, s')
    ensures Inv(s')
  {
    if k :| AssistReads(s, s', k) {
      AssistReadKeeps(s, s', k);
    } else if AssistDumps(s, s') {
      AssistDumpKeeps(s, s');
    } else if AssistCompares(s, s') {
      AssistCompareKeeps(s, s');
    } else if AssistLists(s, s') {
      AssistListKeeps(s, s');
    } else if AssistStatus(s, s') {
      AssistStatusKeeps(s, s');
    } else if AssistSkips(s, s') {
      AssistSkipKeeps(s, s');
    } else {
      AssistAddKeeps(s, s');
    }
  }

  lemma PopTriggerKeeps(s: State, s': State)
    requires Inv(s) && PopsTrigger(s, s')
    ensures Inv(s')
  {
    forall k ensures KeyInv(s', k) {
      assert KeyInv(s, k);
      Unforgotten(s, s', k);
    }
    AssistKept(s, s');
  }

  lemma DumpKeeps(s: State, s': State, again: bool)
    requires Inv(s) && Dumps(s, s', again)
    ensures Inv(s')
  {
    forall k ensures KeyInv(s', k) {
      assert KeyInv(s, k);
      Unforgotten(s, s', k);
    }
    AssistKept(s, s');
  }

  lemma TriggerKeeps(s: State, s': State)
    requires Inv(s) && TriggerStep(s, s')
    ensures Inv(s')
  {
    if PopsTrigger(s, s') {
      PopTriggerKeeps(s, s');
    } else {
      var again :| Dumps(s, s', again);
      DumpKeeps(s, s', again);
    }
  }

  // ---- the environment

  /** The data watch on l is kept on the same data or has fired. */
  ghost predicate DataWatchKept(s: State, s': State, l: Loc) {
    l in s.zk && l in s.dataW ==>
      || (l in s'.zk && s'.zk[l].data == s.zk[l].data && l in s'.dataW)
      || Changed(l) in s'.events
      || (l !in s'.zk && Deleted(l) in s'.events)
  }

  /** The list watch on l is kept on the same list or has fired. */
  ghost predicate ListWatchKept(s: State, s': State, l: Loc) {
    l in s.zk && l in s.childW ==>
      || (l in s'.zk && s'.zk[l].children == s.zk[l].children && l in s'.childW)
      || Child(l) in s'.events
      || Deleted(l) in s'.events
  }

  /** What every change of ZooKeeper guarantees. */
  ghost predicate ZkStep(s: State, s': State) {
    && s' == s.(zk := s'.zk, dataW := s'.dataW, childW := s'.childW, events := s'.events)
    && TreeWf(s.zk) && TreeWf(s'.zk) && s.events <= s'.events
    && (forall l {:trigger DataWatchKept(s, s', l)} :: DataWatchKept(s, s', l))
    && (forall l {:trigger ListWatchKept(s, s', l)} :: ListWatchKept(s, s', l))
  }

  lemma ChildParent(l: Loc, name: Bytes)
    requires SLASH !in name
    ensures ParentOf(ChildAt(l, name)) == Some(l)
  {
    LastSlashOfPath(l.path, name);
    assert PathOf(l.path, name)[..|l.path|] == l.path;
  }

  lemma ChildUnique(l: Loc, name: Bytes, l': Loc, name': Bytes)
    requires SLASH !in name && SLASH !in name' && ChildAt(l, name) == ChildAt(l', name')
    ensures l == l' && name == name'
  {
    ChildParent(l, name);
    ChildParent(l', name');
    assert PathOf(l.path, name)[|l.path| + 1..] == name;
    assert PathOf(l'.path, name')[|l'.path| + 1..] == name';
  }

  lemma SetsStep(s: State, s': State, l: Loc, data: Bytes)
    requires TreeWf(s.zk) && ZkSets(s, s', l, data)
    ensures ZkStep(s, s')
  {
    forall p, n | p in s'.zk && n in s'.zk[p].children
      ensures ChildExists(s'.zk, p, n)
    {
      assert ChildExists(s.zk, p, n);
    }
    assert l in s.dataW ==> s'.events[|s.events|] == Changed(l);
  }

  lemma CreatesStep(s: State, s': State, p: Loc, name: Bytes, data: Bytes, names': seq<Bytes>)
    requires TreeWf(s.zk) && ZkCreates(s, s', p, name, data, names')
    ensures ZkStep(s, s')
  {
    assert |ChildAt(p, name).path| > |p.path|;
    forall l, n | l in s'.zk && n in s'.zk[l].children
      ensures ChildExists(s'.zk, l, n)
    {
      assert n != name || l != p ==> ChildExists(s.zk, l, n);
    }
    assert p in s.childW ==> s'.events[|s.events|] == Child(p);
  }

  lemma DeletesTree(s: State, s': State, p: Loc, name: Bytes, names': seq<Bytes>)
    requires TreeWf(s.zk) && ZkDeletes(s, s', p, name, names')
    ensures TreeWf(s'.zk)
  {
    assert ChildExists(s.zk, p, name);
    forall l, n | l in s'.zk && n in s'.zk[l].children
      ensures ChildExists(s'.zk, l, n)
    {
      assert ChildExists(s.zk, l, n);
      if ChildAt(l, n) == ChildAt(p, name) {
        ChildUnique(l, n, p, name);
      }
    }
  }

  lemma DeletesStep(s: State, s': State, p: Loc, name: Bytes, names': seq<Bytes>)
    requires TreeWf(s.zk) && ZkDeletes(s, s', p, name, names')
    ensures ZkStep(s, s')
  {
    DeletesTree(s, s', p, name, names');
    var c := ChildAt(p, name);
    assert |c.path| > |p.path|;
    assert s'.events == s.events + (Fired(c in s.dataW || c in s.childW, Deleted(c)) + Fired(p in s.childW, Child(p)));
    assert c in s.dataW || c in s.childW ==> s'.events[|s.events|] == Deleted(c);
    assert p in s.childW ==> s'.events[|s'.events| - 1] == Child(p);
  }

  lemma ListFires(s: State, s': State, k: Key)
    requires ZkStep(s, s') && k.kind != Node && At(k) in s.zk && At(k) in s.childW
    ensures (At(k) in s'.zk && s'.zk[At(k)].children == s.zk[At(k)].children && At(k) in s'.childW) || Owed(s', k)
  {
    assert ListWatchKept(s, s', At(k));
    assert Child(At(k)) in s'.events ==> Concerns(Child(At(k)), k);
    assert Deleted(At(k)) in s'.events ==> Concerns(Deleted(At(k)), k);
  }

  /** A watched child keeps its data, or its change is announced for the service. */
  lemma ChildFires(s: State, s': State, k: Key, n: Bytes)
    requires ZkStep(s, s') && k.kind == Service && At(k) in s.zk && n in s.zk[At(k)].children
    requires At(k) in s'.zk && s'.zk[At(k)].children == s.zk[At(k)].children
    requires ChildAt(At(k), n) in s.dataW
    ensures var c := ChildAt(At(k), n);
            c in s.zk && ((c in s'.zk && s'.zk[c].data == s.zk[c].data && c in s'.dataW) || ChildOwed(s', k))
  {
    var c := ChildAt(At(k), n);
    assert ChildExists(s.zk, At(k), n) && ChildExists(s'.zk, At(k), n);
    ChildParent(At(k), n);
    assert DataWatchKept(s, s', c);
    assert Changed(c) in s'.events ==> ConcernsChild(Changed(c), k);
  }

  lemma ReadFires(s: State, s': State, k: Key, names: seq<Bytes>, status: seq<int>)
    requires ZkStep(s, s') && k.kind == Service && ReadOk(s, k, names, status)
    ensures ReadOk(s', k, names, status) || Owed(s', k) || ChildOwed(s', k)
  {
    ListFires(s, s', k);
    if !Owed(s', k) && !ChildOwed(s', k) {
      forall i | 0 <= i < |status|
        ensures ChildRead(s', k, names[i], status[i])
      {
        assert ChildRead(s, k, names[i], status[i]);
        ChildFires(s, s', k, names[i]);
      }
    }
  }

  lemma ServiceFires(s: State, s': State, k: Key, v: Bytes)
    requires ZkStep(s, s') && k.kind == Service && Current(s, k, v)
    ensures Current(s', k, v) || Owed(s', k) || ChildOwed(s', k)
  {
    var names := s.zk[At(k)].children;
    var status := StatusesAt(s.zk, At(k), names);
    forall i | 0 <= i < |names|
      ensures ChildRead(s, k, names[i], status[i])
    {
      assert names[i] in s.zk[At(k)].children;
    }
    ReadFires(s, s', k, names, status);
    if ReadOk(s', k, names, status) {
      ReadComplete(s', k, names, status);
    }
  }

  lemma CurrentFires(s: State, s': State, k: Key, v: Bytes)
    requires ZkStep(s, s') && Current(s, k, v)
    ensures Current(s', k, v) || Owed(s', k) || ChildOwed(s', k)
  {
    match k.kind
    case Node =>
      assert DataWatchKept(s, s', At(k));
      assert Changed(At(k)) in s'.events ==> Concerns(Changed(At(k)), k);
      assert Deleted(At(k)) in s'.events ==> Concerns(Deleted(At(k)), k);
    case Batch =>
      ListFires(s, s', k);
    case Service =>
      ServiceFires(s, s', k, v);
  }

  lemma StuckFires(s: State, s': State, k: Key)
    requires ZkStep(s, s') && Stuck(s, k)
    ensures Stuck(s', k) || Owed(s', k) || ChildOwed(s', k)
  {
    ListFires(s, s', k);
    if !Owed(s', k) {
      var n :| n in s.zk[At(k)].children && BadChild(s, k, n);
      ChildFires(s, s', k, n);
      assert ChildOwed(s', k) || BadChild(s', k, n);
    }
  }

  lemma OwedGrows(s: State, s': State, k: Key)
    requires ZkStep(s, s')
    ensures Owed(s, k) ==> Owed(s', k)
    ensures ChildOwed(s, k) ==> ChildOwed(s', k)
  {
    if Reported(s.events, k) {
      var e :| e in s.events && Concerns(e, k);
      assert e in s'.events;
    }
    if ChildReported(s.events, k) {
      var e :| e in s.events && ConcernsChild(e, k);
      assert e in s'.events;
    }
  }

  lemma ZkKey(s: State, s': State, k: Key)
    requires ZkStep(s, s') && ThreadInv(s) && KeyInv(s, k)
    ensures KeyInv(s', k)
  {
    OwedGrows(s, s', k);
    if Stuck(s, k) {
      StuckFires(s, s', k);
    }
    if Synced(s, k) {
      CurrentFires(s, s', k, s.table[k]);
    }
    if Holds(s.worker, k) && s.worker.Writing? && Current(s, k, s.worker.val) {
      CurrentFires(s, s', k, s.worker.val);
    }
    if Holds(s.worker, k) && s.worker.Statusing? && ReadOk(s, k, s.worker.names, s.worker.status) {
      ReadFires(s, s', k, s.worker.names, s.worker.status);
    }
  }

  lemma ZkKeeps(s: State, s': State)
    requires Inv(s) && ZkStep(s, s')
    ensures Inv(s')
  {
    forall k ensures KeyInv(s', k) {
      assert KeyInv(s, k);
      ZkKey(s, s', k);
    }
    if s.assist.Comparing? && s.assist.key in s.unswept && s.assist.key in s.table {
      OwedGrows(s, s', s.assist.key);
      if ReadOk(s, s.assist.key, s.assist.names, s.assist.status) {
        ReadFires(s, s', s.assist.key, s.assist.names, s.assist.status);
      }
    }
  }

  lemma ClientAskKeeps(s: State, s': State, key: Key)
    requires Inv(s) && ClientAsks(s, s', key)
    ensures Inv(s')
  {
    forall k ensures KeyInv(s', k) {
      assert KeyInv(s, k);
      Unforgotten(s, s', k);
    }
    PushWf(s.work, key);
    AssistKept(s, s');
  }

  lemma TableShrinkKeeps(s: State, s': State, table': map<Key, Bytes>)
    requires Inv(s) && TableShrinks(s, s', table')
    ensures Inv(s')
  {
    forall k ensures KeyInv(s', k) {
      assert KeyInv(s, k);
      WatchesGrow(s, s', k);
    }
    AssistKept(s, s');
  }

  lemma DumpClearKeeps(s: State, s': State)
    requires Inv(s) && DumpClears(s, s')
    ensures Inv(s')
  {
    forall k ensures KeyInv(s', k) {
      assert KeyInv(s, k);
      Unforgotten(s, s', k);
    }
    AssistKept(s, s');
  }

  lemma EnvKeeps(s: State, s': State)
    requires Inv(s) && EnvStep(s, s')
    ensures Inv(s')
  {
    if l, data :| ZkSets(s, s', l, data) {
      SetsStep(s, s', l, data);
      ZkKeeps(s, s');
    } else if p, name, data, names' :| ZkCreates(s, s', p, name, data, names') {
      CreatesStep(s, s', p, name, data, names');
      ZkKeeps(s, s');
    } else if p, name, names' :| ZkDeletes(s, s', p, name, names') {
      DeletesStep(s, s', p, name, names');
      ZkKeeps(s, s');
    } else if key :| ClientAsks(s, s', key) {
      ClientAskKeeps(s, s', key);
    } else if t :| TableShrinks(s, s', t) {
      TableShrinkKeeps(s, s', t);
    } else {
      DumpClearKeeps(s, s');
    }
  }

  // ---- every run

  lemma StepKeeps(s: State, s': State)
    requires Inv(s) && Step(s, s')
    ensures Inv(s')
  {
    if HandlerStep(s, s') {
      HandlerKeeps(s, s');
    } else if WorkerStep(s, s') {
      WorkerKeeps(s, s');
    } else if GrayStep(s, s') {
      GrayKeeps(s, s');
    } else if AssistStep(s, s') {
      AssistKeeps(s, s');
    } else if TriggerStep(s, s') {
      TriggerKeeps(s, s');
    } else {
      EnvKeeps(s, s');
    }
  }

  lemma {:induction false} RunInv(run: seq<State>, i: nat)
    requires GoodRun(run) && i < |run|
    ensures Inv(run[i])
  {
    if i == 0 {
      InitInv(run[0]);
    } else {
      RunInv(run, i - 1);
      assert GoodStep(run, i - 1);
      StepKeeps(run[i - 1], run[i]);
    }
  }

  // ---- what it means

  /** An event that concerns the key is undelivered, or the callback is at work on it. */
  ghost predicate EventOutstanding(s: State, k: Key) {
    Reported(s.events, k) || Own(k) in s.handler.todo || ChildOwed(s, k)
  }

  /** The value in the table is current, and a client that decodes it sees what ZooKeeper holds. */
  ghost predicate Agrees(s: State, k: Key) {
    Synced(s, k) && (WithinWidths(s.zk, k) ==> Shows(s.zk, k, s.table[k]))
  }

  lemma SyncedAgrees(s: State, k: Key)
    requires Synced(s, k)
    ensures Agrees(s, k)
  {
    if WithinWidths(s.zk, k) {
      HeldShows(s.zk, k, s.table[k]);
    }
  }

  /**
   In every reachable state, a key in the table that is not gray has the value that
   ZooKeeper holds, with every watch on it set, and shows it to its clients, or is queued, being processed, in the gray
   thread's list, announced by an event, or an inherited entry that nobody has looked at
   yet. Only a service can also have lost the test for a changed child, or wait for a child
   without a valid status to change.
   */
  lemma NoLostUpdate(run: seq<State>, i: nat, k: Key)
    requires GoodRun(run) && i < |run|
    requires k in run[i].table && k !in run[i].gray && Readable(k)
    ensures Agrees(run[i], k) || k in run[i].work.order || Holds(run[i].worker, k) || k in run[i].grayThread.todo
            || EventOutstanding(run[i], k) || k in run[i].unswept
            || (k.kind == Service && (k in run[i].dropped || Stuck(run[i], k)))
  {
    RunInv(run, i);
    assert KeyInv(run[i], k);
    if Synced(run[i], k) {
      SyncedAgrees(run[i], k);
    }
  }

  /** In every reachable state, a gray key in the table has its gray value or is about to be written. */
  lemma GrayOverlay(run: seq<State>, i: nat, k: Key)
    requires GoodRun(run) && i < |run|
    requires k in run[i].table && k in run[i].gray
    ensures run[i].table[k] == run[i].gray[k] || k in run[i].work.order || Holds(run[i].worker, k)
            || k in run[i].grayThread.todo
  {
    RunInv(run, i);
    assert KeyInv(run[i], k);
  }

  /** When the gray set is cleared, every formerly gray key is with the gray thread, on its way to the queue. */
  lemma GrayReleased(run: seq<State>, i: nat, k: Key)
    requires GoodRun(run) && i + 1 < |run| && GrayClears(run[i], run[i + 1]) && k in run[i].gray
    ensures run[i + 1].gray == map[] && run[i + 1].grayThread.Queueing? && k in run[i + 1].grayThread.todo
  {
    RunInv(run, i);
  }

  /** Nothing is queued, in progress, announced or unchecked. */
  ghost predicate Quiescent(s: State) {
    && s.work.order == [] && s.worker.Idle? && s.events == [] && s.handler == Testing([])
    && s.grayThread == Queueing([]) && s.unswept == {}
  }

  /**
   At rest, gray keys hold their gray values and node and batch keys what ZooKeeper holds: no gray
   value outlives its release.
   */
  lemma QuiescentAgrees(run: seq<State>, i: nat, k: Key)
    requires GoodRun(run) && i < |run| && Quiescent(run[i]) && k in run[i].table && Readable(k)
    ensures k in run[i].gray ==> run[i].table[k] == run[i].gray[k]
    ensures k !in run[i].gray && k.kind != Service ==> Agrees(run[i], k)
  {
    RunInv(run, i);
    assert KeyInv(run[i], k);
    if k !in run[i].gray && k.kind != Service {
      SyncedAgrees(run[i], k);
    }
  }
}
