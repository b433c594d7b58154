/**
 The table check repairs a service that lost an update: a check that ends without having found
 a difference leaves a service in step, unless something happened to it since the check read its list.
 */
module WatcherCheck {
  import opened Basics
  import opened WatcherModel
  import opened WatcherSync
  import opened WatcherService

  /** The worker has taken the key up and will still read it. */
  ghost predicate Fresh(w: Worker, k: Key) {
    Holds(w, k) && (w.Dequeued? || w.Checking? || w.Fetching?)
  }

  /** Nothing needs to be owed to the key: it is about to be read, or out of the table, or its table test is to come. */
  ghost predicate Slack(s: State, k: Key) {
    if Holds(s.worker, k) then Fresh(s.worker, k) else HalfTested(s.handler, k) || k !in s.table
  }

  ghost predicate Stands(s: State, k: Key, names: seq<Bytes>, status: seq<int>) {
    ReadOk(s, k, names, status) || Owed(s, k) || ChildOwed(s, k) || Slack(s, k)
  }

  /** What the assistant has read of a service still stands, unless its comparison was disturbed. */
  ghost predicate CheckInv(s: State) {
    s.assist.Comparing? ==>
      && s.assist.key.kind == Service && Readable(s.assist.key)
      && (!s.disturbed && s.assist.key !in s.gray ==> Stands(s, s.assist.key, s.assist.names, s.assist.status))
  }

  /** A step of another thread keeps what is owed to a key. */
  ghost predicate KeepsOwed(s: State, s': State, k: Key) {
    && (k in s.gray ==> Owed(s', k))
    && (Owed(s, k) ==> Owed(s', k) || Slack(s', k))
    && (ChildOwed(s, k) ==> ChildOwed(s', k) || Owed(s', k))
    && (Slack(s, k) ==> Slack(s', k) || Owed(s', k))
  }

  lemma CheckKept(s: State, s': State)
    requires CheckInv(s) && s'.assist == s.assist && (s.disturbed ==> s'.disturbed)
    requires s'.zk == s.zk && s.dataW <= s'.dataW && s.childW <= s'.childW
    requires s.assist.Comparing? && !s'.disturbed && s.assist.key !in s'.gray ==> KeepsOwed(s, s', s.assist.key)
    ensures CheckInv(s')
  {
    if s.assist.Comparing? {
      WatchesGrow(s, s', s.assist.key);
    }
  }

  // ---- the callback

  lemma DeliverCheck(s: State, s': State)
    requires Inv(s) && CheckInv(s) && Delivers(s, s')
    ensures CheckInv(s')
  {
    if s.assist.Comparing? {
      DeliverKey(s, s', s.assist.key);
    }
    CheckKept(s, s');
  }

  lemma PendingTestOwed(s: State, s': State, k: Key)
    requires ThreadInv(s) && TestsPending(s, s')
    ensures Owed(s, k) ==> Owed(s', k) || Slack(s', k)
    ensures ChildOwed(s, k) ==> ChildOwed(s', k)
  {
    if Own(k) in s.handler.todo {
      TailMember(Own(k), s.handler.todo);
    }
  }

  lemma PendingTestCheck(s: State, s': State)
    requires Inv(s) && CheckInv(s) && TestsPending(s, s')
    ensures CheckInv(s')
  {
    if s.assist.Comparing? {
      PendingTestOwed(s, s', s.assist.key);
    }
    CheckKept(s, s');
  }

  lemma TableTestChildOwed(s: State, s': State, k: Key)
    requires TestsTable(s, s') && ChildOwed(s, k) && s.assist.Comparing? && s.assist.key == k
    ensures ChildOwed(s', k) || s'.disturbed
  {
    if ChildTested(s.handler.todo, k) {
      var t :| t in s.handler.todo && t.tableKey == k && t != Own(k);
      TailMember(t, s.handler.todo);
    }
  }

  lemma TableTestCheck(s: State, s': State)
    requires Inv(s) && CheckInv(s) && TestsTable(s, s')
    ensures CheckInv(s')
  {
    if s.assist.Comparing? {
      TableTestOwed(s, s', s.assist.key);
      if ChildOwed(s, s.assist.key) {
        TableTestChildOwed(s, s', s.assist.key);
      }
    }
    CheckKept(s, s');
  }

  lemma HandlerAddOwed(s: State, s': State, k: Key)
    requires HandlerAdds(s, s')
    ensures Owed(s, k) ==> Owed(s', k)
    ensures ChildOwed(s, k) ==> ChildOwed(s', k) || Owed(s', k)
  {
    if HandlerOwes(s.handler, k) {
      TailMember(Own(k), s.handler.todo);
    }
    if ChildTested(s.handler.todo, k) {
      var t :| t in s.handler.todo && t.tableKey == k && t != Own(k);
      TailMember(t, s.handler.todo);
    }
  }

  lemma HandlerAddCheck(s: State, s': State)
    requires Inv(s) && CheckInv(s) && HandlerAdds(s, s')
    ensures CheckInv(s')
  {
    if s.assist.Comparing? {
      HandlerAddOwed(s, s', s.assist.key);
    }
    CheckKept(s, s');
  }

  lemma HandlerCheck(s: State, s': State)
    requires Inv(s) && CheckInv(s) && HandlerStep(s, s')
    ensures CheckInv(s')
  {
    if Delivers(s, s') {
      DeliverCheck(s, s');
    } else if TestsPending(s, s') {
      PendingTestCheck(s, s');
    } else if TestsTable(s, s') {
      TableTestCheck(s, s');
    } else {
      HandlerAddCheck(s, s');
    }
  }

  // ---- the worker

  /** What no step of the worker touches. */
  ghost predicate WorkerFrame(s: State, s': State) {
    && s'.assist == s.assist && s'.zk == s.zk && s.dataW <= s'.dataW && s.childW <= s'.childW
    && s'.gray == s.gray && s'.handler == s.handler && s'.events == s.events && s'.grayThread == s.grayThread
    && (s.disturbed ==> s'.disturbed)
  }

  /** What a step of the worker means for one key. */
  ghost predicate WorkerKey(s: State, s': State, k: Key) {
    && (k in s.work.members ==> k in s'.work.members || Fresh(s'.worker, k))
    && (k in s'.table && !Holds(s.worker, k) ==> k in s.table)
    && (Fresh(s.worker, k) ==> Fresh(s'.worker, k) || k in s.gray || s'.disturbed)
    && (!Holds(s.worker, k) ==> !Holds(s'.worker, k) || Fresh(s'.worker, k))
    && (Holds(s.worker, k) && !Holds(s'.worker, k) ==> !Fresh(s.worker, k))
  }

  lemma WorkerKept(s: State, s': State)
    requires CheckInv(s) && WorkerFrame(s, s')
    requires s.assist.Comparing? ==> WorkerKey(s, s', s.assist.key)
    ensures CheckInv(s')
  {
    CheckKept(s, s');
  }

  lemma DequeueCheck(s: State, s': State)
    requires CheckInv(s) && Dequeues(s, s')
    ensures CheckInv(s')
  {
    WorkerKept(s, s');
  }

  lemma AddPendingCheck(s: State, s': State)
    requires CheckInv(s) && AddsPending(s, s')
    ensures CheckInv(s')
  {
    WorkerKept(s, s');
  }

  lemma CheckGrayCheck(s: State, s': State)
    requires CheckInv(s) && ChecksGray(s, s')
    ensures CheckInv(s')
  {
    WorkerKept(s, s');
  }

  lemma SkipCheck(s: State, s': State)
    requires CheckInv(s) && SkipsEmpty(s, s')
    ensures CheckInv(s')
  {
    WorkerKept(s, s');
  }

  lemma RemoveCheck(s: State, s': State)
    requires CheckInv(s) && Removes(s, s')
    ensures CheckInv(s')
  {
    WorkerKept(s, s');
  }

  lemma AddTriggerCheck(s: State, s': State)
    requires CheckInv(s) && AddsTrigger(s, s')
    ensures CheckInv(s')
  {
    WorkerKept(s, s');
  }

  lemma DelPendingCheck(s: State, s': State)
    requires CheckInv(s) && DelsPending(s, s')
    ensures CheckInv(s')
  {
    WorkerKept(s, s');
  }

  lemma StoreCheck(s: State, s': State, table': map<Key, Bytes>)
    requires CheckInv(s) && (s.worker.GrayWriting? || s.worker.Writing?)
    requires Stored(s, s', s.worker.key, s.worker.val, table', true)
    ensures CheckInv(s')
  {
    WorkerKept(s, s');
  }

  lemma SameCheck(s: State, s': State)
    requires CheckInv(s) && (s.worker.GrayWriting? || s.worker.Writing?)
    requires SameValue(s, s', s.worker.key, s.worker.val)
    ensures CheckInv(s')
  {
    WorkerKept(s, s');
  }

  lemma RefuseCheck(s: State, s': State, table': map<Key, Bytes>)
    requires CheckInv(s) && (s.worker.GrayWriting? || s.worker.Writing?)
    requires Refused(s, s', s.worker.key, s.worker.val, table')
    ensures CheckInv(s')
  {
    WorkerKept(s, s');
  }

  lemma WriteCheck(s: State, s': State, table': map<Key, Bytes>)
    requires CheckInv(s) && (s.worker.GrayWriting? || s.worker.Writing?)
    requires WritesThen(s, s', s.worker.key, s.worker.val, table', true)
    ensures CheckInv(s')
  {
    if Stored(s, s', s.worker.key, s.worker.val, table', true) {
      StoreCheck(s, s', table');
    } else if SameValue(s, s', s.worker.key, s.worker.val) {
      SameCheck(s, s');
    } else {
      RefuseCheck(s, s', table');
    }
  }

  lemma ReadCheck(s: State, s': State)
    requires CheckInv(s) && WorkerReads(s, s')
    requires s.worker.Fetching? ==>
               s.worker.key.kind != Service || !s.assist.Comparing? || s.worker.key != s.assist.key || s'.disturbed
    requires s.disturbed ==> s'.disturbed
    requires s'.worker.Writing? || s'.worker.Statusing? || s'.worker.Finishing? || s'.worker.Removing?
    ensures CheckInv(s')
  {
    WorkerKept(s, s');
  }

  lemma FetchCheck(s: State, s': State)
    requires CheckInv(s) && Fetches(s, s')
    ensures CheckInv(s')
  {
    WatcherSync.FetchShape(s, s');
    FetchSettled(s, s');
    ReadCheck(s, s');
  }

  lemma ListCheck(s: State, s': State)
    requires CheckInv(s) && Lists(s, s')
    ensures CheckInv(s')
  {
    WatcherSync.ListShape(s, s');
    ListSettled(s, s');
    ReadCheck(s, s');
  }

  lemma StatusCheck(s: State, s': State)
    requires Inv(s) && CheckInv(s) && ReadsStatus(s, s')
    ensures CheckInv(s')
  {
    WatcherSync.StatusShape(s, s');
    StatusSettled(s, s');
    ReadCheck(s, s');
  }

  lemma WorkerCheck(s: State, s': State)
    requires Inv(s) && CheckInv(s) && WorkerStep(s, s')
    ensures CheckInv(s')
  {
    if Dequeues(s, s') {
      DequeueCheck(s, s');
    } else if AddsPending(s, s') {
      AddPendingCheck(s, s');
    } else if ChecksGray(s, s') {
      CheckGrayCheck(s, s');
    } else if t :| WritesGray(s, s', t) {
      WriteCheck(s, s', t);
    } else if Fetches(s, s') {
      FetchCheck(s, s');
    } else if Lists(s, s') {
      ListCheck(s, s');
    } else if ReadsStatus(s, s') {
      StatusCheck(s, s');
    } else if SkipsEmpty(s, s') {
      SkipCheck(s, s');
    } else if t :| Writes(s, s', t) {
      WriteCheck(s, s', t);
    } else if Removes(s, s') {
      RemoveCheck(s, s');
    } else if AddsTrigger(s, s') {
      AddTriggerCheck(s, s');
    } else {
      DelPendingCheck(s, s');
    }
  }

  // ---- the gray thread, the trigger thread and the environment

  lemma GraySetCheck(s: State, s': State, nodes: seq<(Key, Bytes)>)
    requires CheckInv(s) && GraySets(s, s', nodes)
    ensures CheckInv(s')
  {
    if s.assist.Comparing? {
      GrayInsertedAt(s.gray, nodes, s.assist.key);
    }
    CheckKept(s, s');
  }

  lemma GrayFailCheck(s: State, s': State, todo: seq<Key>)
    requires CheckInv(s) && GrayFails(s, s', todo)
    ensures CheckInv(s')
  {
    CheckKept(s, s');
  }

  lemma GrayListCheck(s: State, s': State, todo: seq<Key>)
    requires CheckInv(s) && GrayLists(s, s', todo)
    ensures CheckInv(s')
  {
    CheckKept(s, s');
  }

  lemma GrayClearCheck(s: State, s': State)
    requires Inv(s) && CheckInv(s) && GrayClears(s, s')
    ensures CheckInv(s')
  {
    CheckKept(s, s');
  }

  lemma GrayAddCheck(s: State, s': State)
    requires CheckInv(s) && GrayAdds(s, s')
    ensures CheckInv(s')
  {
    if s.assist.Comparing? && s.assist.key in s.grayThread.todo {
      TailMember(s.assist.key, s.grayThread.todo);
    }
    CheckKept(s, s');
  }

  lemma GrayCheck(s: State, s': State)
    requires Inv(s) && CheckInv(s) && GrayStep(s, s')
    ensures CheckInv(s')
  {
    if n :| GraySets(s, s', n) {
      GraySetCheck(s, s', n);
    } else if t :| GrayFails(s, s', t) {
      GrayFailCheck(s, s', t);
    } else if t :| GrayLists(s, s', t) {
      GrayListCheck(s, s', t);
    } else if GrayClears(s, s') {
      GrayClearCheck(s, s');
    } else {
      GrayAddCheck(s, s');
    }
  }

  lemma PopCheck(s: State, s': State)
    requires CheckInv(s) && PopsTrigger(s, s')
    ensures CheckInv(s')
  {
    CheckKept(s, s');
  }

  lemma DumpCheck(s: State, s': State, again: bool)
    requires CheckInv(s) && Dumps(s, s', again)
    ensures CheckInv(s')
  {
    CheckKept(s, s');
  }

  lemma ZkCheck(s: State, s': State)
    requires CheckInv(s) && ZkStep(s, s')
    ensures CheckInv(s')
  {
    if s.assist.Comparing? {
      OwedGrows(s, s', s.assist.key);
      if ReadOk(s, s.assist.key, s.assist.names, s.assist.status) {
        ReadFires(s, s', s.assist.key, s.assist.names, s.assist.status);
      }
    }
  }

  lemma ClientCheck(s: State, s': State, k: Key)
    requires CheckInv(s) && ClientAsks(s, s', k)
    ensures CheckInv(s')
  {
    CheckKept(s, s');
  }

  lemma ShrinkCheck(s: State, s': State, table': map<Key, Bytes>)
    requires CheckInv(s) && TableShrinks(s, s', table')
    ensures CheckInv(s')
  {
    CheckKept(s, s');
  }

  lemma ClearCheck(s: State, s': State)
    requires CheckInv(s) && DumpClears(s, s')
    ensures CheckInv(s')
  {
    CheckKept(s, s');
  }

  lemma EnvCheck(s: State, s': State)
    requires Inv(s) && CheckInv(s) && EnvStep(s, s')
    ensures CheckInv(s')
  {
    if l, data :| ZkSets(s, s', l, data) {
      SetsStep(s, s', l, data);
      ZkCheck(s, s');
    } else if p, name, data, names' :| ZkCreates(s, s', p, name, data, names') {
      CreatesStep(s, s', p, name, data, names');
      ZkCheck(s, s');
    } else if p, name, names' :| ZkDeletes(s, s', p, name, names') {
      DeletesStep(s, s', p, name, names');
      ZkCheck(s, s');
    } else if k :| ClientAsks(s, s', k) {
      ClientCheck(s, s', k);
    } else if t :| TableShrinks(s, s', t) {
      ShrinkCheck(s, s', t);
    } else {
      ClearCheck(s, s');
    }
  }

  // ---- the assistant itself

  lemma AssistListCheck(s: State, s': State)
    requires AssistLists(s, s')
    ensures CheckInv(s')
  {
    if At(s.assist.key) in s.zk {
      ListedFirst(s', s.assist.key);
    }
  }

  /** What stands, stands after one more status read; without a valid status the service is stuck. */
  lemma StandsMore(s: State, s1: State, k: Key, names: seq<Bytes>, status: seq<int>)
    requires TreeWf(s.zk) && k.kind == Service && Stands(s, k, names, status) && |status| < |names|
    requires s1 == WatchingData(s, ChildAt(At(k), names[|status|]))
    ensures match StatusAt(s.zk, ChildAt(At(k), names[|status|]))
            case Some(x) => Stands(s1, k, names, status + [x])
            case None => Stuck(s1, k) || Owed(s1, k) || ChildOwed(s1, k) || Slack(s1, k)
  {
    if ReadOk(s, k, names, status) {
      match StatusAt(s.zk, ChildAt(At(k), names[|status|]))
      case Some(x) =>
        ReadMore(s, s1, k, names, status, x);
      case None =>
        ReadStops(s, s1, k, names, status);
    }
  }

  lemma StandsSame(s: State, s': State, k: Key, names: seq<Bytes>, status: seq<int>)
    requires Stands(s, k, names, status) && s' == s.(assist := s'.assist, unswept := s'.unswept)
    ensures Stands(s', k, names, status)
  {
    WatchesGrow(s, s', k);
  }

  lemma AssistStatusCheck(s: State, s': State)
    requires Inv(s) && CheckInv(s) && AssistStatus(s, s')
    ensures CheckInv(s')
  {
    var k, names, status := s.assist.key, s.assist.names, s.assist.status;
    var s1 := WatchingData(s, ChildAt(At(k), names[|status|]));
    if s'.assist.Comparing? && !s'.disturbed && k !in s'.gray {
      StandsMore(s, s1, k, names, status);
      StandsSame(s1, s', k, names, s'.assist.status);
    }
  }

  lemma AssistReadCheck(s: State, s': State, k: Key)
    requires AssistReads(s, s', k)
    ensures CheckInv(s')
  {
  }

  lemma AssistDumpCheck(s: State, s': State)
    requires AssistDumps(s, s')
    ensures CheckInv(s')
  {
  }

  lemma AssistCompareCheck(s: State, s': State)
    requires AssistCompares(s, s')
    ensures CheckInv(s')
  {
  }

  lemma AssistSkipCheck(s: State, s': State)
    requires AssistSkips(s, s')
    ensures CheckInv(s')
  {
  }

  lemma AssistAddCheck(s: State, s': State)
    requires AssistAdds(s, s')
    ensures CheckInv(s')
  {
  }

  lemma AssistCheck(s: State, s': State)
    requires Inv(s) && CheckInv(s) && AssistStep(s, s')
    ensures CheckInv(s')
  {
    if k :| AssistReads(s, s', k) {
      AssistReadCheck(s, s', k);
    } else if AssistDumps(s, s') {
      AssistDumpCheck(s, s');
    } else if AssistCompares(s, s') {
      AssistCompareCheck(s, s');
    } else if AssistLists(s, s') {
      AssistListCheck(s, s');
    } else if AssistStatus(s, s') {
      AssistStatusCheck(s, s');
    } else if AssistSkips(s, s') {
      AssistSkipCheck(s, s');
    } else {
      AssistAddCheck(s, s');
    }
  }

  lemma StepCheck(s: State, s': State)
    requires Inv(s) && CheckInv(s) && Step(s, s')
    ensures CheckInv(s')
  {
    if HandlerStep(s, s') {
      HandlerCheck(s, s');
    } else if WorkerStep(s, s') {
      WorkerCheck(s, s');
    } else if GrayStep(s, s') {
      GrayCheck(s, s');
    } else if AssistStep(s, s') {
      AssistCheck(s, s');
    } else if PopsTrigger(s, s') {
      PopCheck(s, s');
    } else if again :| Dumps(s, s', again) {
      DumpCheck(s, s', again);
    } else {
      EnvCheck(s, s');
    }
  }

  lemma {:induction false} RunCheck(run: seq<State>, i: nat)
    requires GoodRun(run) && i < |run|
    ensures CheckInv(run[i])
  {
    if i > 0 {
      RunCheck(run, i - 1);
      RunInv(run, i - 1);
      assert GoodStep(run, i - 1);
      StepCheck(run[i - 1], run[i]);
    }
  }

  // ---- what a finished check means

  /** The assistant compares service k in all states after l up to i. */
  ghost predicate Comparing(run: seq<State>, l: nat, i: nat, k: Key)
    requires i < |run|
  {
    l < i && forall m :: l < m <= i ==> run[m].assist.Comparing? && run[m].assist.key == k
  }

  /** The assistant read the list of service k at step l and is still at it in state i. */
  ghost predicate Checks(run: seq<State>, l: nat, i: nat, k: Key)
    requires i < |run|
  {
    Comparing(run, l, i, k) && AssistLists(run[l], run[l + 1])
  }

  lemma ListsUndisturbed(s: State, s': State)
    requires AssistLists(s, s') && s'.assist.Comparing?
    ensures !s'.disturbed
  {
  }

  lemma StepDisturbed(s: State, s': State)
    requires Step(s, s') && s.assist.Comparing? && s'.disturbed && !s.disturbed
    ensures Drops(s, s', s.assist.key) || ListsFor(s, s', s.assist.key)
  {
    if !TestsTable(s, s') && !Lists(s, s') {
      OthersSame(s, s');
    }
  }

  /** What disturbs a comparison of k. */
  ghost predicate Disturbance(s: State, s': State, k: Key) {
    Drops(s, s', k) || ListsFor(s, s', k)
  }

  lemma DisturbedNow(run: seq<State>, i: nat, k: Key)
    requires GoodRun(run) && i + 1 < |run| && run[i].assist.Comparing? && run[i].assist.key == k
    requires run[i + 1].disturbed && !run[i].disturbed
    ensures Disturbance(run[i], run[i + 1], k)
  {
    assert GoodStep(run, i);
    StepDisturbed(run[i], run[i + 1]);
  }

  lemma {:induction false} Flips(run: seq<State>, l: nat, i: nat) returns (m: nat)
    requires l < i < |run| && !run[l].disturbed && run[i].disturbed
    ensures l <= m < i && !run[m].disturbed && run[m + 1].disturbed
  {
    m := i - 1;
    if run[m].disturbed {
      m := Flips(run, l, m);
    }
  }

  lemma DisturbedSince(run: seq<State>, l: nat, i: nat, k: Key) returns (m: nat)
    requires GoodRun(run) && i < |run| && Comparing(run, l, i, k) && !run[l + 1].disturbed && run[i].disturbed
    ensures l < m < i && Disturbance(run[m], run[m + 1], k)
  {
    m := Flips(run, l + 1, i);
    DisturbedNow(run, m, k);
  }

  /** A test of k was dropped after step l and not after step i. */
  ghost predicate DropsWithin(run: seq<State>, l: nat, i: nat, k: Key)
    requires i + 1 < |run|
  {
    exists j :: l < j <= i && Drops(run[j], run[j + 1], k)
  }

  /** The service is in step or out of the table, or a read of it or a change of a child is to come. */
  ghost predicate Settled(s: State, k: Key) {
    k !in s.table || Synced(s, k) || Outstanding(s, k) || Holds(s.worker, k) || Stuck(s, k)
  }

  /** An undisturbed comparison that ends without a difference. */
  lemma UndisturbedSettles(s: State, s': State)
    requires Inv(s) && CheckInv(s) && AssistStatus(s, s') && s'.assist.Walking? && !s.disturbed
             && s.assist.key !in s.gray
    ensures Settled(s', s.assist.key) || s'.table[s.assist.key] != s.assist.val
  {
    var k, names, status := s.assist.key, s.assist.names, s.assist.status;
    var c := ChildAt(At(k), names[|status|]);
    var s1 := WatchingData(s, c);
    StandsMore(s, s1, k, names, status);
    WatchesGrow(s1, s', k);
    if x :| StatusAt(s.zk, c) == Some(x) {
      if ReadOk(s1, k, names, status + [x]) {
        ReadComplete(s1, k, names, status + [x]);
      }
    }
  }

  lemma SweptAtEnd(s: State, s': State)
    requires AssistStatus(s, s') && s'.assist.Walking?
    ensures s.assist.key !in s'.unswept && s'.gray == s.gray
  {
  }

  lemma SettledOrDropped(s: State, k: Key)
    requires KeyInv(s, k) && k.kind == Service && Readable(k) && k !in s.gray && k !in s.unswept
    ensures Settled(s, k) || k in s.dropped
  {
  }

  /** A mark left after a read began comes from a test dropped since. */
  lemma DroppedAfter(run: seq<State>, m: nat, i: nat, k: Key)
    requires GoodRun(run) && m <= i && i + 1 < |run| && ListsFor(run[m], run[m + 1], k) && k in run[i + 1].dropped
    ensures DropsWithin(run, m, i, k)
  {
    DroppedSince(run, i + 1, k);
    var j: nat :| LostAt(run, j, i + 1, k);
    DropNotList(run[m], run[m + 1], k);
  }

  /** A comparison during which the worker began to read the service. */
  lemma RereadSettles(run: seq<State>, m: nat, i: nat, k: Key)
    requires GoodRun(run) && m < i && i + 1 < |run| && ListsFor(run[m], run[m + 1], k)
    requires k.kind == Service && Readable(k) && k !in run[i + 1].gray && k !in run[i + 1].unswept
    ensures Settled(run[i + 1], k) || DropsWithin(run, m, i, k)
  {
    RunInv(run, i + 1);
    SettledOrDropped(run[i + 1], k);
    if k in run[i + 1].dropped {
      DroppedAfter(run, m, i, k);
    }
  }

  lemma DropNotList(s: State, s': State, k: Key)
    requires ListsFor(s, s', k)
    ensures !Drops(s, s', k)
  {
  }

  /**
   A check of a service that ends without a difference leaves it in step, whatever was lost
   before, unless a test of it was dropped again since the check read its list, or the table
   got another value than the one compared.
   */
  lemma CheckRepairs(run: seq<State>, l: nat, i: nat, k: Key)
    requires GoodRun(run) && i + 1 < |run| && Checks(run, l, i, k) && k !in run[i].gray
    requires AssistStatus(run[i], run[i + 1]) && run[i + 1].assist.Walking?
    ensures || Settled(run[i + 1], k)
            || DropsWithin(run, l, i, k)
            || run[i + 1].table[k] != run[i].assist.val
  {
    RunInv(run, i);
    RunCheck(run, i);
    ListsUndisturbed(run[l], run[l + 1]);
    if run[i].disturbed {
      var m := DisturbedSince(run, l, i, k);
      if ListsFor(run[m], run[m + 1], k) {
        SweptAtEnd(run[i], run[i + 1]);
        RereadSettles(run, m, i, k);
      }
    } else {
      UndisturbedSettles(run[i], run[i + 1]);
    }
  }

  /** A service without children is compared in one call. */
  lemma EmptyCheckRepairs(s: State, s': State)
    requires AssistLists(s, s') && s'.assist.Walking?
    ensures s.assist.key in s'.table && s'.table[s.assist.key] == s.assist.val ==> Synced(s', s.assist.key)
  {
    if At(s.assist.key) in s.zk {
      ListedFirst(s', s.assist.key);
    }
  }
}
