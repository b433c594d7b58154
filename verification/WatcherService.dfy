/**
 How a service can miss an update, and that it can miss one in no other way. For a changed
 child the callback asks whether the child's own key is pending, or the service is in the
 table. While the service is being read for the first time neither holds, and the test is
 dropped.
 */
module WatcherService {
  import opened Basics
  import opened Codec
  import opened ServiceStatus
  import opened WatcherModel
  import opened WatcherSync
  import opened WatcherProvenance

  // ---- dropped tests in the history of a run

  /**
   The callback drops the test of service k for a changed child: k is not in the table, the child's key
   was not pending.
   */
  ghost predicate Drops(s: State, s': State, k: Key) {
    TestsTable(s, s') && s.handler.todo[0].tableKey == k && s.handler.todo[0] != Own(k) && k !in s.table
  }

  /** The worker starts to read service k. */
  ghost predicate ListsFor(s: State, s': State, k: Key) {
    Lists(s, s') && s.worker.key == k
  }

  lemma HandlerSame(s: State, s': State)
    requires Delivers(s, s') || TestsPending(s, s') || HandlerAdds(s, s')
    ensures s'.dropped == s.dropped && (s'.disturbed ==> s.disturbed)
  {
  }

  lemma StoreSame(s: State, s': State, k: Key, v: Bytes, table': map<Key, Bytes>)
    requires Stored(s, s', k, v, table', true)
    ensures s'.dropped == s.dropped && (s'.disturbed ==> s.disturbed)
  {
  }

  lemma SameSame(s: State, s': State, k: Key, v: Bytes)
    requires SameValue(s, s', k, v)
    ensures s'.dropped == s.dropped && (s'.disturbed ==> s.disturbed)
  {
  }

  lemma RefuseSame(s: State, s': State, k: Key, v: Bytes, table': map<Key, Bytes>)
    requires Refused(s, s', k, v, table')
    ensures s'.dropped == s.dropped && (s'.disturbed ==> s.disturbed)
  {
  }

  lemma WriteSame(s: State, s': State, k: Key, v: Bytes, table': map<Key, Bytes>)
    requires WritesThen(s, s', k, v, table', true)
    ensures s'.dropped == s.dropped && (s'.disturbed ==> s.disturbed)
  {
    if Stored(s, s', k, v, table', true) {
      StoreSame(s, s', k, v, table');
    } else if SameValue(s, s', k, v) {
      SameSame(s, s', k, v);
    } else {
      RefuseSame(s, s', k, v, table');
    }
  }

  lemma ReadSame(s: State, s': State)
    requires Fetches(s, s') || ReadsStatus(s, s')
    ensures s'.dropped == s.dropped && (s'.disturbed ==> s.disturbed)
  {
  }

  lemma AddTriggerSame(s: State, s': State)
    requires AddsTrigger(s, s')
    ensures s'.dropped == s.dropped && (s'.disturbed ==> s.disturbed)
  {
  }

  lemma WorkerSame(s: State, s': State)
    requires WorkerStep(s, s') && !Lists(s, s')
    ensures s'.dropped == s.dropped && (s'.disturbed ==> s.disturbed)
  {
    if t :| WritesGray(s, s', t) {
      WriteSame(s, s', s.worker.key, s.worker.val, t);
    } else if t :| Writes(s, s', t) {
      WriteSame(s, s', s.worker.key, s.worker.val, t);
    } else if Fetches(s, s') || ReadsStatus(s, s') {
      ReadSame(s, s');
    } else if AddsTrigger(s, s') {
      AddTriggerSame(s, s');
    } else {
      StageShape(s, s');
    }
  }

  lemma TriggerSame(s: State, s': State)
    requires TriggerStep(s, s')
    ensures s'.dropped == s.dropped && (s'.disturbed ==> s.disturbed)
  {
  }

  lemma OthersSame(s: State, s': State)
    requires Step(s, s') && !TestsTable(s, s') && !Lists(s, s')
    ensures s'.dropped == s.dropped && (s'.disturbed ==> s.disturbed)
  {
    if HandlerStep(s, s') {
      HandlerSame(s, s');
    } else if WorkerStep(s, s') {
      WorkerSame(s, s');
    } else if GrayStep(s, s') {
      GrayShape(s, s');
    } else if AssistStep(s, s') {
      AssistShape(s, s');
    } else if TriggerStep(s, s') {
      TriggerSame(s, s');
    } else {
      EnvShape(s, s');
    }
  }

  lemma StepDropped(s: State, s': State, k: Key)
    requires Step(s, s')
    ensures k in s'.dropped <==> Drops(s, s', k) || (k in s.dropped && !ListsFor(s, s', k))
  {
    if !TestsTable(s, s') && !Lists(s, s') {
      OthersSame(s, s');
    }
  }

  ghost predicate LostAt(run: seq<State>, j: nat, i: nat, k: Key)
    requires i < |run|
  {
    && j < i && Drops(run[j], run[j + 1], k)
    && forall m :: j < m < i ==> !ListsFor(run[m], run[m + 1], k)
  }

  /** Before state i, a test of service k for a changed child was dropped and no read of k has begun since. */
  ghost predicate LostTest(run: seq<State>, i: nat, k: Key)
    requires i < |run|
  {
    exists j :: LostAt(run, j, i, k)
  }

  lemma LostLater(run: seq<State>, j: nat, i: nat, k: Key)
    requires i + 1 < |run| && j < i
    ensures LostAt(run, j, i + 1, k) <==> LostAt(run, j, i, k) && !ListsFor(run[i], run[i + 1], k)
  {
  }

  lemma LostNow(run: seq<State>, i: nat, k: Key)
    requires i + 1 < |run|
    ensures LostAt(run, i, i + 1, k) <==> Drops(run[i], run[i + 1], k)
  {
  }

  lemma LostNext(run: seq<State>, i: nat, k: Key)
    requires i + 1 < |run|
    ensures LostTest(run, i + 1, k)
            <==> Drops(run[i], run[i + 1], k) || (LostTest(run, i, k) && !ListsFor(run[i], run[i + 1], k))
  {
    LostNow(run, i, k);
    if LostTest(run, i + 1, k) {
      var j: nat :| LostAt(run, j, i + 1, k);
      if j < i {
        LostLater(run, j, i, k);
      }
    }
    if LostTest(run, i, k) && !ListsFor(run[i], run[i + 1], k) {
      var j: nat :| LostAt(run, j, i, k);
      LostLater(run, j, i, k);
    }
  }

  lemma {:induction false} DroppedSince(run: seq<State>, i: nat, k: Key)
    requires GoodRun(run) && i < |run|
    ensures k in run[i].dropped <==> LostTest(run, i, k)
  {
    if i > 0 {
      DroppedSince(run, i - 1, k);
      assert GoodStep(run, i - 1);
      StepDropped(run[i - 1], run[i], k);
      LostNext(run, i - 1, k);
    }
  }

  /**
   In every reachable state a service in the table that is not gray is in step with
   ZooKeeper, or a fresh read of it is to come, or a child has no valid status and is
   watched, or a test for a changed child was dropped since its last read began.
   */
  lemma ServiceInStep(run: seq<State>, i: nat, k: Key)
    requires GoodRun(run) && i < |run| && k.kind == Service && Readable(k)
    requires k in run[i].table && k !in run[i].gray && !LostTest(run, i, k)
    ensures Agrees(run[i], k) || k in run[i].work.order || Holds(run[i].worker, k) || k in run[i].grayThread.todo
            || EventOutstanding(run[i], k) || k in run[i].unswept || Stuck(run[i], k)
  {
    DroppedSince(run, i, k);
    NoLostUpdate(run, i, k);
  }

  /**
   At rest, a service that lost no test since its last read is in step if and only if all
   its children have valid statuses.
   */
  lemma QuiescentService(run: seq<State>, i: nat, k: Key)
    requires GoodRun(run) && i < |run| && Quiescent(run[i]) && k.kind == Service && Readable(k)
    requires k in run[i].table && k !in run[i].gray && !LostTest(run, i, k)
    ensures At(k) in run[i].zk && (Agrees(run[i], k) <==> AllValid(run[i].zk, At(k), run[i].zk[At(k)].children))
  {
    RunInv(run, i);
    assert KeyInv(run[i], k);
    ServiceInStep(run, i, k);
    if Stuck(run[i], k) {
      var names := run[i].zk[At(k)].children;
      var n :| n in names && BadChild(run[i], k, n);
      var j :| 0 <= j < |names| && names[j] == n;
      assert StatusAt(run[i].zk, ChildAt(At(k), names[j])) == None;
    }
  }

  // ---- a dropped test loses the update

  lemma Extend(run: seq<State>, s: State) returns (r: seq<State>)
    requires GoodRun(run) && Step(run[|run| - 1], s)
    ensures GoodRun(r) && run <= r && r[|r| - 1] == s
  {
    r := run + [s];
    forall i: nat
      ensures GoodStep(r, i)
    {
      assert GoodStep(run, i);
      if i + 1 < |run| {
        assert r[i] == run[i] && r[i + 1] == run[i + 1];
      }
    }
  }

  /** The worker writes, queues the trigger and is done. */
  function Written(s: State): State
    requires s.worker.Writing?
  {
    s.(table := s.table[s.worker.key := s.worker.val],
       worker := Triggering(s.worker.key, AddOrModify(s.worker.key), s.worker.val))
  }

  function Triggered(s: State): State
    requires s.worker.Triggering?
  {
    PushTrigger(s, true, s.worker.trigger, s.worker.val).(worker := Finishing(s.worker.key))
  }

  function Done(s: State): State
    requires s.worker.Finishing?
  {
    s.(pending := s.pending - {s.worker.key}, worker := Idle)
  }

  lemma WriteStep(s: State)
    requires s.worker.Writing?
    ensures Step(s, Written(s))
  {
    var t := s.table[s.worker.key := s.worker.val];
    assert Stored(s, Written(s), s.worker.key, s.worker.val, t, true);
    assert Writes(s, Written(s), t);
    assert WorkerStep(s, Written(s));
  }

  lemma TriggerStepOf(s: State)
    requires s.worker.Triggering?
    ensures Step(s, Triggered(s))
  {
    assert AddsTrigger(s, Triggered(s));
    assert WorkerStep(s, Triggered(s));
  }

  lemma DoneStep(s: State)
    requires s.worker.Finishing?
    ensures Step(s, Done(s))
  {
    assert DelsPending(s, Done(s));
    assert WorkerStep(s, Done(s));
  }

  function Finished(s: State): State
    requires s.worker.Writing?
  {
    Done(Triggered(Written(s)))
  }

  lemma FinishedState(s: State)
    requires s.worker.Writing? && s.worker.key !in s.unswept
    ensures var k, s' := s.worker.key, Finished(s);
            && s'.worker.Idle? && s'.zk == s.zk && k in s'.table && s'.table[k] == s.worker.val && k !in s'.unswept
            && s'.handler == s.handler && s'.events == s.events && s'.work == s.work && s'.grayThread == s.grayThread
            && s'.unswept == s.unswept && s'.dropped == s.dropped
            && (Outstanding(s', k) ==> Outstanding(s, k))
  {
  }

  lemma FinishedRun(run: seq<State>) returns (r: seq<State>)
    requires GoodRun(run) && run[|run| - 1].worker.Writing?
    ensures GoodRun(r) && run <= r && r[|r| - 1] == Finished(run[|run| - 1])
  {
    var s := run[|run| - 1];
    WriteStep(s);
    r := Extend(run, Written(s));
    TriggerStepOf(Written(s));
    r := Extend(r, Triggered(Written(s)));
    DoneStep(Triggered(Written(s)));
    r := Extend(r, Finished(s));
  }

  /** Nothing is to come for the key, and the table holds another value than ZooKeeper. */
  ghost predicate Stranded(s: State, k: Key) {
    && !Holds(s.worker, k) && !Outstanding(s, k) && k !in s.unswept
    && k in s.table && Held(s.zk, k).Some? && Held(s.zk, k) != Some(s.table[k])
  }

  /** The worker is about to write for the key what ZooKeeper no longer holds, and nothing else is to come. */
  ghost predicate WritesStale(s: State, k: Key) {
    && s.worker.Writing? && s.worker.key == k && !Outstanding(s, k)
    && Held(s.zk, k).Some? && Held(s.zk, k) != Some(s.worker.val)
  }

  lemma HeldNotUnswept(run: seq<State>, i: nat, k: Key)
    requires GoodRun(run) && i < |run| && Holds(run[i].worker, k)
    ensures k !in run[i].unswept
  {
    RunInv(run, i);
  }

  lemma FinishedStranded(s: State, k: Key)
    requires WritesStale(s, k) && k !in s.unswept
    ensures Stranded(Finished(s), k) && Finished(s).dropped == s.dropped
  {
    FinishedState(s);
  }

  lemma StrandedRun(run: seq<State>, k: Key) returns (r: seq<State>)
    requires GoodRun(run) && WritesStale(run[|run| - 1], k)
    ensures GoodRun(r) && run <= r && Stranded(r[|r| - 1], k) && r[|r| - 1].dropped == run[|run| - 1].dropped
  {
    HeldNotUnswept(run, |run| - 1, k);
    FinishedStranded(run[|run| - 1], k);
    r := FinishedRun(run);
  }

  /**
   Whatever the run so far: if the dropped test was the last thing outstanding for a service
   whose value the worker is about to write, and the value is not what ZooKeeper holds, the
   update is lost as soon as the worker goes on.
   */
  lemma DropLoses(run: seq<State>, i: nat, k: Key) returns (r: seq<State>)
    requires GoodRun(run) && |run| == i + 2 && Drops(run[i], run[i + 1], k) && WritesStale(run[i + 1], k)
    ensures GoodRun(r) && run <= r && Stranded(r[|r| - 1], k) && LostTest(r, |r| - 1, k)
  {
    assert GoodStep(run, i);
    StepDropped(run[i], run[i + 1], k);
    r := StrandedRun(run, k);
    DroppedSince(r, |r| - 1, k);
  }

  // ---- the lost update, for every service and every child

  /** A service in any tree, all its children with valid statuses, and new data for one of them. */
  datatype Case = Case(k: Key, zk: Tree, name: Bytes, after: Bytes)

  function Server(c: Case): Loc {
    ChildAt(At(c.k), c.name)
  }

  /** The new data makes a server that is up not up, or the other way round. */
  ghost predicate CaseOk(c: Case) {
    && c.k.kind == Service && Readable(c.k) && TreeWf(c.zk) && At(c.k) in c.zk
    && (forall i, j :: 0 <= i < j < |Children(c)| ==> Children(c)[i] != Children(c)[j])
    && AllValid(c.zk, At(c.k), Children(c)) && c.name in Children(c)
    && Server(c) in c.zk && StatusAt(c.zk, Server(c)).Some? && StatusOf(c.after).Some?
    && (StatusAt(c.zk, Server(c)).value == STATUS_UP <==> StatusOf(c.after).value != STATUS_UP)
  }

  function Children(c: Case): seq<Bytes>
    requires At(c.k) in c.zk
  {
    c.zk[At(c.k)].children
  }

  ghost function Statuses(c: Case): (status: seq<int>)
    requires CaseOk(c)
    ensures |status| == |Children(c)|
  {
    StatusesAt(c.zk, At(c.k), Children(c))
  }

  function ServerKey(c: Case): Key {
    KeyAt(Node, Server(c))
  }

  function NewTree(c: Case): Tree
    requires Server(c) in c.zk
  {
    c.zk[Server(c) := c.zk[Server(c)].(data := c.after)]
  }

  function S0(c: Case): State {
    State(c.zk, {}, {}, [], Testing([]), Queue([], {}), {}, Idle, map[], Queueing([]), Walking,
          map[], {}, {}, false, Queue([], {}), map[], None, map[], {})
  }

  /** The client asks for the service. */
  function S1(c: Case): State {
    S0(c).(work := Queue([c.k], {c.k}))
  }

  function S2(c: Case): State {
    S0(c).(worker := Dequeued(c.k))
  }

  function S3(c: Case): State {
    S0(c).(pending := {c.k}, worker := Checking(c.k))
  }

  function S4(c: Case): State {
    S0(c).(pending := {c.k}, worker := Fetching(c.k))
  }

  ghost function FirstWatched(c: Case, i: nat): set<Loc>
    requires At(c.k) in c.zk && i <= |Children(c)|
  {
    set x | 0 <= x < i :: ChildAt(At(c.k), Children(c)[x])
  }

  /** The list is read, and the first i statuses, each with its watch. */
  ghost function Read(c: Case, i: nat): State
    requires CaseOk(c) && i <= |Children(c)|
  {
    var w := NextRead(c.k, Children(c), Statuses(c)[..i]);
    S0(c).(pending := {c.k}, childW := {At(c.k)}, dataW := FirstWatched(c, i), worker := w, seen := SeenWith({}, w))
  }

  /** All read: the value is about to be written. */
  ghost function AllRead(c: Case): State
    requires CaseOk(c)
  {
    Read(c, |Children(c)|)
  }

  /** The status of the server changes. */
  ghost function S7(c: Case): State
    requires CaseOk(c)
  {
    AllRead(c).(zk := NewTree(c), dataW := AllRead(c).dataW - {Server(c)}, events := [Changed(Server(c))])
  }

  /** The callback at its tests. */
  ghost function Tested(c: Case, h: Handler, dropped: set<Key>): State
    requires CaseOk(c)
  {
    AllRead(c).(zk := NewTree(c), dataW := AllRead(c).dataW - {Server(c)}, handler := h, dropped := dropped)
  }

  lemma ServerName(c: Case) returns (j: nat)
    requires CaseOk(c)
    ensures j < |Children(c)| && Children(c)[j] == c.name && SLASH !in c.name
    ensures Statuses(c)[j] == StatusAt(c.zk, Server(c)).value
  {
    assert ChildExists(c.zk, At(c.k), c.name);
    j :| 0 <= j < |Children(c)| && Children(c)[j] == c.name;
  }

  lemma ServerTests(c: Case)
    requires CaseOk(c)
    ensures Tests(Changed(Server(c))) == [Own(ServerKey(c)), Test(ServerKey(c), c.k)]
  {
    var _ := ServerName(c);
    ChildParent(At(c.k), c.name);
  }

  lemma Step0(c: Case)
    ensures Step(S0(c), S1(c))
  {
    assert ClientAsks(S0(c), S1(c), c.k);
    assert EnvStep(S0(c), S1(c));
  }

  lemma Step1(c: Case)
    ensures Step(S1(c), S2(c))
  {
    assert Dequeues(S1(c), S2(c));
    assert WorkerStep(S1(c), S2(c));
  }

  lemma Step2(c: Case)
    ensures Step(S2(c), S3(c))
  {
    assert AddsPending(S2(c), S3(c));
    assert WorkerStep(S2(c), S3(c));
  }

  lemma Step3(c: Case)
    ensures Step(S3(c), S4(c))
  {
    assert ChecksGray(S3(c), S4(c));
    assert WorkerStep(S3(c), S4(c));
  }

  lemma ListStep(c: Case)
    requires CaseOk(c)
    ensures Step(S4(c), Read(c, 0))
  {
    assert Statuses(c)[..0] == [];
    assert FirstWatched(c, 0) == {};
    assert Lists(S4(c), Read(c, 0));
    assert WorkerStep(S4(c), Read(c, 0));
  }

  lemma StatusStep(c: Case, i: nat)
    requires CaseOk(c) && i < |Children(c)|
    ensures Step(Read(c, i), Read(c, i + 1))
  {
    var name := ChildAt(At(c.k), Children(c)[i]);
    assert StatusAt(c.zk, name) == Some(Statuses(c)[i]);
    assert Statuses(c)[..i] + [Statuses(c)[i]] == Statuses(c)[..i + 1];
    assert FirstWatched(c, i + 1) == FirstWatched(c, i) + {name};
    assert ReadsStatus(Read(c, i), Read(c, i + 1));
    assert WorkerStep(Read(c, i), Read(c, i + 1));
  }

  lemma ChangeStep(c: Case)
    requires CaseOk(c)
    ensures Step(AllRead(c), S7(c))
  {
    var j := ServerName(c);
    assert Server(c) in AllRead(c).dataW;
    assert ZkSets(AllRead(c), S7(c), Server(c), c.after);
    assert EnvStep(AllRead(c), S7(c));
  }

  lemma DeliverStep(c: Case)
    requires CaseOk(c)
    ensures Step(S7(c), Tested(c, Testing([Own(ServerKey(c)), Test(ServerKey(c), c.k)]), {}))
  {
    ServerTests(c);
    var s := Tested(c, Testing([Own(ServerKey(c)), Test(ServerKey(c), c.k)]), {});
    assert Delivers(S7(c), s);
    assert HandlerStep(S7(c), s);
  }

  /** The pending test of the server's own key fails: the worker holds the service. */
  lemma PendingFails(c: Case, todo: seq<Test>)
    requires CaseOk(c) && todo != [] && todo[0].pendingKey == ServerKey(c)
    ensures Step(Tested(c, Testing(todo), {}), Tested(c, Pended(todo), {}))
  {
    assert TestsPending(Tested(c, Testing(todo), {}), Tested(c, Pended(todo), {}));
    assert HandlerStep(Tested(c, Testing(todo), {}), Tested(c, Pended(todo), {}));
  }

  /** The table is empty, so the table test fails; for the service that drops the event. */
  lemma TableFails(c: Case, todo: seq<Test>)
    requires CaseOk(c) && todo != [] && (todo[0] == Own(ServerKey(c)) || todo[0] == Test(ServerKey(c), c.k))
    ensures Step(Tested(c, Pended(todo), {}),
                 Tested(c, Testing(todo[1..]), if todo[0].tableKey == c.k then {c.k} else {}))
  {
    var s := Tested(c, Pended(todo), {});
    var s' := Tested(c, Testing(todo[1..]), if todo[0].tableKey == c.k then {c.k} else {});
    assert TestsTable(s, s');
    assert HandlerStep(s, s');
  }

  lemma Asked(c: Case) returns (run: seq<State>)
    requires CaseOk(c)
    ensures GoodRun(run) && run[|run| - 1] == S4(c)
  {
    Step0(c);
    Step1(c);
    Step2(c);
    Step3(c);
    run := [S0(c)];
    run := Extend(run, S1(c));
    run := Extend(run, S2(c));
    run := Extend(run, S3(c));
    run := Extend(run, S4(c));
  }

  lemma {:induction false} ReadUpTo(c: Case, i: nat) returns (run: seq<State>)
    requires CaseOk(c) && i <= |Children(c)|
    ensures GoodRun(run) && run[|run| - 1] == Read(c, i)
  {
    if i == 0 {
      run := Listed(c);
    } else {
      run := ReadUpTo(c, i - 1);
      run := ReadOneMore(c, run, i - 1);
    }
  }

  lemma Listed(c: Case) returns (run: seq<State>)
    requires CaseOk(c)
    ensures GoodRun(run) && run[|run| - 1] == Read(c, 0)
  {
    ListStep(c);
    run := Asked(c);
    run := Extend(run, Read(c, 0));
  }

  lemma ReadOneMore(c: Case, run: seq<State>, i: nat) returns (r: seq<State>)
    requires CaseOk(c) && i < |Children(c)| && GoodRun(run) && run[|run| - 1] == Read(c, i)
    ensures GoodRun(r) && r[|r| - 1] == Read(c, i + 1)
  {
    StatusStep(c, i);
    r := Extend(run, Read(c, i + 1));
  }

  lemma ReadThenChanged(c: Case) returns (run: seq<State>)
    requires CaseOk(c)
    ensures GoodRun(run) && run[|run| - 1] == S7(c)
  {
    ChangeStep(c);
    run := ReadUpTo(c, |Children(c)|);
    run := Extend(run, S7(c));
  }

  /** Both tests of one entry of the callback's list fail. */
  lemma TestFails(c: Case, run: seq<State>, todo: seq<Test>) returns (r: seq<State>)
    requires CaseOk(c) && GoodRun(run) && todo != [] && run[|run| - 1] == Tested(c, Testing(todo), {})
    requires todo[0] == Own(ServerKey(c)) || todo[0] == Test(ServerKey(c), c.k)
    ensures GoodRun(r) && r[|r| - 1] == Tested(c, Testing(todo[1..]), if todo[0].tableKey == c.k then {c.k} else {})
  {
    PendingFails(c, todo);
    r := Extend(run, Tested(c, Pended(todo), {}));
    TableFails(c, todo);
    r := Extend(r, Tested(c, Testing(todo[1..]), if todo[0].tableKey == c.k then {c.k} else {}));
  }

  lemma Delivered(c: Case) returns (run: seq<State>)
    requires CaseOk(c)
    ensures GoodRun(run)
    ensures run[|run| - 1] == Tested(c, Testing([Own(ServerKey(c)), Test(ServerKey(c), c.k)]), {})
  {
    DeliverStep(c);
    run := ReadThenChanged(c);
    run := Extend(run, Tested(c, Testing([Own(ServerKey(c)), Test(ServerKey(c), c.k)]), {}));
  }

  lemma EventDropped(c: Case) returns (run: seq<State>)
    requires CaseOk(c)
    ensures GoodRun(run) && run[|run| - 1] == Tested(c, Testing([]), {c.k})
  {
    var own, child := Own(ServerKey(c)), Test(ServerKey(c), c.k);
    run := Delivered(c);
    assert [own, child][1..] == [child] && [child][1..] == [];
    run := TestFails(c, run, [own, child]);
    run := TestFails(c, run, [child]);
  }

  /** One status that changes to or from up changes the number of servers that are up by one. */
  lemma {:induction false} UpFlips(names: seq<Bytes>, status: seq<int>, j: nat, x: int)
    requires |names| == |status| && j < |names|
    ensures |UpOnly(names, status[j := x])| + (if status[j] == STATUS_UP then 1 else 0)
            == |UpOnly(names, status)| + (if x == STATUS_UP then 1 else 0)
  {
    if j > 0 {
      UpFlips(names[1..], status[1..], j - 1, x);
      assert status[j := x][1..] == status[1..][j - 1 := x];
    } else {
      assert status[j := x][1..] == status[1..];
    }
  }

  lemma FirstByte(key: Bytes, names: seq<Bytes>)
    ensures VectorValue(key, names)[0] as int == |names| % 256
  {
    assert EncodeNum(|names|, COUNT_LEN)[0] as int == |names| % 256;
  }

  lemma ValuesDiffer(k: Key, names: seq<Bytes>, status: seq<int>, j: nat, x: int)
    requires |names| == |status| && j < |names| && (status[j] == STATUS_UP <==> x != STATUS_UP)
    ensures ServiceValue(k, names, status[j := x]) != ServiceValue(k, names, status)
  {
    UpFlips(names, status, j, x);
    FirstByte(KeyBytes(k), UpOnly(names, status));
    FirstByte(KeyBytes(k), UpOnly(names, status[j := x]));
  }

  lemma StatusAfter(c: Case, j: nat, i: nat)
    requires CaseOk(c) && j < |Children(c)| && Children(c)[j] == c.name && i < |Children(c)|
    ensures StatusAt(NewTree(c), ChildAt(At(c.k), Children(c)[i]))
            == Some(if i == j then StatusOf(c.after).value else Statuses(c)[i])
  {
    var l := ChildAt(At(c.k), Children(c)[i]);
    if i != j {
      assert l.path[|c.k.path| + 1..] == Children(c)[i] && Server(c).path[|c.k.path| + 1..] == c.name;
      assert Children(c)[i] != Children(c)[j];
    }
    assert StatusAt(c.zk, l) == Some(Statuses(c)[i]);
  }

  lemma HeldAfter(c: Case, j: nat)
    requires CaseOk(c) && j < |Children(c)| && Children(c)[j] == c.name
    ensures Held(NewTree(c), c.k) == Some(ServiceValue(c.k, Children(c), Statuses(c)[j := StatusOf(c.after).value]))
  {
    var zk, names := NewTree(c), Children(c);
    assert |Server(c).path| > |c.k.path|;
    assert zk[At(c.k)] == c.zk[At(c.k)];
    forall i | 0 <= i < |names|
      ensures StatusAt(zk, ChildAt(At(c.k), names[i])) == Some(Statuses(c)[j := StatusOf(c.after).value][i])
    {
      StatusAfter(c, j, i);
    }
    assert StatusesAt(zk, At(c.k), names) == Statuses(c)[j := StatusOf(c.after).value];
  }

  /** Nothing is to come, all children have valid statuses, and the table still holds another value. */
  ghost predicate StaleAtRest(s: State, k: Key) {
    Quiescent(s) && k in s.table && Held(s.zk, k).Some? && Held(s.zk, k) != Some(s.table[k])
  }

  lemma LostState(c: Case)
    requires CaseOk(c)
    ensures Tested(c, Testing([]), {c.k}).worker.Writing?
    ensures StaleAtRest(Finished(Tested(c, Testing([]), {c.k})), c.k)
    ensures c.k in Finished(Tested(c, Testing([]), {c.k})).dropped
  {
    var j := ServerName(c);
    assert Statuses(c)[..|Children(c)|] == Statuses(c);
    assert AllRead(c).worker == Writing(c.k, ServiceValue(c.k, Children(c), Statuses(c)));
    FinishedState(Tested(c, Testing([]), {c.k}));
    HeldAfter(c, j);
    ValuesDiffer(c.k, Children(c), Statuses(c), j, StatusOf(c.after).value);
  }

  /**
   For every tree, every service in it whose children have valid statuses, every child and
   every change of its data between up and not up, there is a run without any failure that
   comes to rest with the old value in the table; in it the test for the child was dropped.
   */
  lemma ServiceUpdateLost(c: Case) returns (run: seq<State>)
    requires CaseOk(c)
    ensures GoodRun(run) && StaleAtRest(run[|run| - 1], c.k) && LostTest(run, |run| - 1, c.k)
  {
    run := LostRun(c);
    DroppedSince(run, |run| - 1, c.k);
  }

  lemma LostRun(c: Case) returns (run: seq<State>)
    requires CaseOk(c)
    ensures GoodRun(run) && StaleAtRest(run[|run| - 1], c.k) && c.k in run[|run| - 1].dropped
  {
    LostState(c);
    run := EventDropped(c);
    run := FinishedRun(run);
  }

  /** And only so: a service that is stale at rest with valid statuses has lost a test since its last read began. */
  lemma StaleOnlyByDrop(run: seq<State>, i: nat, k: Key)
    requires GoodRun(run) && i < |run| && k.kind == Service && Readable(k) && k !in run[i].gray
    requires StaleAtRest(run[i], k)
    ensures LostTest(run, i, k)
  {
    if !LostTest(run, i, k) {
      QuiescentService(run, i, k);
    }
  }
}
