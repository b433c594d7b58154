/** Gray values, triggers and the dump over whole runs, with failures of ZooKeeper included. */
module WatcherHistory {
  import opened Basics
  import opened WatcherModel
  import opened WatcherSync
  import opened WatcherProvenance

  // ---- which steps matter

  /** Queued triggers stay, with their values, and the trigger thread rests. */
  ghost predicate TriggersGrow(s: State, s': State) {
    && s'.dumping == s.dumping
    && forall t :: t in s.triggerVals ==> t in s'.triggerVals && s'.triggerVals[t] == s.triggerVals[t]
  }

  /** The gray set stays and triggers are at most added. */
  ghost predicate Calm(s: State, s': State) {
    s'.gray == s.gray && TriggersGrow(s, s')
  }

  lemma HandlerCalm(s: State, s': State)
    requires HandlerStep(s, s')
    ensures Calm(s, s')
  {
    HandlerMoves(s, s');
    assert HoldersOf(s').gray == HoldersOf(s).gray && HoldersOf(s').triggerVals == HoldersOf(s).triggerVals;
    assert HoldersOf(s').dumping == HoldersOf(s).dumping;
  }

  lemma AssistCalm(s: State, s': State)
    requires AssistStep(s, s')
    ensures Calm(s, s')
  {
    AssistShape(s, s');
  }

  lemma EnvCalm(s: State, s': State)
    requires EnvStep(s, s')
    ensures Calm(s, s')
  {
    EnvShape(s, s');
  }

  lemma WriteCalm(s: State, s': State, k: Key, v: Bytes, table': map<Key, Bytes>, trigger: bool)
    requires WritesThen(s, s', k, v, table', trigger)
    ensures Calm(s, s') && (s'.worker.Triggering? || s'.worker.Finishing?)
  {
  }

  lemma ReadCalm(s: State, s': State)
    requires ReadMoves(s, s')
    ensures Calm(s, s') && !s'.worker.Restoring?
  {
  }

  lemma StageCalm(s: State, s': State)
    requires StageMoves(s, s')
    ensures Calm(s, s') && !s'.worker.Restoring?
  {
  }

  lemma QueueCalm(s: State, s': State)
    requires AddsTrigger(s, s')
    ensures Calm(s, s') && !s'.worker.Restoring?
  {
  }

  /** The worker leaves the gray set alone, at most adds triggers, and takes nothing from the dump. */
  lemma WorkerCalm(s: State, s': State)
    requires WorkerStep(s, s')
    ensures Calm(s, s') && !s'.worker.Restoring?
  {
    if t :| WritesGray(s, s', t) {
      WriteCalm(s, s', s.worker.key, s.worker.val, t, true);
    } else if t :| Writes(s, s', t) {
      WriteCalm(s, s', s.worker.key, s.worker.val, t, true);
    } else if Fetches(s, s') {
      WatcherProvenance.FetchShape(s, s');
      ReadCalm(s, s');
    } else if Lists(s, s') {
      WatcherProvenance.ListShape(s, s');
      ReadCalm(s, s');
    } else if ReadsStatus(s, s') {
      WatcherProvenance.StatusShape(s, s');
      ReadCalm(s, s');
    } else if AddsTrigger(s, s') {
      QueueCalm(s, s');
    } else {
      StageShape(s, s');
      StageCalm(s, s');
    }
  }

  lemma FetchFailCalm(s: State, s': State, noHandle: bool)
    requires FetchFails(s, s', noHandle)
    ensures Calm(s, s') && !s.worker.Triggering? && !s'.worker.Restoring?
  {
  }

  lemma ReadDumpCalm(s: State, s': State)
    requires ReadsDump(s, s')
    ensures Calm(s, s') && !s.worker.Triggering?
  {
  }

  lemma AssistFailCalm(s: State, s': State)
    requires AssistFails(s, s')
    ensures Calm(s, s') && s'.worker == s.worker
  {
  }

  lemma SessionCalm(s: State, s': State, dataW': set<Loc>, childW': set<Loc>)
    requires SessionLost(s, s', dataW', childW')
    ensures Calm(s, s') && s'.worker == s.worker
  {
  }

  /** Failures leave the gray set and the triggers alone, and take values from the dump only. */
  lemma FailureCalm(s: State, s': State)
    requires FailureStep(s, s')
    ensures Calm(s, s')
    ensures s.worker.Triggering? ==> s'.worker == s.worker
    ensures s'.worker.Restoring? ==> s'.worker == s.worker || ReadsDump(s, s')
  {
    if h :| FetchFails(s, s', h) {
      FetchFailCalm(s, s', h);
    } else if ReadsDump(s, s') {
      ReadDumpCalm(s, s');
    } else if t :| Restores(s, s', t) {
      WriteCalm(s, s', s.worker.key, s.worker.val, t, false);
    } else if AssistFails(s, s') {
      AssistFailCalm(s, s');
    } else {
      var d, c :| SessionLost(s, s', d, c);
      SessionCalm(s, s', d, c);
    }
  }

  lemma GrayFailCalm(s: State, s': State, todo: seq<Key>)
    requires GrayFails(s, s', todo)
    ensures Calm(s, s')
  {
  }

  lemma GrayListCalm(s: State, s': State, todo: seq<Key>)
    requires GrayLists(s, s', todo)
    ensures Calm(s, s')
  {
  }

  lemma GrayAddCalm(s: State, s': State)
    requires GrayAdds(s, s')
    ensures Calm(s, s')
  {
  }

  lemma GrayCalm(s: State, s': State)
    requires GrayStep(s, s')
    ensures Calm(s, s') || (exists n :: GraySets(s, s', n)) || GrayClears(s, s')
  {
    if n :| GraySets(s, s', n) {
    } else if t :| GrayFails(s, s', t) {
      GrayFailCalm(s, s', t);
    } else if t :| GrayLists(s, s', t) {
      GrayListCalm(s, s', t);
    } else if GrayClears(s, s') {
    } else {
      GrayAddCalm(s, s');
    }
  }

  /** Only releases change the gray set, and only the trigger thread takes triggers. */
  lemma StepCalm(s: State, s': State)
    requires Step(s, s') || FailureStep(s, s')
    ensures Calm(s, s') || (exists n :: GraySets(s, s', n)) || GrayClears(s, s') || TriggerStep(s, s')
  {
    if HandlerStep(s, s') {
      HandlerCalm(s, s');
    } else if WorkerStep(s, s') {
      WorkerCalm(s, s');
    } else if GrayStep(s, s') {
      GrayCalm(s, s');
    } else if AssistStep(s, s') {
      AssistCalm(s, s');
    } else if TriggerStep(s, s') {
    } else if EnvStep(s, s') {
      EnvCalm(s, s');
    } else {
      FailureCalm(s, s');
    }
  }

  lemma TriggerStepGray(s: State, s': State)
    requires TriggerStep(s, s')
    ensures s'.gray == s.gray
  {
  }

  lemma ReleaseTriggers(s: State, s': State)
    requires (exists n :: GraySets(s, s', n)) || GrayClears(s, s')
    ensures TriggersGrow(s, s')
  {
  }

  // ---- the gray set

  /** Only the gray thread changes the gray set, by a release or by the end of one. */
  lemma GrayChanges(run: seq<State>, i: nat)
    requires AnyRun(run) && i + 1 < |run|
    ensures run[i + 1].gray == run[i].gray || (exists n :: Releases(run, i, n)) || ReleaseEnds(run, i)
  {
    assert AnyStep(run, i);
    var s, s' := run[i], run[i + 1];
    StepCalm(s, s');
    if n :| GraySets(s, s', n) {
      assert Releases(run, i, n);
    } else if TriggerStep(s, s') {
      TriggerStepGray(s, s');
    }
  }

  ghost predicate Releases(run: seq<State>, j: nat, nodes: seq<(Key, Bytes)>)
    requires j + 1 < |run|
  {
    GraySets(run[j], run[j + 1], nodes)
  }

  ghost predicate ReleaseEnds(run: seq<State>, m: nat)
    requires m + 1 < |run|
  {
    GrayClears(run[m], run[m + 1])
  }

  /** Step j starts a release that lists k, at position p first. */
  ghost predicate ReleaseLists(run: seq<State>, j: nat, nodes: seq<(Key, Bytes)>, k: Key, p: nat)
    requires j + 1 < |run|
  {
    Releases(run, j, nodes) && FirstFor(nodes, k, p)
  }

  /** A listed key is gray from then on, with the first value listed unless it was gray before. */
  lemma GrayBegins(run: seq<State>, j: nat, nodes: seq<(Key, Bytes)>, k: Key, p: nat)
    requires j + 1 < |run| && ReleaseLists(run, j, nodes, k, p)
    ensures k in run[j + 1].gray
    ensures run[j + 1].gray[k] == if k in run[j].gray then run[j].gray[k] else nodes[p].1
  {
    GrayInsertedAt(run[j].gray, nodes, k);
    if k !in run[j].gray {
      GrayInsertedFirst(run[j].gray, nodes, k, p);
    }
  }

  lemma GrayKept(run: seq<State>, i: nat, k: Key)
    requires AnyRun(run) && i + 1 < |run| && !ReleaseEnds(run, i) && k in run[i].gray
    ensures k in run[i + 1].gray && run[i + 1].gray[k] == run[i].gray[k]
  {
    GrayChanges(run, i);
    if n :| Releases(run, i, n) {
      GrayInsertedAt(run[i].gray, n, k);
    }
  }

  /** A gray key stays gray, with its value, until the release ends. */
  lemma {:induction false} GrayStays(run: seq<State>, j: nat, i: nat, k: Key)
    requires AnyRun(run) && j <= i < |run| && k in run[j].gray
    requires forall m :: j <= m < i ==> !ReleaseEnds(run, m)
    ensures k in run[i].gray && run[i].gray[k] == run[j].gray[k]
    decreases i
  {
    if j < i {
      GrayStays(run, j, i - 1, k);
      assert !ReleaseEnds(run, i - 1);
      GrayKept(run, i - 1, k);
    }
  }

  /** Step j listed k in a release that has not ended before state i. */
  ghost predicate InRelease(run: seq<State>, i: nat, k: Key, j: nat, nodes: seq<(Key, Bytes)>, p: nat)
    requires i < |run|
  {
    j < i && ReleaseLists(run, j, nodes, k, p) && forall m :: j <= m < i ==> !ReleaseEnds(run, m)
  }

  lemma InReleaseLonger(run: seq<State>, i: nat, k: Key, j: nat, nodes: seq<(Key, Bytes)>, p: nat)
    requires i + 1 < |run| && InRelease(run, i, k, j, nodes, p) && !ReleaseEnds(run, i)
    ensures InRelease(run, i + 1, k, j, nodes, p)
  {
  }

  lemma GrayNotEnded(run: seq<State>, i: nat, k: Key)
    requires i + 1 < |run| && k in run[i + 1].gray
    ensures !ReleaseEnds(run, i)
  {
  }

  /** A key that becomes gray does so by a release that lists it. */
  lemma GrayStart(run: seq<State>, i: nat, k: Key) returns (nodes: seq<(Key, Bytes)>, p: nat)
    requires AnyRun(run) && i + 1 < |run| && k in run[i + 1].gray && k !in run[i].gray
    ensures InRelease(run, i + 1, k, i, nodes, p) && run[i + 1].gray[k] == nodes[p].1
  {
    GrayNotEnded(run, i, k);
    GrayChanges(run, i);
    nodes :| Releases(run, i, nodes);
    GrayInsertedAt(run[i].gray, nodes, k);
    p := FirstListed(nodes, k);
    GrayInsertedFirst(run[i].gray, nodes, k, p);
  }

  /** The first step of the release lists k. */
  lemma {:induction false} GrayFrom(run: seq<State>, i: nat, k: Key) returns (j: nat, nodes: seq<(Key, Bytes)>, p: nat)
    requires AnyRun(run) && i < |run| && k in run[i].gray
    ensures InRelease(run, i, k, j, nodes, p) && k !in run[j].gray && run[i].gray[k] == nodes[p].1
  {
    var h := i - 1;
    GrayNotEnded(run, h, k);
    if k in run[h].gray {
      j, nodes, p := GrayFrom(run, h, k);
      GrayKept(run, h, k);
      InReleaseLonger(run, h, k, j, nodes, p);
    } else {
      j := h;
      nodes, p := GrayStart(run, h, k);
    }
  }

  /**
   A key is gray exactly while a release that lists it has not ended, and its value is the
   first one that the first such release lists for it.
   */
  lemma GrayExact(run: seq<State>, i: nat, k: Key)
    requires AnyRun(run) && i < |run|
    ensures k in run[i].gray <==> exists j: nat, nodes: seq<(Key, Bytes)>, p: nat :: InRelease(run, i, k, j, nodes, p)
    ensures k in run[i].gray ==> exists j: nat, nodes: seq<(Key, Bytes)>, p: nat ::
              InRelease(run, i, k, j, nodes, p) && k !in run[j].gray && run[i].gray[k] == nodes[p].1
  {
    if k in run[i].gray {
      var j, nodes, p := GrayFrom(run, i, k);
    } else if j: nat, nodes: seq<(Key, Bytes)>, p: nat :| InRelease(run, i, k, j, nodes, p) {
      GrayBegins(run, j, nodes, k, p);
      GrayStays(run, j + 1, i, k);
    }
  }

  // ---- triggers

  lemma TriggersMove(s: State, s': State)
    requires Step(s, s') || FailureStep(s, s')
    ensures TriggersGrow(s, s') || TriggerStep(s, s')
  {
    StepCalm(s, s');
    if (exists n :: GraySets(s, s', n)) || GrayClears(s, s') {
      ReleaseTriggers(s, s');
    }
  }

  /** The trigger waits with value v, queued or with the trigger thread. */
  ghost predicate Waits(s: State, t: Trigger, v: Bytes) {
    (t in s.triggerVals && s.triggerVals[t] == v) || s.dumping == Some((t, v))
  }

  ghost predicate DumpStep(s: State, s': State) {
    exists again :: Dumps(s, s', again)
  }

  /** Step m carries out the trigger with value v. */
  ghost predicate CarriedOut(run: seq<State>, m: nat, t: Trigger, v: Bytes)
    requires m + 1 < |run|
  {
    run[m].dumping == Some((t, v)) && DumpStep(run[m], run[m + 1])
  }

  /**
   What carrying out a trigger does to the dump: a value written under its key, its key
   deleted, or nothing, and nothing else in any case.
   */
  lemma CarriedOutEffect(s: State, s': State, x: Key)
    requires DumpStep(s, s')
    ensures var (t, v) := s.dumping.value;
            && (t == AddOrModify(x) ==> x in s'.dump && s'.dump[x] == v)
            && (t == Removed(x) ==> x !in s'.dump)
            && (t.Reset? || t.key != x ==>
                  (x in s'.dump <==> x in s.dump) && (x in s.dump ==> s'.dump[x] == s.dump[x]))
  {
    var again :| Dumps(s, s', again);
  }

  /** A feedback that timed out, other than for a removal, leaves a reset waiting. */
  lemma TimedOutWaits(s: State, s': State)
    requires Dumps(s, s', true) && !s.dumping.value.0.Removed?
    ensures var t := Reset(s.dumping.value.0.key);
            Waits(s', t, if t in s.triggerVals then s.triggerVals[t] else s.dumping.value.1)
  {
  }

  lemma PopWaits(s: State, s': State, t: Trigger, v: Bytes)
    requires PopsTrigger(s, s') && Waits(s, t, v)
    ensures Waits(s', t, v)
  {
  }

  lemma DumpWaits(s: State, s': State, t: Trigger, v: Bytes)
    requires DumpStep(s, s') && Waits(s, t, v)
    ensures Waits(s', t, v) || s.dumping == Some((t, v))
  {
    var again :| Dumps(s, s', again);
  }

  lemma WaitStep(run: seq<State>, i: nat, t: Trigger, v: Bytes)
    requires AnyRun(run) && i + 1 < |run| && Waits(run[i], t, v)
    ensures Waits(run[i + 1], t, v) || CarriedOut(run, i, t, v)
  {
    assert AnyStep(run, i);
    var s, s' := run[i], run[i + 1];
    TriggersMove(s, s');
    if TriggersGrow(s, s') {
    } else if PopsTrigger(s, s') {
      PopWaits(s, s', t, v);
    } else {
      assert DumpStep(s, s');
      DumpWaits(s, s', t, v);
    }
  }

  /** A waiting trigger waits until it is carried out, with its value. */
  lemma {:induction false} TriggerWaits(run: seq<State>, j: nat, i: nat, t: Trigger, v: Bytes)
    requires AnyRun(run) && j <= i < |run| && Waits(run[j], t, v)
    ensures Waits(run[i], t, v) || exists m: nat :: j <= m < i && CarriedOut(run, m, t, v)
    decreases i
  {
    if j < i {
      TriggerWaits(run, j, i - 1, t, v);
      if Waits(run[i - 1], t, v) {
        WaitStep(run, i - 1, t, v);
      }
    }
  }

  /** A trigger that is queued anew waits with its value; one that was queued already keeps its first value. */
  lemma TriggerQueued(s: State, s': State)
    requires AddsTrigger(s, s')
    ensures var t := s.worker.trigger;
            t in s'.triggerVals
            && s'.triggerVals[t] == if t in s.triggerVals then s.triggerVals[t] else s.worker.val
  {
  }

  lemma WorkerQueues(s: State, s': State)
    requires WorkerStep(s, s') && s.worker.Triggering?
    ensures AddsTrigger(s, s')
  {
  }

  /** A worker with a trigger to queue does nothing else. */
  lemma TriggeringStep(s: State, s': State)
    requires (Step(s, s') || FailureStep(s, s')) && s.worker.Triggering?
    ensures s'.worker == s.worker || AddsTrigger(s, s')
  {
    if HandlerStep(s, s') {
      HandlerStage(s, s');
    } else if WorkerStep(s, s') {
      WorkerQueues(s, s');
    } else if GrayStep(s, s') {
      GrayStage(s, s');
    } else if AssistStep(s, s') {
      AssistStage(s, s');
    } else if TriggerStep(s, s') {
      TriggerStage(s, s');
    } else if EnvStep(s, s') {
      EnvStage(s, s');
    } else {
      FailureCalm(s, s');
    }
  }

  lemma TriggeringNext(run: seq<State>, j: nat, i: nat)
    requires AnyRun(run) && j <= i && i + 1 < |run| && run[j].worker.Triggering? && run[i].worker == run[j].worker
    ensures run[i + 1].worker == run[j].worker || QueuedAt(run, j, i)
  {
    assert AnyStep(run, i);
    TriggeringStep(run[i], run[i + 1]);
  }

  /** Step a queues the trigger of the worker, which has had it since state j. */
  ghost predicate QueuedAt(run: seq<State>, j: nat, a: nat)
    requires j < |run| && a + 1 < |run|
  {
    j <= a && run[a].worker == run[j].worker && AddsTrigger(run[a], run[a + 1])
  }

  lemma {:induction false} TriggeringUntil(run: seq<State>, j: nat, i: nat)
    requires AnyRun(run) && j <= i < |run| && run[j].worker.Triggering?
    ensures run[i].worker == run[j].worker || exists a: nat :: a < i && QueuedAt(run, j, a)
    decreases i
  {
    if j < i {
      TriggeringUntil(run, j, i - 1);
      if run[i - 1].worker == run[j].worker {
        TriggeringNext(run, j, i - 1);
      }
    }
  }

  /** The trigger waits in state i or was carried out since step a. */
  ghost predicate Served(run: seq<State>, a: nat, i: nat, t: Trigger, v: Bytes)
    requires a < i < |run|
  {
    Waits(run[i], t, v) || exists m: nat :: a < m < i && CarriedOut(run, m, t, v)
  }

  /**
   A value that the worker has stored reaches the dump: the worker has yet to queue its
   trigger, or has queued it at some step, since which the trigger waits or was carried out.
   Its value is the one stored, unless an earlier trigger of the key was still queued then,
   whose value stays.
   */
  lemma StoredReachesDump(run: seq<State>, j: nat, i: nat, k: Key, v: Bytes, table': map<Key, Bytes>)
    requires AnyRun(run) && j < i < |run| && Stored(run[j], run[j + 1], k, v, table', true)
    ensures run[i].worker == Triggering(k, AddOrModify(k), v)
            || exists a: nat :: j < a < i && ServedFrom(run, a, i, AddOrModify(k), v)
  {
    assert run[j + 1].worker == Triggering(k, AddOrModify(k), v);
    TriggerFollows(run, j + 1, i);
  }

  /** Step a queued the trigger with value v, or kept the value that was queued, and that was served since. */
  ghost predicate ServedFrom(run: seq<State>, a: nat, i: nat, t: Trigger, v: Bytes)
    requires a < i < |run|
  {
    AddsTrigger(run[a], run[a + 1])
    && Served(run, a, i, t, if t in run[a].triggerVals then run[a].triggerVals[t] else v)
  }

  lemma TriggerFollows(run: seq<State>, j: nat, i: nat)
    requires AnyRun(run) && j <= i < |run| && run[j].worker.Triggering?
    ensures run[i].worker == run[j].worker
            || exists a: nat :: j <= a < i && ServedFrom(run, a, i, run[j].worker.trigger, run[j].worker.val)
  {
    TriggeringUntil(run, j, i);
    if a: nat :| a < i && QueuedAt(run, j, a) {
      TriggerQueued(run[a], run[a + 1]);
      var t := run[j].worker.trigger;
      TriggerWaits(run, a + 1, i, t, run[a + 1].triggerVals[t]);
      assert ServedFrom(run, a, i, t, run[j].worker.val);
    }
  }

  /** A key that the worker has removed leaves the dump in the same way. */
  lemma RemovedReachesDump(run: seq<State>, j: nat, i: nat)
    requires AnyRun(run) && j < i < |run| && Removes(run[j], run[j + 1])
    ensures var k := run[j].worker.key;
            || run[i].worker == Triggering(k, Removed(k), [])
            || exists a: nat :: j < a < i && ServedFrom(run, a, i, Removed(k), [])
  {
    TriggerFollows(run, j + 1, i);
  }

  // ---- values from the dump

  lemma RestoringFrom(s: State, s': State)
    requires (Step(s, s') || FailureStep(s, s')) && s'.worker.Restoring?
    ensures s'.worker == s.worker || ReadsDump(s, s')
  {
    if HandlerStep(s, s') {
      HandlerStage(s, s');
    } else if WorkerStep(s, s') {
      WorkerCalm(s, s');
    } else if GrayStep(s, s') {
      GrayStage(s, s');
    } else if AssistStep(s, s') {
      AssistStage(s, s');
    } else if TriggerStep(s, s') {
      TriggerStage(s, s');
    } else if EnvStep(s, s') {
      EnvStage(s, s');
    } else {
      FailureCalm(s, s');
    }
  }

  /** Step j read v for k from the dump. */
  ghost predicate DumpGave(run: seq<State>, j: nat, k: Key, v: Bytes)
    requires j + 1 < |run|
  {
    ReadsDump(run[j], run[j + 1]) && run[j].worker == Reading(k) && k in run[j].dump && run[j].dump[k] == v
  }

  lemma RestoringNext(run: seq<State>, i: nat)
    requires AnyRun(run) && i + 1 < |run| && run[i + 1].worker.Restoring?
    ensures run[i + 1].worker == run[i].worker || DumpGave(run, i, run[i + 1].worker.key, run[i + 1].worker.val)
  {
    assert AnyStep(run, i);
    RestoringFrom(run[i], run[i + 1]);
  }

  lemma {:induction false} RestoringHistory(run: seq<State>, i: nat) returns (j: nat)
    requires AnyRun(run) && i < |run| && run[i].worker.Restoring?
    ensures j < i && DumpGave(run, j, run[i].worker.key, run[i].worker.val)
    ensures forall m :: j < m <= i ==> run[m].worker == run[i].worker
  {
    var h := i - 1;
    RestoringNext(run, h);
    if run[i].worker == run[h].worker {
      j := RestoringHistory(run, h);
    } else {
      j := h;
    }
  }

  /**
   After a failed read the table gets, if anything, what the dump held for the key when the
   worker asked it, and no trigger is queued for it.
   */
  lemma DumpRestores(run: seq<State>, i: nat, table': map<Key, Bytes>) returns (j: nat)
    requires AnyRun(run) && i + 1 < |run| && Restores(run[i], run[i + 1], table')
    ensures var k := run[i].worker.key;
            && run[i + 1].worker == Finishing(k)
            && j < i && DumpGave(run, j, k, run[i].worker.val)
            && (k in run[i + 1].table ==> run[i + 1].table[k] == run[i].worker.val)
  {
    j := RestoringHistory(run, i);
  }
}
