/** Where the values come from, in every run, with failures of ZooKeeper included. */
module WatcherProvenance {
  import opened Basics
  import opened WatcherModel
  import opened WatcherView
  import opened WatcherSync

  ghost predicate Known(s: State, k: Key, v: Bytes) {
    (k, v) in s.seen
  }

  ghost predicate MapKnown(s: State, m: map<Key, Bytes>) {
    forall k :: k in m ==> Known(s, k, m[k])
  }

  /** A trigger other than a removal carries a known value of its key. */
  ghost predicate TriggerKnown(s: State, t: Trigger, v: Bytes) {
    t.Removed? || Known(s, t.key, v)
  }

  ghost predicate WorkerKnown(s: State) {
    match s.worker
    case GrayWriting(k, v) => Known(s, k, v)
    case Writing(k, v) => Known(s, k, v)
    case Restoring(k, v) => Known(s, k, v)
    case Triggering(k, t, v) => TriggerKnown(s, t, v)
    case _ => true
  }

  ghost predicate AssistKnown(s: State) {
    s.assist.Got? || s.assist.Dumped? || s.assist.Comparing? ==> Known(s, s.assist.key, s.assist.val)
  }

  ghost predicate TriggersKnown(s: State) {
    && (forall t :: t in s.triggerVals ==> TriggerKnown(s, t, s.triggerVals[t]))
    && (s.dumping.Some? ==> TriggerKnown(s, s.dumping.value.0, s.dumping.value.1))
  }

  /** The trigger queue has no duplicates and holds exactly the keys of the value map. */
  ghost predicate TriggersWf(s: State) {
    s.triggers.Wf() && s.triggers.members == s.triggerVals.Keys
  }

  ghost predicate ProvInv(s: State) {
    && MapKnown(s, s.table) && MapKnown(s, s.dump) && MapKnown(s, s.gray)
    && WorkerKnown(s) && AssistKnown(s) && TriggersKnown(s) && TriggersWf(s)
  }

  /** The worker's step from s to s' completes a read of ZooKeeper, which gave v for k. */
  ghost predicate Fetched(s: State, s': State, k: Key, v: Bytes) {
    (Fetches(s, s') || Lists(s, s') || ReadsStatus(s, s')) && s'.worker == Writing(k, v)
  }

  /** The step from s to s' makes v a gray value of k. */
  ghost predicate Grayed(s: State, s': State, k: Key, v: Bytes) {
    exists nodes :: GraySets(s, s', nodes) && (k, v) in nodes
  }

  /** Every value new to the history was just returned by ZooKeeper or just set as a gray value. */
  ghost predicate NewSeen(s: State, s': State) {
    forall k, v {:trigger Known(s', k, v)} :: Known(s', k, v)
      ==> Known(s, k, v) || Fetched(s, s', k, v) || Grayed(s, s', k, v)
  }

  lemma InitProv(s: State)
    requires Init(s)
    ensures ProvInv(s)
  {
  }

  /** All that holds values, but for the worker and the assistant. */
  ghost predicate SameStores(s: State, s': State) {
    && s'.table == s.table && s'.dump == s.dump && s'.gray == s.gray
    && s'.triggers == s.triggers && s'.triggerVals == s.triggerVals && s'.dumping == s.dumping
  }

  /** All that holds values. */
  datatype Holders = Holders(
    table: map<Key, Bytes>, dump: map<Key, Bytes>, gray: map<Key, Bytes>, triggers: Queue<Trigger>,
      triggerVals: map<Trigger, Bytes>,
    dumping: Option<(Trigger, Bytes)>, worker: Worker, assist: Assist, seen: set<(Key, Bytes)>)

  function HoldersOf(s: State): Holders {
    Holders(s.table, s.dump, s.gray, s.triggers, s.triggerVals, s.dumping, s.worker, s.assist, s.seen)
  }

  /** A step that touches none of the value holders. */
  ghost predicate SameHolders(s: State, s': State) {
    HoldersOf(s') == HoldersOf(s)
  }

  lemma Untouched(s: State, s': State)
    requires ProvInv(s) && SameStores(s, s') && s'.worker == s.worker && s'.assist == s.assist && s.seen <= s'.seen
    ensures ProvInv(s')
  {
  }

  lemma DeliverMoves(s: State, s': State)
    requires Delivers(s, s')
    ensures SameHolders(s, s')
  {
  }

  lemma PendingTestMoves(s: State, s': State)
    requires TestsPending(s, s')
    ensures SameHolders(s, s')
  {
  }

  lemma TableTestMoves(s: State, s': State)
    requires TestsTable(s, s')
    ensures SameHolders(s, s')
  {
  }

  lemma HandlerAddMoves(s: State, s': State)
    requires HandlerAdds(s, s')
    ensures SameHolders(s, s')
  {
  }

  lemma HandlerMoves(s: State, s': State)
    requires HandlerStep(s, s')
    ensures SameHolders(s, s')
  {
    if Delivers(s, s') {
      DeliverMoves(s, s');
    } else if TestsPending(s, s') {
      PendingTestMoves(s, s');
    } else if TestsTable(s, s') {
      TableTestMoves(s, s');
    } else {
      HandlerAddMoves(s, s');
    }
  }

  /** A step of the worker that changes its stage, and the table to known values. */
  lemma WorkerMoves(s: State, s': State)
    requires ProvInv(s) && s.seen <= s'.seen
    requires s'.dump == s.dump && s'.gray == s.gray && s'.assist == s.assist
    requires s'.triggers == s.triggers && s'.triggerVals == s.triggerVals && s'.dumping == s.dumping
    requires WorkerKnown(s') && MapKnown(s', s'.table)
    ensures ProvInv(s')
  {
  }

  lemma WriteProv(s: State, s': State, k: Key, v: Bytes, table': map<Key, Bytes>, trigger: bool)
    requires ProvInv(s) && Known(s, k, v) && WritesThen(s, s', k, v, table', trigger)
    ensures ProvInv(s') && s'.seen == s.seen
  {
    if Stored(s, s', k, v, table', trigger) {
      WorkerMoves(s, s');
    } else if SameValue(s, s', k, v) {
      WorkerMoves(s, s');
    } else {
      WorkerMoves(s, s');
    }
  }

  /** A read leaves the worker without a value, or with one that becomes known. */
  ghost predicate ReadMoves(s: State, s': State) {
    && s' == s.(worker := s'.worker, seen := s'.seen, dataW := s'.dataW, childW := s'.childW, dropped := s'.dropped,
                disturbed := s'.disturbed)
    && (s'.worker.Writing? || s'.worker.Statusing? || s'.worker.Removing? || s'.worker.Finishing?)
    && s'.seen == SeenWith(s.seen, s'.worker)
  }

  lemma FetchShape(s: State, s': State)
    requires Fetches(s, s')
    ensures ReadMoves(s, s')
  {
  }

  lemma ListShape(s: State, s': State)
    requires Lists(s, s')
    ensures ReadMoves(s, s')
  {
  }

  lemma StatusShape(s: State, s': State)
    requires ReadsStatus(s, s')
    ensures ReadMoves(s, s')
  {
  }

  /** A read makes known what it completes with. */
  lemma ReadProv(s: State, s': State)
    requires ProvInv(s) && ReadMoves(s, s') && (Fetches(s, s') || Lists(s, s') || ReadsStatus(s, s'))
    ensures ProvInv(s') && NewSeen(s, s')
  {
    WorkerMoves(s, s');
    if s'.worker.Writing? {
      assert Fetched(s, s', s'.worker.key, s'.worker.val);
    }
  }

  lemma PushTriggerProv(s: State, wanted: bool, t: Trigger, v: Bytes)
    requires ProvInv(s) && (wanted ==> TriggerKnown(s, t, v))
    ensures ProvInv(PushTrigger(s, wanted, t, v))
  {
    if wanted && t !in s.triggerVals {
      PushWf(s.triggers, t);
      var s' := PushTrigger(s, wanted, t, v);
      forall x | x in s'.triggerVals
        ensures TriggerKnown(s', x, s'.triggerVals[x])
      {
        assert x != t ==> TriggerKnown(s, x, s.triggerVals[x]);
      }
    }
  }

  lemma AddTriggerProv(s: State, s': State)
    requires ProvInv(s) && AddsTrigger(s, s')
    ensures ProvInv(s') && s'.seen == s.seen
  {
    PushTriggerProv(s, true, s.worker.trigger, s.worker.val);
    WorkerMoves(PushTrigger(s, true, s.worker.trigger, s.worker.val), s');
  }

  lemma FetchedWriteProv(s: State, s': State, table': map<Key, Bytes>)
    requires ProvInv(s) && (WritesGray(s, s', table') || Writes(s, s', table'))
    ensures ProvInv(s') && s'.seen == s.seen
  {
    WriteProv(s, s', s.worker.key, s.worker.val, table', true);
  }

  /** A stage of the worker without a value, or with a gray value. */
  ghost predicate StageMoves(s: State, s': State) {
    && s' == s.(work := s'.work, unswept := s'.unswept, pending := s'.pending, table := s'.table, worker := s'.worker)
    && (forall k :: k in s'.table ==> k in s.table && s'.table[k] == s.table[k])
    && match s'.worker
       case GrayWriting(k, v) => k in s.gray && s.gray[k] == v
       case Statusing(_, _, _) => false
       case Writing(_, _) => false
       case Restoring(_, _) => false
       case Triggering(_, t, _) => t.Removed?
       case _ => true
  }

  lemma DequeueMoves(s: State, s': State)
    requires Dequeues(s, s')
    ensures StageMoves(s, s')
  {
  }

  lemma AddPendingMoves(s: State, s': State)
    requires AddsPending(s, s')
    ensures StageMoves(s, s')
  {
  }

  lemma CheckGrayMoves(s: State, s': State)
    requires ChecksGray(s, s')
    ensures StageMoves(s, s')
  {
  }

  lemma SkipMoves(s: State, s': State)
    requires SkipsEmpty(s, s')
    ensures StageMoves(s, s')
  {
  }

  lemma RemoveMoves(s: State, s': State)
    requires Removes(s, s')
    ensures StageMoves(s, s')
  {
  }

  lemma DelPendingMoves(s: State, s': State)
    requires DelsPending(s, s')
    ensures StageMoves(s, s')
  {
  }

  lemma StageShape(s: State, s': State)
    requires Dequeues(s, s') || AddsPending(s, s') || ChecksGray(s, s') || SkipsEmpty(s, s') || Removes(s, s')
             || DelsPending(s, s')
    ensures StageMoves(s, s')
  {
    if Dequeues(s, s') {
      DequeueMoves(s, s');
    } else if AddsPending(s, s') {
      AddPendingMoves(s, s');
    } else if ChecksGray(s, s') {
      CheckGrayMoves(s, s');
    } else if SkipsEmpty(s, s') {
      SkipMoves(s, s');
    } else if Removes(s, s') {
      RemoveMoves(s, s');
    } else {
      DelPendingMoves(s, s');
    }
  }

  lemma StageProv(s: State, s': State)
    requires ProvInv(s) && StageMoves(s, s')
    ensures ProvInv(s') && s'.seen == s.seen
  {
    WorkerMoves(s, s');
  }

  lemma WorkerProv(s: State, s': State)
    requires ProvInv(s) && WorkerStep(s, s')
    ensures ProvInv(s') && NewSeen(s, s')
  {
    if t :| WritesGray(s, s', t) {
      FetchedWriteProv(s, s', t);
    } else if t :| Writes(s, s', t) {
      FetchedWriteProv(s, s', t);
    } else if Fetches(s, s') {
      FetchShape(s, s');
      ReadProv(s, s');
    } else if Lists(s, s') {
      ListShape(s, s');
      ReadProv(s, s');
    } else if ReadsStatus(s, s') {
      StatusShape(s, s');
      ReadProv(s, s');
    } else if AddsTrigger(s, s') {
      AddTriggerProv(s, s');
    } else {
      StageShape(s, s');
      StageProv(s, s');
    }
  }

  lemma {:induction false} InsertedKnown(s: State, gray: map<Key, Bytes>, nodes: seq<(Key, Bytes)>)
    requires MapKnown(s, gray) && forall n :: n in nodes ==> n in s.seen
    ensures MapKnown(s, GrayInserted(gray, nodes))
    decreases |nodes|
  {
    if nodes != [] {
      assert nodes[0] in nodes && nodes[0] == (nodes[0].0, nodes[0].1);
      InsertedKnown(s, if nodes[0].0 in gray then gray else gray[nodes[0].0 := nodes[0].1], nodes[1..]);
    }
  }

  lemma GraySetProv(s: State, s': State, nodes: seq<(Key, Bytes)>)
    requires ProvInv(s) && GraySets(s, s', nodes)
    ensures ProvInv(s') && NewSeen(s, s')
  {
    Untouched(s, s'.(gray := s.gray));
    InsertedKnown(s', s.gray, nodes);
  }

  lemma GrayFailMoves(s: State, s': State, todo: seq<Key>)
    requires GrayFails(s, s', todo)
    ensures GrayMoves(s, s')
  {
  }

  lemma GrayListMoves(s: State, s': State, todo: seq<Key>)
    requires GrayLists(s, s', todo)
    ensures GrayMoves(s, s')
  {
  }

  lemma GrayClearMoves(s: State, s': State)
    requires GrayClears(s, s')
    ensures GrayMoves(s, s')
  {
  }

  lemma GrayAddMoves(s: State, s': State)
    requires GrayAdds(s, s')
    ensures GrayMoves(s, s')
  {
  }

  /** The gray thread's other steps at most clear the gray set. */
  ghost predicate GrayMoves(s: State, s': State) {
    && SameHolders(s, s'.(gray := s.gray)) && (s'.gray == s.gray || s'.gray == map[])
    && s'.dropped == s.dropped && (s'.disturbed ==> s.disturbed)
  }

  lemma GrayShape(s: State, s': State)
    requires GrayStep(s, s')
    ensures (exists n :: GraySets(s, s', n)) || GrayMoves(s, s')
  {
    if n :| GraySets(s, s', n) {
    } else if t :| GrayFails(s, s', t) {
      GrayFailMoves(s, s', t);
    } else if t :| GrayLists(s, s', t) {
      GrayListMoves(s, s', t);
    } else if GrayClears(s, s') {
      GrayClearMoves(s, s');
    } else {
      GrayAddMoves(s, s');
    }
  }

  lemma GrayProv(s: State, s': State)
    requires ProvInv(s) && ((exists n :: GraySets(s, s', n)) || GrayMoves(s, s'))
    ensures ProvInv(s') && NewSeen(s, s')
  {
    if n :| GraySets(s, s', n) {
      GraySetProv(s, s', n);
    } else {
      Untouched(s, s'.(gray := s.gray));
    }
  }

  /** What the assistant does: it takes up an entry, writes its value to the dump, or goes on with it or without it. */
  ghost predicate AssistMoves(s: State, s': State) {
    && SameStores(s, s'.(dump := s.dump)) && s'.worker == s.worker && s'.seen == s.seen
    && s'.dropped == s.dropped && (s'.disturbed ==> s.disturbed)
    && (s'.dump == s.dump || (s.assist.Got? && s'.dump == s.dump[s.assist.key := s.assist.val]))
    && (s'.assist.Got? || s'.assist.Dumped? || s'.assist.Comparing? ==>
          || (s'.assist.key in s.table && s.table[s'.assist.key] == s'.assist.val)
          || ((s.assist.Got? || s.assist.Dumped? || s.assist.Comparing?)
              && s'.assist.key == s.assist.key && s'.assist.val == s.assist.val))
  }

  lemma AssistReadMoves(s: State, s': State, k: Key)
    requires AssistReads(s, s', k)
    ensures AssistMoves(s, s')
  {
  }

  lemma AssistDumpMoves(s: State, s': State)
    requires AssistDumps(s, s')
    ensures AssistMoves(s, s')
  {
  }

  lemma AssistCompareMoves(s: State, s': State)
    requires AssistCompares(s, s')
    ensures AssistMoves(s, s')
  {
  }

  lemma AssistListMoves(s: State, s': State)
    requires AssistLists(s, s')
    ensures AssistMoves(s, s')
  {
  }

  lemma AssistStatusMoves(s: State, s': State)
    requires AssistStatus(s, s')
    ensures AssistMoves(s, s')
  {
  }

  lemma AssistSkipMoves(s: State, s': State)
    requires AssistSkips(s, s')
    ensures AssistMoves(s, s')
  {
  }

  lemma AssistAddMoves(s: State, s': State)
    requires AssistAdds(s, s')
    ensures AssistMoves(s, s')
  {
  }

  lemma AssistShape(s: State, s': State)
    requires AssistStep(s, s')
    ensures AssistMoves(s, s')
  {
    if k :| AssistReads(s, s', k) {
      AssistReadMoves(s, s', k);
    } else if AssistDumps(s, s') {
      AssistDumpMoves(s, s');
    } else if AssistCompares(s, s') {
      AssistCompareMoves(s, s');
    } else if AssistLists(s, s') {
      AssistListMoves(s, s');
    } else if AssistStatus(s, s') {
      AssistStatusMoves(s, s');
    } else if AssistSkips(s, s') {
      AssistSkipMoves(s, s');
    } else {
      AssistAddMoves(s, s');
    }
  }

  lemma AssistProv(s: State, s': State)
    requires ProvInv(s) && AssistMoves(s, s')
    ensures ProvInv(s') && s'.seen == s.seen
  {
    Untouched(s, s'.(assist := s.assist, dump := s.dump));
  }

  lemma PopProv(s: State, s': State)
    requires ProvInv(s) && PopsTrigger(s, s')
    ensures ProvInv(s') && s'.seen == s.seen
  {
    PopWf(s.triggers);
    forall t | t in s'.triggerVals
      ensures TriggerKnown(s', t, s'.triggerVals[t])
    {
      assert TriggerKnown(s, t, s.triggerVals[t]);
    }
  }

  lemma DumpWrittenProv(s: State, t: Trigger, v: Bytes)
    requires ProvInv(s) && TriggerKnown(s, t, v)
    ensures ProvInv(DumpWritten(s, t, v))
  {
    Untouched(s, DumpWritten(s, t, v).(dumping := s.dumping, dump := s.dump));
  }

  lemma DumpProv(s: State, s': State, again: bool)
    requires ProvInv(s) && Dumps(s, s', again)
    ensures ProvInv(s') && s'.seen == s.seen
  {
    var t, v := s.dumping.value.0, s.dumping.value.1;
    DumpWrittenProv(s, t, v);
    PushTriggerProv(DumpWritten(s, t, v), again && !t.Removed?, Reset(t.key), v);
  }

  /** The environment at most takes entries from the table and the dump. */
  ghost predicate EnvironmentMoves(s: State, s': State) {
    && SameHolders(s, s'.(table := s.table, dump := s.dump))
    && s'.dropped == s.dropped && (s'.disturbed ==> s.disturbed)
    && (s'.dump == s.dump || s'.dump == map[])
    && forall k :: k in s'.table ==> k in s.table && s'.table[k] == s.table[k]
  }

  lemma SetMoves(s: State, s': State, l: Loc, data: Bytes)
    requires ZkSets(s, s', l, data)
    ensures EnvironmentMoves(s, s')
  {
  }

  lemma CreateMoves(s: State, s': State, p: Loc, name: Bytes, data: Bytes, names': seq<Bytes>)
    requires ZkCreates(s, s', p, name, data, names')
    ensures EnvironmentMoves(s, s')
  {
  }

  lemma DeleteMoves(s: State, s': State, p: Loc, name: Bytes, names': seq<Bytes>)
    requires ZkDeletes(s, s', p, name, names')
    ensures EnvironmentMoves(s, s')
  {
  }

  lemma ClientMoves(s: State, s': State, k: Key)
    requires ClientAsks(s, s', k)
    ensures EnvironmentMoves(s, s')
  {
  }

  lemma ShrinkMoves(s: State, s': State, table': map<Key, Bytes>)
    requires TableShrinks(s, s', table')
    ensures EnvironmentMoves(s, s')
  {
  }

  lemma ClearMoves(s: State, s': State)
    requires DumpClears(s, s')
    ensures EnvironmentMoves(s, s')
  {
  }

  lemma EnvShape(s: State, s': State)
    requires EnvStep(s, s')
    ensures EnvironmentMoves(s, s')
  {
    if l, data :| ZkSets(s, s', l, data) {
      SetMoves(s, s', l, data);
    } else if p, name, data, names' :| ZkCreates(s, s', p, name, data, names') {
      CreateMoves(s, s', p, name, data, names');
    } else if p, name, names' :| ZkDeletes(s, s', p, name, names') {
      DeleteMoves(s, s', p, name, names');
    } else if k :| ClientAsks(s, s', k) {
      ClientMoves(s, s', k);
    } else if t :| TableShrinks(s, s', t) {
      ShrinkMoves(s, s', t);
    } else {
      ClearMoves(s, s');
    }
  }

  lemma FetchFailProv(s: State, s': State, noHandle: bool)
    requires ProvInv(s) && FetchFails(s, s', noHandle)
    ensures ProvInv(s') && s'.seen == s.seen
  {
    WorkerMoves(s, s');
  }

  lemma ReadDumpProv(s: State, s': State)
    requires ProvInv(s) && ReadsDump(s, s')
    ensures ProvInv(s') && s'.seen == s.seen
  {
    WorkerMoves(s, s');
  }

  lemma RestoreProv(s: State, s': State, table': map<Key, Bytes>)
    requires ProvInv(s) && Restores(s, s', table')
    ensures ProvInv(s') && s'.seen == s.seen
  {
    WriteProv(s, s', s.worker.key, s.worker.val, table', false);
  }

  lemma AssistFailProv(s: State, s': State)
    requires ProvInv(s) && AssistFails(s, s')
    ensures ProvInv(s') && s'.seen == s.seen
  {
    AssistProv(s, s');
  }

  lemma SessionLostProv(s: State, s': State, dataW': set<Loc>, childW': set<Loc>)
    requires ProvInv(s) && SessionLost(s, s', dataW', childW')
    ensures ProvInv(s') && s'.seen == s.seen
  {
    Untouched(s, s');
  }

  lemma FailureProv(s: State, s': State)
    requires ProvInv(s) && FailureStep(s, s')
    ensures ProvInv(s') && s'.seen == s.seen
  {
    if h :| FetchFails(s, s', h) {
      FetchFailProv(s, s', h);
    } else if ReadsDump(s, s') {
      ReadDumpProv(s, s');
    } else if t :| Restores(s, s', t) {
      RestoreProv(s, s', t);
    } else if AssistFails(s, s') {
      AssistFailProv(s, s');
    } else {
      var d, c :| SessionLost(s, s', d, c);
      SessionLostProv(s, s', d, c);
    }
  }

  lemma HandlerProv(s: State, s': State)
    requires ProvInv(s) && HandlerStep(s, s')
    ensures ProvInv(s') && s'.seen == s.seen
  {
    HandlerMoves(s, s');
    Untouched(s, s');
  }

  lemma GrayStepProv(s: State, s': State)
    requires ProvInv(s) && GrayStep(s, s')
    ensures ProvInv(s') && NewSeen(s, s')
  {
    GrayShape(s, s');
    GrayProv(s, s');
  }

  lemma AssistStepProv(s: State, s': State)
    requires ProvInv(s) && AssistStep(s, s')
    ensures ProvInv(s') && s'.seen == s.seen
  {
    AssistShape(s, s');
    AssistProv(s, s');
  }

  lemma EnvProv(s: State, s': State)
    requires ProvInv(s) && EnvStep(s, s')
    ensures ProvInv(s') && s'.seen == s.seen
  {
    EnvShape(s, s');
    Untouched(s, s'.(table := s.table, dump := s.dump));
  }

  lemma StepProv(s: State, s': State)
    requires ProvInv(s) && (Step(s, s') || FailureStep(s, s'))
    ensures ProvInv(s') && NewSeen(s, s')
  {
    if HandlerStep(s, s') {
      HandlerProv(s, s');
    } else if WorkerStep(s, s') {
      WorkerProv(s, s');
    } else if GrayStep(s, s') {
      GrayStepProv(s, s');
    } else if AssistStep(s, s') {
      AssistStepProv(s, s');
    } else if PopsTrigger(s, s') {
      PopProv(s, s');
    } else if again :| Dumps(s, s', again) {
      DumpProv(s, s', again);
    } else if EnvStep(s, s') {
      EnvProv(s, s');
    } else {
      FailureProv(s, s');
    }
  }

  lemma {:induction false} RunProv(run: seq<State>, i: nat)
    requires AnyRun(run) && i < |run|
    ensures ProvInv(run[i])
  {
    if i == 0 {
      InitProv(run[0]);
    } else {
      RunProv(run, i - 1);
      assert AnyStep(run, i - 1);
      StepProv(run[i - 1], run[i]);
    }
  }

  // ---- where a read value comes from

  lemma WriteStage(s: State, s': State, k: Key, v: Bytes, table': map<Key, Bytes>, trigger: bool)
    requires WritesThen(s, s', k, v, table', trigger)
    ensures !s'.worker.Statusing?
  {
  }

  lemma GraySetStage(s: State, s': State, nodes: seq<(Key, Bytes)>)
    requires GraySets(s, s', nodes)
    ensures s'.worker == s.worker
  {
  }

  lemma TriggerStage(s: State, s': State)
    requires TriggerStep(s, s')
    ensures s'.worker == s.worker
  {
  }

  lemma WorkerStage(s: State, s': State)
    requires WorkerStep(s, s') && s'.worker.Statusing?
    ensures Lists(s, s') || ReadsStatus(s, s')
  {
    if t :| WritesGray(s, s', t) {
      WriteStage(s, s', s.worker.key, s.worker.val, t, true);
    } else if t :| Writes(s, s', t) {
      WriteStage(s, s', s.worker.key, s.worker.val, t, true);
    } else if Fetches(s, s') {
    } else if Lists(s, s') {
    } else if ReadsStatus(s, s') {
    } else if AddsTrigger(s, s') {
    } else {
      StageShape(s, s');
    }
  }

  lemma FetchFailStage(s: State, s': State, noHandle: bool)
    requires FetchFails(s, s', noHandle)
    ensures !s'.worker.Statusing?
  {
  }

  lemma ReadDumpStage(s: State, s': State)
    requires ReadsDump(s, s')
    ensures !s'.worker.Statusing?
  {
  }

  lemma AssistFailStage(s: State, s': State)
    requires AssistFails(s, s')
    ensures s'.worker == s.worker
  {
  }

  lemma SessionStage(s: State, s': State, dataW': set<Loc>, childW': set<Loc>)
    requires SessionLost(s, s', dataW', childW')
    ensures s'.worker == s.worker
  {
  }

  lemma FailureStage(s: State, s': State)
    requires FailureStep(s, s') && s'.worker.Statusing?
    ensures s'.worker == s.worker
  {
    if h :| FetchFails(s, s', h) {
      FetchFailStage(s, s', h);
    } else if ReadsDump(s, s') {
      ReadDumpStage(s, s');
    } else if t :| Restores(s, s', t) {
      WriteStage(s, s', s.worker.key, s.worker.val, t, false);
    } else if AssistFails(s, s') {
      AssistFailStage(s, s');
    } else {
      var d, c :| SessionLost(s, s', d, c);
      SessionStage(s, s', d, c);
    }
  }

  lemma GrayStage(s: State, s': State)
    requires GrayStep(s, s')
    ensures s'.worker == s.worker
  {
    GrayShape(s, s');
    if n :| GraySets(s, s', n) {
      GraySetStage(s, s', n);
    }
  }

  lemma AssistStage(s: State, s': State)
    requires AssistStep(s, s')
    ensures s'.worker == s.worker
  {
    AssistShape(s, s');
  }

  lemma EnvStage(s: State, s': State)
    requires EnvStep(s, s')
    ensures s'.worker == s.worker
  {
    EnvShape(s, s');
  }

  lemma HandlerStage(s: State, s': State)
    requires HandlerStep(s, s')
    ensures s'.worker == s.worker
  {
    HandlerMoves(s, s');
  }

  /** Only the worker's own reads bring it to a status read or on in one. */
  lemma StatusingFrom(s: State, s': State)
    requires (Step(s, s') || FailureStep(s, s')) && s'.worker.Statusing?
    ensures s'.worker == s.worker || Lists(s, s') || ReadsStatus(s, s')
  {
    if HandlerStep(s, s') {
      HandlerStage(s, s');
    } else if WorkerStep(s, s') {
      WorkerStage(s, s');
    } else if GrayStep(s, s') {
      GrayStage(s, s');
    } else if AssistStep(s, s') {
      AssistStage(s, s');
    } else if TriggerStep(s, s') {
      TriggerStage(s, s');
    } else if EnvStep(s, s') {
      EnvStage(s, s');
    } else {
      FailureStage(s, s');
    }
  }

  /** The list of service k was read at step l. */
  ghost predicate ListedAt(run: seq<State>, l: nat, k: Key, names: seq<Bytes>)
    requires l + 1 < |run|
  {
    && Lists(run[l], run[l + 1]) && run[l].worker.key == k
    && At(k) in run[l].zk && run[l].zk[At(k)].children == names
  }

  /** At step j ZooKeeper held the status for the child. */
  ghost predicate StatusHeld(run: seq<State>, j: nat, k: Key, name: Bytes, status: int)
    requires j < |run|
  {
    StatusAt(run[j].zk, ChildAt(At(k), name)) == Some(status)
  }

  /**
   In one processing of service k, up to state i: the names were its children when its list
   was read at step l, and status x was held by child x at step at[x], one after the other.
   */
  ghost predicate ReadSince(run: seq<State>, i: nat, k: Key, names: seq<Bytes>, status: seq<int>, l: nat, at: seq<nat>)
    requires i < |run|
  {
    && l < i && ListedAt(run, l, k, names) && |at| == |status| <= |names|
    && (forall m :: l < m <= i ==> Holds(run[m].worker, k))
    && (forall x, y :: 0 <= x < y < |at| ==> at[x] < at[y])
    && forall x :: 0 <= x < |at| ==> l < at[x] < i && StatusHeld(run, at[x], k, names[x], status[x])
  }

  lemma ReadLonger(run: seq<State>, i: nat, k: Key, names: seq<Bytes>, status: seq<int>, l: nat, at: seq<nat>)
    requires i + 1 < |run| && ReadSince(run, i, k, names, status, l, at) && Holds(run[i + 1].worker, k)
    ensures ReadSince(run, i + 1, k, names, status, l, at)
  {
  }

  lemma ReadExtended(run: seq<State>, i: nat, k: Key, names: seq<Bytes>, status: seq<int>, l: nat, at: seq<nat>, x: int)
    requires i + 1 < |run| && ReadSince(run, i, k, names, status, l, at) && Holds(run[i + 1].worker, k)
    requires |status| < |names| && StatusHeld(run, i, k, names[|status|], x)
    ensures ReadSince(run, i + 1, k, names, status + [x], l, at + [i])
  {
  }

  lemma ListBegins(run: seq<State>, i: nat, k: Key)
    requires i + 1 < |run| && Lists(run[i], run[i + 1]) && run[i].worker.key == k && At(k) in run[i].zk
    ensures Holds(run[i + 1].worker, k) && ReadSince(run, i + 1, k, run[i].zk[At(k)].children, [], i, [])
  {
  }

  /** What one status read adds. */
  lemma StatusAdds(s: State, s': State)
    requires ReadsStatus(s, s') && !s'.worker.Finishing?
    ensures var k, names, status := s.worker.key, s.worker.names, s.worker.status;
            && Holds(s'.worker, k) && StatusAt(s.zk, ChildAt(At(k), names[|status|])).Some?
            && var x := StatusAt(s.zk, ChildAt(At(k), names[|status|])).value;
               s'.worker == NextRead(k, names, status + [x])
  {
  }

  lemma {:induction false} ReadHistory(run: seq<State>, i: nat) returns (l: nat, at: seq<nat>)
    requires AnyRun(run) && i < |run| && run[i].worker.Statusing?
    ensures ReadSince(run, i, run[i].worker.key, run[i].worker.names, run[i].worker.status, l, at)
  {
    var j := i - 1;
    assert AnyStep(run, j);
    var k := run[i].worker.key;
    StatusingFrom(run[j], run[i]);
    if run[i].worker == run[j].worker {
      l, at := ReadHistory(run, j);
      ReadLonger(run, j, k, run[i].worker.names, run[i].worker.status, l, at);
    } else if Lists(run[j], run[i]) {
      ListBegins(run, j, k);
      l, at := j, [];
    } else {
      l, at := ReadHistory(run, j);
      StatusAdds(run[j], run[i]);
      var names, status := run[j].worker.names, run[j].worker.status;
      ReadExtended(run, j, k, names, status, l, at, StatusAt(run[j].zk, ChildAt(At(k), names[|status|])).value);
      at := at + [j];
    }
  }

  /** v is what step j read: what ZooKeeper held then, or a service's list with the statuses read after it. */
  ghost predicate Genuine(run: seq<State>, j: nat, k: Key, v: Bytes)
    requires j + 1 < |run|
  {
    if k.kind != Service then
      Held(run[j].zk, k) == Some(v) && (WithinWidths(run[j].zk, k) ==> Shows(run[j].zk, k, v))
    else exists names, status, l, at :: ReadGives(run, j, k, v, names, status, l, at)
  }

  ghost predicate ReadGives(run: seq<State>, j: nat, k: Key, v: Bytes, names: seq<Bytes>, status: seq<int>, l: nat,
                            at: seq<nat>)
    requires j + 1 < |run|
  {
    && ReadSince(run, j + 1, k, names, status, l, at) && |status| == |names| && v == ServiceValue(k, names, status)
    && (|k.idc| < 0x100 && |k.path| < 0x1_0000 && ShortNames(names) ==> ListsUp(v, k, names, status))
  }

  lemma ReadGiven(run: seq<State>, j: nat, k: Key, names: seq<Bytes>, status: seq<int>, l: nat, at: seq<nat>)
    requires j + 1 < |run| && k.kind == Service && |status| == |names|
    requires ReadSince(run, j + 1, k, names, status, l, at)
    ensures ReadGives(run, j, k, ServiceValue(k, names, status), names, status, l, at)
  {
    if |k.idc| < 0x100 && |k.path| < 0x1_0000 && ShortNames(names) {
      ServiceShows(k, names, status);
    }
  }

  lemma FetchedGenuine(run: seq<State>, j: nat, k: Key, v: Bytes)
    requires AnyRun(run) && j + 1 < |run| && Fetched(run[j], run[j + 1], k, v)
    ensures Genuine(run, j, k, v)
  {
    var s, s' := run[j], run[j + 1];
    if Fetches(s, s') {
      if WithinWidths(s.zk, k) {
        HeldShows(s.zk, k, v);
      }
    } else if Lists(s, s') {
      ListBegins(run, j, k);
      ReadGiven(run, j, k, [], [], j, []);
    } else if ReadsStatus(s, s') {
      ReadsService(run, j);
      var l, at := ReadHistory(run, j);
      StatusAdds(s, s');
      var names, status := s.worker.names, s.worker.status;
      var x := StatusAt(s.zk, ChildAt(At(k), names[|status|])).value;
      ReadExtended(run, j, k, names, status, l, at, x);
      ReadGiven(run, j, k, names, status + [x], l, at + [j]);
    }
  }

  lemma ReadsService(run: seq<State>, j: nat)
    requires AnyRun(run) && j < |run| && run[j].worker.Statusing?
    ensures run[j].worker.key.kind == Service
  {
    var l, at := ReadHistory(run, j);
  }

  // ---- the history

  ghost predicate Initial(run: seq<State>, k: Key, v: Bytes)
    requires run != []
  {
    (k in run[0].table && run[0].table[k] == v) || (k in run[0].dump && run[0].dump[k] == v)
  }

  ghost predicate FetchedAt(run: seq<State>, j: nat, k: Key, v: Bytes)
    requires j + 1 < |run|
  {
    Fetched(run[j], run[j + 1], k, v) && Genuine(run, j, k, v)
  }

  /** Before state i, v was the initial value of k, was read from ZooKeeper for it, or was set as its gray value. */
  ghost predicate Origin(run: seq<State>, i: nat, k: Key, v: Bytes)
    requires i < |run|
  {
    Initial(run, k, v) || exists j :: 0 <= j < i && (FetchedAt(run, j, k, v) || Grayed(run[j], run[j + 1], k, v))
  }

  lemma NewOrigin(run: seq<State>, j: nat, k: Key, v: Bytes)
    requires AnyRun(run) && j + 1 < |run| && Known(run[j + 1], k, v) && !Known(run[j], k, v)
    ensures FetchedAt(run, j, k, v) || Grayed(run[j], run[j + 1], k, v)
  {
    RunProv(run, j);
    assert AnyStep(run, j);
    StepProv(run[j], run[j + 1]);
    if Fetched(run[j], run[j + 1], k, v) {
      FetchedGenuine(run, j, k, v);
    }
  }

  lemma {:induction false} SeenOrigin(run: seq<State>, i: nat, k: Key, v: Bytes)
    requires AnyRun(run) && i < |run| && Known(run[i], k, v)
    ensures Origin(run, i, k, v)
  {
    if i > 0 {
      var j := i - 1;
      if Known(run[j], k, v) {
        SeenOrigin(run, j, k, v);
      } else {
        NewOrigin(run, j, k, v);
      }
    }
  }

  /** Every value the table, the dump, the gray set or a queued trigger holds for a key has such an origin. */
  lemma Provenance(run: seq<State>, i: nat, k: Key)
    requires AnyRun(run) && i < |run|
    ensures k in run[i].table ==> Origin(run, i, k, run[i].table[k])
    ensures k in run[i].dump ==> Origin(run, i, k, run[i].dump[k])
    ensures k in run[i].gray ==> Origin(run, i, k, run[i].gray[k])
    ensures AddOrModify(k) in run[i].triggerVals ==> Origin(run, i, k, run[i].triggerVals[AddOrModify(k)])
    ensures Reset(k) in run[i].triggerVals ==> Origin(run, i, k, run[i].triggerVals[Reset(k)])
  {
    RunProv(run, i);
    if k in run[i].table { SeenOrigin(run, i, k, run[i].table[k]); }
    if k in run[i].dump { SeenOrigin(run, i, k, run[i].dump[k]); }
    if k in run[i].gray { SeenOrigin(run, i, k, run[i].gray[k]); }
    if AddOrModify(k) in run[i].triggerVals {
      assert TriggerKnown(run[i], AddOrModify(k), run[i].triggerVals[AddOrModify(k)]);
      SeenOrigin(run, i, k, run[i].triggerVals[AddOrModify(k)]);
    }
    if Reset(k) in run[i].triggerVals {
      assert TriggerKnown(run[i], Reset(k), run[i].triggerVals[Reset(k)]);
      SeenOrigin(run, i, k, run[i].triggerVals[Reset(k)]);
    }
  }

  /** The trigger queue has no duplicates and the lookup of a popped trigger never misses. */
  lemma TriggerLookupHits(run: seq<State>, i: nat)
    requires AnyRun(run) && i < |run|
    ensures forall a, b :: 0 <= a < b < |run[i].triggers.order| ==> run[i].triggers.order[a] != run[i].triggers.order[b]
    ensures forall t :: t in run[i].triggers.order <==> t in run[i].triggerVals
  {
    RunProv(run, i);
    forall t
      ensures t in run[i].triggers.order <==> t in run[i].triggerVals
    {
      assert t in run[i].triggers.order <==> t in run[i].triggers.members;
    }
  }
}
