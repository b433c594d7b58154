/**
 The agent's synchronisation protocol as interleaved steps.

 Threads: the ZooKeeper callback (handler), the main worker, the gray-release
 thread, the table-checking assistant, the trigger thread, and the environment
 (ZooKeeper itself, client requests, removals from the table). A step is one
 critical section or one call into ZooKeeper or the shared table.
 */
module WatcherModel {
  import opened Basics
  import opened Codec
  import opened ServiceStatus

  datatype Kind = Node | Service | Batch

  datatype Key = Key(kind: Kind, idc: Bytes, path: Bytes)

  /** Without an idc there is no ZooKeeper to ask, without a path nothing to ask for. */
  predicate Readable(k: Key) {
    k.idc != [] && k.path != []
  }

  function Parts(k: Key): KeyParts {
    KeyParts(match k.kind case Node => NODE case Service => SERVICE case Batch => BATCH, k.idc, k.path)
  }

  // ---- ZooKeeper

  /** A node of the ZooKeeper of an idc; the root has the empty path. */
  datatype Loc = Loc(idc: Bytes, path: Bytes)

  /** The data of a node and the sorted names of its children. */
  datatype ZNode = ZNode(data: Bytes, children: seq<Bytes>)

  type Tree = map<Loc, ZNode>

  function At(k: Key): Loc {
    Loc(k.idc, k.path)
  }

  function ChildAt(l: Loc, name: Bytes): Loc {
    Loc(l.idc, PathOf(l.path, name))
  }

  /** The node above a node, by its path. */
  function ParentOf(l: Loc): Option<Loc> {
    match LastSlash(l.path)
    case None => None
    case Some(p) => Some(Loc(l.idc, l.path[..p]))
  }

  ghost predicate ChildExists(zk: Tree, l: Loc, name: Bytes) {
    SLASH !in name && ChildAt(l, name) in zk
  }

  /** Every listed child exists. */
  ghost predicate TreeWf(zk: Tree) {
    forall l, name :: l in zk && name in zk[l].children ==> ChildExists(zk, l, name)
  }

  /** Byte order of names. */
  predicate Before(a: Bytes, b: Bytes) {
    b != [] && (a == [] || a[0] < b[0] || (a[0] == b[0] && Before(a[1..], b[1..])))
  }

  predicate Ascending(names: seq<Bytes>) {
    forall i, j :: 0 <= i < j < |names| ==> Before(names[i], names[j])
  }

  // ---- table values

  function KeyBytes(k: Key): Bytes {
    SerializeKey(Parts(k))
  }

  function ServiceValue(k: Key, names: seq<Bytes>, status: seq<int>): Bytes
    requires |names| == |status|
  {
    VectorValue(KeyBytes(k), UpOnly(names, status))
  }

  /** The status of a server, if its node exists and its data is a status. */
  function StatusAt(zk: Tree, c: Loc): Option<int> {
    if c in zk then StatusOf(zk[c].data) else None
  }

  ghost predicate AllValid(zk: Tree, l: Loc, names: seq<Bytes>) {
    forall i :: 0 <= i < |names| ==> StatusAt(zk, ChildAt(l, names[i])).Some?
  }

  ghost function StatusesAt(zk: Tree, l: Loc, names: seq<Bytes>): (status: seq<int>)
    requires AllValid(zk, l, names)
    ensures |status| == |names|
    ensures forall i :: 0 <= i < |names| ==> StatusAt(zk, ChildAt(l, names[i])) == Some(status[i])
  {
    seq(|names|, i requires 0 <= i < |names| => StatusAt(zk, ChildAt(l, names[i])).value)
  }

  /** The table value of a key for what ZooKeeper holds; none for a service with a child of no valid status. */
  ghost function Held(zk: Tree, k: Key): Option<Bytes> {
    if At(k) !in zk then None
    else
      var node := zk[At(k)];
      match k.kind
      case Node => Some(NodeValue(KeyBytes(k), node.data))
      case Batch => Some(VectorValue(KeyBytes(k), node.children))
      case Service =>
        if AllValid(zk, At(k), node.children)
        then Some(ServiceValue(k, node.children, StatusesAt(zk, At(k), node.children)))
        else None
  }

  // ---- events and the callback

  datatype Event = Deleted(at: Loc) | Changed(at: Loc) | Child(at: Loc)

  /** Event e reports the watch set by reading key k itself. */
  predicate Concerns(e: Event, k: Key) {
    e.at == At(k) &&
    match e
    case Deleted(_) => true
    case Changed(_) => k.kind == Node
    case Child(_) => k.kind != Node
  }

  /** Event e reports the data watch on a child of service k. */
  predicate ConcernsChild(e: Event, k: Key) {
    k.kind == Service && e.Changed? && ParentOf(e.at) == Some(At(k))
  }

  /** The callback queues tableKey when pendingKey is pending or tableKey is in the table. */
  datatype Test = Test(pendingKey: Key, tableKey: Key)

  function Own(k: Key): Test {
    Test(k, k)
  }

  function KeyAt(kind: Kind, l: Loc): Key {
    Key(kind, l.idc, l.path)
  }

  /** The tests the callback makes for an event; a data change also concerns the parent service. */
  function Tests(e: Event): seq<Test> {
    match e
    case Deleted(at) => [Own(KeyAt(Node, at)), Own(KeyAt(Service, at)), Own(KeyAt(Batch, at))]
    case Changed(at) =>
      [Own(KeyAt(Node, at))] +
      (match ParentOf(at)
       case None => []
       case Some(p) => [Test(KeyAt(Node, at), KeyAt(Service, p))])
    case Child(at) => [Own(KeyAt(Service, at)), Own(KeyAt(Batch, at))]
  }

  /** About to make the first pending test, about to make its table test, or about to queue its key. */
  datatype Handler = Testing(todo: seq<Test>) | Pended(todo: seq<Test>) | Adding(todo: seq<Test>)

  // ---- queues

  /** A queue with the set of its members, so that nothing is queued twice. */
  datatype Queue<T> = Queue(order: seq<T>, members: set<T>) {
    ghost predicate Wf() {
      && members == (set x | x in order)
      && (forall i, j :: 0 <= i < j < |order| ==> order[i] != order[j])
    }

    function Push(x: T): Queue<T> {
      if x in members then this else Queue(order + [x], members + {x})
    }

    function Pop(): Queue<T>
      requires order != []
    {
      Queue(order[1..], members - {order[0]})
    }
  }

  // ---- the threads

  datatype Trigger = AddOrModify(key: Key) | Removed(key: Key) | Reset(key: Key)

  datatype Worker =
    | Idle
    | Dequeued(key: Key)                  // popped, not yet pending
    | Checking(key: Key)                  // pending, about to look up the gray set
    | GrayWriting(key: Key, val: Bytes)   // about to write the gray value
    | Fetching(key: Key)                  // about to read ZooKeeper and set the watch
    | Statusing(key: Key, names: seq<Bytes>, status: seq<int>)  // a service's list read, the statuses one by one
    | Writing(key: Key, val: Bytes)       // about to write the fetched value
    | Removing(key: Key)                  // ZooKeeper has no such node
    | Triggering(key: Key, trigger: Trigger, val: Bytes)
    | Reading(key: Key)                   // ZooKeeper failed, about to read the dump
    | Restoring(key: Key, val: Bytes)     // about to write the dumped value
    | Finishing(key: Key)                 // about to leave the pending set

  /** Holding the gray keys just listed, before the set is cleared; or queueing the remaining keys. */
  datatype GrayThread = Listed(todo: seq<Key>) | Queueing(todo: seq<Key>)

  /** Walking the table: an entry read, dumped, a service's statuses being read, or a difference found. */
  datatype Assist =
    | Walking
    | Got(key: Key, val: Bytes)
    | Dumped(key: Key, val: Bytes)
    | Comparing(key: Key, val: Bytes, names: seq<Bytes>, status: seq<int>)
    | Differs(key: Key)

  datatype State = State(
    zk: Tree,
    dataW: set<Loc>,                      // data watches
    childW: set<Loc>,                     // child-list watches
    events: seq<Event>,
    handler: Handler,
    work: Queue<Key>,
    pending: set<Key>,
    worker: Worker,
    gray: map<Key, Bytes>,
    grayThread: GrayThread,
    assist: Assist,
    table: map<Key, Bytes>,
    unswept: set<Key>,                    // keys of an inherited table that no thread has taken up yet
    dropped: set<Key>,                    // services that lost a test for a changed child since their list was read
    disturbed: bool,                      // the assistant's comparison of a service no longer stands by itself
    triggers: Queue<Trigger>,
    triggerVals: map<Trigger, Bytes>,
    dumping: Option<(Trigger, Bytes)>,    // popped by the trigger thread
    dump: map<Key, Bytes>,
    seen: set<(Key, Bytes)>)              // every value ever obtained for a key, and the initial ones

  /** A fresh agent on a table and a dump left by an earlier one. */
  ghost predicate Init(s: State) {
    && TreeWf(s.zk) && s.dataW == {} && s.childW == {} && s.events == [] && s.handler == Testing([])
    && s.work == Queue([], {}) && s.pending == {} && s.worker == Idle
    && s.gray == map[] && s.grayThread == Queueing([]) && s.assist == Walking
    && s.unswept == s.table.Keys && s.dropped == {} && !s.disturbed
    && s.triggers == Queue([], {}) && s.triggerVals == map[] && s.dumping == None
    && s.seen == (set k | k in s.table :: (k, s.table[k])) + (set k | k in s.dump :: (k, s.dump[k]))
  }

  // ---- the environment

  function Fired(watched: bool, e: Event): seq<Event> {
    if watched then [e] else []
  }

  /** The data of a node is set. */
  ghost predicate ZkSets(s: State, s': State, l: Loc, data: Bytes) {
    && l in s.zk
    && s' == s.(zk := s.zk[l := s.zk[l].(data := data)],
                dataW := s.dataW - {l},
                events := s.events + Fired(l in s.dataW, Changed(l)))
  }

  /** The tree with child `name` put under p. */
  function Grown(zk: Tree, p: Loc, name: Bytes, data: Bytes, names': seq<Bytes>): Tree
    requires p in zk
  {
    zk[p := zk[p].(children := names')][ChildAt(p, name) := ZNode(data, [])]
  }

  /** The tree without child `name` of p. */
  function Pruned(zk: Tree, p: Loc, name: Bytes, names': seq<Bytes>): Tree
    requires p in zk
  {
    zk[p := zk[p].(children := names')] - {ChildAt(p, name)}
  }

  ghost predicate ZkCreates(s: State, s': State, p: Loc, name: Bytes, data: Bytes, names': seq<Bytes>) {
    && p in s.zk && name != [] && SLASH !in name && ChildAt(p, name) !in s.zk
    && Ascending(names') && (forall x :: x in names' <==> x in s.zk[p].children || x == name)
    && s' == s.(zk := Grown(s.zk, p, name, data, names'),
                childW := s.childW - {p},
                events := s.events + Fired(p in s.childW, Child(p)))
  }

  ghost predicate ZkDeletes(s: State, s': State, p: Loc, name: Bytes, names': seq<Bytes>) {
    var c := ChildAt(p, name);
    && p in s.zk && name in s.zk[p].children && c in s.zk && s.zk[c].children == []
    && Ascending(names') && (forall x :: x in names' <==> x in s.zk[p].children && x != name)
    && s' == s.(zk := Pruned(s.zk, p, name, names'),
                dataW := s.dataW - {c},
                childW := s.childW - {c, p},
                events := s.events + Fired(c in s.dataW || c in s.childW, Deleted(c)) + Fired(p in s.childW, Child(p)))
  }

  ghost predicate ClientAsks(s: State, s': State, k: Key) {
    s' == s.(work := s.work.Push(k))
  }

  /** Removals from the table by other commands. */
  ghost predicate TableShrinks(s: State, s': State, table': map<Key, Bytes>) {
    && (forall k :: k in table' ==> k in s.table && table'[k] == s.table[k])
    && s' == s.(table := table')
  }

  /** The clear command empties the dump after the table. */
  ghost predicate DumpClears(s: State, s': State) {
    s' == s.(dump := map[])
  }

  // ---- the callback

  ghost predicate Delivers(s: State, s': State) {
    && s.handler == Testing([]) && s.events != []
    && s' == s.(events := s.events[1..], handler := Testing(Tests(s.events[0])))
  }

  ghost predicate TestsPending(s: State, s': State) {
    && s.handler.Testing? && s.handler.todo != []
    && s' == s.(handler := if s.handler.todo[0].pendingKey in s.pending then Adding(s.handler.todo)
                           else Pended(s.handler.todo))
  }

  /** The assistant's comparison of service k no longer stands by itself. */
  function Disturbs(s: State, k: Key): bool {
    s.disturbed || (s.assist.Comparing? && s.assist.key == k)
  }

  ghost predicate TestsTable(s: State, s': State) {
    && s.handler.Pended? && s.handler.todo != []
    && var t := s.handler.todo[0];
       var found := t.tableKey in s.table;
       var drops := !found && t != Own(t.tableKey);
       s' == s.(handler := if found then Adding(s.handler.todo) else Testing(s.handler.todo[1..]),
                dropped := if drops then s.dropped + {t.tableKey} else s.dropped,
                disturbed := if drops then Disturbs(s, t.tableKey) else s.disturbed)
  }

  ghost predicate HandlerAdds(s: State, s': State) {
    && s.handler.Adding? && s.handler.todo != []
    && s' == s.(work := s.work.Push(s.handler.todo[0].tableKey), handler := Testing(s.handler.todo[1..]))
  }

  // ---- the worker

  ghost predicate Dequeues(s: State, s': State) {
    && s.worker.Idle? && s.work.order != []
    && s' == s.(work := s.work.Pop(), unswept := s.unswept - {s.work.order[0]}, worker := Dequeued(s.work.order[0]))
  }

  ghost predicate AddsPending(s: State, s': State) {
    && s.worker.Dequeued?
    && s' == s.(pending := s.pending + {s.worker.key}, worker := Checking(s.worker.key))
  }

  ghost predicate ChecksGray(s: State, s': State) {
    && s.worker.Checking?
    && var k := s.worker.key;
       s' == s.(worker := if k in s.gray then GrayWriting(k, s.gray[k]) else Fetching(k))
  }

  /** A write to the table: stored, or refused with the key absent; other keys may be evicted. */
  ghost predicate Wrote(table: map<Key, Bytes>, table': map<Key, Bytes>, k: Key, v: Bytes, stored: bool) {
    && (if stored then k in table' && table'[k] == v else k !in table')
    && forall x :: x in table' && x != k ==> x in table && table'[x] == table[x]
  }

  ghost predicate Stored(s: State, s': State, k: Key, v: Bytes, table': map<Key, Bytes>, trigger: bool) {
    && Wrote(s.table, table', k, v, true)
    && s' == s.(table := table', worker := if trigger then Triggering(k, AddOrModify(k), v) else Finishing(k))
  }

  ghost predicate SameValue(s: State, s': State, k: Key, v: Bytes) {
    && k in s.table && s.table[k] == v
    && s' == s.(worker := Finishing(k))
  }

  ghost predicate Refused(s: State, s': State, k: Key, v: Bytes, table': map<Key, Bytes>) {
    && Wrote(s.table, table', k, v, false)
    && s' == s.(table := table', worker := Finishing(k))
  }

  /** The outcome of a write: newly stored, perhaps with a trigger, the same value already there, or refused. */
  ghost predicate WritesThen(s: State, s': State, k: Key, v: Bytes, table': map<Key, Bytes>, trigger: bool) {
    Stored(s, s', k, v, table', trigger) || SameValue(s, s', k, v) || Refused(s, s', k, v, table')
  }

  ghost predicate WritesGray(s: State, s': State, table': map<Key, Bytes>) {
    s.worker.GrayWriting? && WritesThen(s, s', s.worker.key, s.worker.val, table', true)
  }

  /** Reading the data of an existing node sets the data watch on it. */
  function DataWatched(s: State, c: Loc): set<Loc> {
    if c in s.zk then s.dataW + {c} else s.dataW
  }

  /** Listing an existing node sets the list watch on it. */
  function ListWatched(s: State, l: Loc): set<Loc> {
    if l in s.zk then s.childW + {l} else s.childW
  }

  function WatchingData(s: State, c: Loc): State {
    s.(dataW := DataWatched(s, c))
  }

  /** The state once a node or batch key was read. */
  function Watching(s: State, k: Key): State {
    s.(dataW := if k.kind == Node then DataWatched(s, At(k)) else s.dataW,
       childW := if k.kind == Node then s.childW else ListWatched(s, At(k)))
  }

  function SeenWith(seen: set<(Key, Bytes)>, w: Worker): set<(Key, Bytes)> {
    if w.Writing? then seen + {(w.key, w.val)} else seen
  }

  /** The worker goes on to stage w. */
  function Obtained(s: State, w: Worker): State {
    s.(worker := w, seen := SeenWith(s.seen, w))
  }

  /** One call reads a node's data or a batch node's children and sets the watch. */
  ghost predicate Fetches(s: State, s': State) {
    && s.worker.Fetching? && s.worker.key.kind != Service && Readable(s.worker.key)
    && var k := s.worker.key;
       s' == Obtained(Watching(s, k), match Held(s.zk, k) case Some(v) => Writing(k, v) case None => Removing(k))
  }

  /** A service whose statuses are all read is written; otherwise the next status is to be read. */
  function NextRead(k: Key, names: seq<Bytes>, status: seq<int>): Worker
    requires |status| <= |names|
  {
    if |status| == |names| then Writing(k, ServiceValue(k, names, status)) else Statusing(k, names, status)
  }

  /** The first call for a service reads the list of its children and sets the watch on the list. */
  ghost predicate Lists(s: State, s': State) {
    && s.worker.Fetching? && s.worker.key.kind == Service && Readable(s.worker.key)
    && var k := s.worker.key;
       s' == Obtained(s.(childW := ListWatched(s, At(k)), dropped := s.dropped - {k}, disturbed := Disturbs(s, k)),
                      if At(k) in s.zk then NextRead(k, s.zk[At(k)].children, []) else Removing(k))
  }

  /** Each further call reads one child. A child that is gone or has no valid status ends the processing. */
  ghost predicate ReadsStatus(s: State, s': State) {
    && s.worker.Statusing? && |s.worker.status| < |s.worker.names|
    && var k, names, status := s.worker.key, s.worker.names, s.worker.status;
       var c := ChildAt(At(k), names[|status|]);
       s' == Obtained(WatchingData(s, c), match StatusAt(s.zk, c)
                                          case Some(x) => NextRead(k, names, status + [x])
                                          case None => Finishing(k))
  }

  /** A key without an idc or a path is not read. */
  ghost predicate SkipsEmpty(s: State, s': State) {
    && s.worker.Fetching? && !Readable(s.worker.key)
    && s' == s.(worker := Finishing(s.worker.key))
  }

  ghost predicate Writes(s: State, s': State, table': map<Key, Bytes>) {
    s.worker.Writing? && WritesThen(s, s', s.worker.key, s.worker.val, table', true)
  }

  ghost predicate Removes(s: State, s': State) {
    && s.worker.Removing?
    && var k := s.worker.key;
       s' == s.(table := s.table - {k}, worker := Triggering(k, Removed(k), []))
  }

  /** Queues a wanted trigger unless it is queued already. */
  function PushTrigger(s: State, wanted: bool, t: Trigger, v: Bytes): State {
    var absent := wanted && t !in s.triggerVals;
    s.(triggers := if absent then Queue(s.triggers.order + [t], s.triggers.members + {t}) else s.triggers,
       triggerVals := if absent then s.triggerVals[t := v] else s.triggerVals)
  }

  ghost predicate AddsTrigger(s: State, s': State) {
    && s.worker.Triggering?
    && s' == PushTrigger(s, true, s.worker.trigger, s.worker.val).(worker := Finishing(s.worker.key))
  }

  ghost predicate DelsPending(s: State, s': State) {
    && s.worker.Finishing?
    && s' == s.(pending := s.pending - {s.worker.key}, worker := Idle)
  }

  // ---- the gray thread

  /** The first value listed for each key, unless the key is gray already. */
  function GrayInserted(gray: map<Key, Bytes>, nodes: seq<(Key, Bytes)>): map<Key, Bytes>
    decreases |nodes|
  {
    if nodes == [] then gray
    else GrayInserted(if nodes[0].0 in gray then gray else gray[nodes[0].0 := nodes[0].1], nodes[1..])
  }

  function FirstOf(nodes: seq<(Key, Bytes)>): (ks: seq<Key>)
    ensures |ks| == |nodes| && forall i :: 0 <= i < |nodes| ==> ks[i] == nodes[i].0
  {
    seq(|nodes|, i requires 0 <= i < |nodes| => nodes[i].0)
  }

  ghost predicate GraySets(s: State, s': State, nodes: seq<(Key, Bytes)>) {
    && s.grayThread == Queueing([])
    && s' == s.(gray := GrayInserted(s.gray, nodes), grayThread := Queueing(FirstOf(nodes)),
                seen := s.seen + (set n | n in nodes))
  }

  /** A failed read of the notify content leaves the nodes parsed so far to be queued. */
  ghost predicate GrayFails(s: State, s': State, todo: seq<Key>) {
    && s.grayThread == Queueing([])
    && s' == s.(grayThread := Queueing(todo))
  }

  ghost predicate GrayLists(s: State, s': State, todo: seq<Key>) {
    && s.grayThread == Queueing([])
    && (set k | k in todo) == s.gray.Keys
    && s' == s.(grayThread := Listed(todo))
  }

  ghost predicate GrayClears(s: State, s': State) {
    && s.grayThread.Listed?
    && s' == s.(gray := map[], grayThread := Queueing(s.grayThread.todo))
  }

  ghost predicate GrayAdds(s: State, s': State) {
    && s.grayThread.Queueing? && s.grayThread.todo != []
    && s' == s.(work := s.work.Push(s.grayThread.todo[0]), grayThread := Queueing(s.grayThread.todo[1..]))
  }

  // ---- the assistant

  ghost predicate AssistReads(s: State, s': State, k: Key) {
    && s.assist.Walking? && k in s.table
    && s' == s.(assist := Got(k, s.table[k]))
  }

  ghost predicate AssistDumps(s: State, s': State) {
    && s.assist.Got?
    && s' == s.(dump := s.dump[s.assist.key := s.assist.val], assist := Dumped(s.assist.key, s.assist.val))
  }

  /** The assistant goes on to stage a; a key it leaves without a difference counts as looked at. */
  function Goes(s: State, k: Key, a: Assist): State {
    s.(assist := a, unswept := if a.Walking? then s.unswept - {k} else s.unswept)
  }

  /** What a complete answer from ZooKeeper means for the value read from the table. */
  function Compared(k: Key, val: Bytes, answer: Option<Bytes>): Assist {
    if answer == Some(val) then Walking else Differs(k)
  }

  /** Reads a node or batch key from ZooKeeper, which sets the watch, and compares. */
  ghost predicate AssistCompares(s: State, s': State) {
    && s.assist.Dumped? && s.assist.key.kind != Service && Readable(s.assist.key)
    && var k := s.assist.key;
       s' == Goes(Watching(s, k), k, Compared(k, s.assist.val, Held(s.zk, k)))
  }

  /** A service whose statuses are all read is compared; otherwise the next status is to be read. */
  function NextCompare(k: Key, val: Bytes, names: seq<Bytes>, status: seq<int>): Assist
    requires |status| <= |names|
  {
    if |status| == |names| then Compared(k, val, Some(ServiceValue(k, names, status)))
    else Comparing(k, val, names, status)
  }

  ghost predicate AssistLists(s: State, s': State) {
    && s.assist.Dumped? && s.assist.key.kind == Service && Readable(s.assist.key)
    && var k := s.assist.key;
       s' == Goes(s.(childW := ListWatched(s, At(k)), disturbed := false), k,
                  if At(k) in s.zk then NextCompare(k, s.assist.val, s.zk[At(k)].children, []) else Differs(k))
  }

  /** A child that is gone or has no valid status ends the comparison: no difference is found. */
  ghost predicate AssistStatus(s: State, s': State) {
    && s.assist.Comparing? && |s.assist.status| < |s.assist.names|
    && var k, names, status := s.assist.key, s.assist.names, s.assist.status;
       var c := ChildAt(At(k), names[|status|]);
       s' == Goes(WatchingData(s, c), k, match StatusAt(s.zk, c)
                                         case Some(x) => NextCompare(k, s.assist.val, names, status + [x])
                                         case None => Walking)
  }

  ghost predicate AssistSkips(s: State, s': State) {
    && s.assist.Dumped? && !Readable(s.assist.key)
    && s' == s.(assist := Walking, unswept := s.unswept - {s.assist.key})
  }

  ghost predicate AssistAdds(s: State, s': State) {
    && s.assist.Differs?
    && s' == s.(work := s.work.Push(s.assist.key), unswept := s.unswept - {s.assist.key}, assist := Walking)
  }

  // ---- the trigger thread

  ghost predicate PopsTrigger(s: State, s': State) {
    && s.dumping.None? && s.triggers.order != [] && s.triggers.order[0] in s.triggerVals
    && var t := s.triggers.order[0];
       s' == s.(triggers := s.triggers.Pop(), triggerVals := s.triggerVals - {t},
                dumping := Some((t, s.triggerVals[t])))
  }

  /** The trigger thread's write to the dump. */
  function DumpWritten(s: State, t: Trigger, v: Bytes): State {
    s.(dumping := None,
       dump := match t
               case AddOrModify(k) => s.dump[k := v]
               case Removed(k) => s.dump - {k}
               case Reset(_) => s.dump)
  }

  /** Writes or deletes in the dump; a feedback that timed out is queued again as a reset. */
  ghost predicate Dumps(s: State, s': State, again: bool) {
    && s.dumping.Some?
    && var t, v := s.dumping.value.0, s.dumping.value.1;
       s' == PushTrigger(DumpWritten(s, t, v), again && !t.Removed?, Reset(t.key), v)
  }

  // ---- failures

  /** A failed status read ends the processing; after any other failed read the dump is asked. */
  ghost predicate FetchFails(s: State, s': State, noHandle: bool) {
    && (s.worker.Fetching? || s.worker.Statusing?)
    && s' == s.(worker := if noHandle || s.worker.Statusing? then Finishing(s.worker.key) else Reading(s.worker.key))
  }

  ghost predicate ReadsDump(s: State, s': State) {
    && s.worker.Reading?
    && var k := s.worker.key;
       s' == s.(worker := if k in s.dump then Restoring(k, s.dump[k]) else Finishing(k))
  }

  ghost predicate Restores(s: State, s': State, table': map<Key, Bytes>) {
    s.worker.Restoring? && WritesThen(s, s', s.worker.key, s.worker.val, table', false)
  }

  ghost predicate AssistFails(s: State, s': State) {
    (s.assist.Dumped? || s.assist.Comparing?) && s' == s.(assist := Walking)
  }

  /** A lost session takes the watches with it. */
  ghost predicate SessionLost(s: State, s': State, dataW': set<Loc>, childW': set<Loc>) {
    dataW' <= s.dataW && childW' <= s.childW && s' == s.(dataW := dataW', childW := childW')
  }

  // ---- runs

  ghost predicate HandlerStep(s: State, s': State) {
    Delivers(s, s') || TestsPending(s, s') || TestsTable(s, s') || HandlerAdds(s, s')
  }

  ghost predicate WorkerStep(s: State, s': State) {
    || Dequeues(s, s') || AddsPending(s, s') || ChecksGray(s, s')
    || (exists t :: WritesGray(s, s', t)) || Fetches(s, s') || Lists(s, s') || ReadsStatus(s, s') || SkipsEmpty(s, s')
    || (exists t :: Writes(s, s', t)) || Removes(s, s') || AddsTrigger(s, s') || DelsPending(s, s')
  }

  ghost predicate GrayStep(s: State, s': State) {
    || (exists n :: GraySets(s, s', n)) || (exists t :: GrayFails(s, s', t)) || (exists t :: GrayLists(s, s', t))
    || GrayClears(s, s') || GrayAdds(s, s')
  }

  ghost predicate AssistStep(s: State, s': State) {
    || (exists k :: AssistReads(s, s', k)) || AssistDumps(s, s') || AssistCompares(s, s')
    || AssistLists(s, s') || AssistStatus(s, s') || AssistSkips(s, s') || AssistAdds(s, s')
  }

  ghost predicate TriggerStep(s: State, s': State) {
    PopsTrigger(s, s') || exists again :: Dumps(s, s', again)
  }

  ghost predicate EnvStep(s: State, s': State) {
    || (exists l, data :: ZkSets(s, s', l, data))
    || (exists p, name, data, names' :: ZkCreates(s, s', p, name, data, names'))
    || (exists p, name, names' :: ZkDeletes(s, s', p, name, names'))
    || (exists k :: ClientAsks(s, s', k)) || (exists t :: TableShrinks(s, s', t)) || DumpClears(s, s')
  }

  /** One step of any thread, ZooKeeper answering every call. */
  ghost predicate Step(s: State, s': State) {
    HandlerStep(s, s') || WorkerStep(s, s') || GrayStep(s, s') || AssistStep(s, s') || TriggerStep(s, s')
      || EnvStep(s, s')
  }

  ghost predicate FailureStep(s: State, s': State) {
    || (exists h :: FetchFails(s, s', h)) || ReadsDump(s, s') || (exists t :: Restores(s, s', t))
    || AssistFails(s, s') || (exists d, c :: SessionLost(s, s', d, c))
  }

  ghost predicate GoodStep(run: seq<State>, i: nat) {
    i + 1 < |run| ==> Step(run[i], run[i + 1])
  }

  /** A run in which ZooKeeper never fails. */
  ghost predicate GoodRun(run: seq<State>) {
    run != [] && Init(run[0]) && forall i: nat :: GoodStep(run, i)
  }

  ghost predicate AnyStep(run: seq<State>, i: nat) {
    i + 1 < |run| ==> Step(run[i], run[i + 1]) || FailureStep(run[i], run[i + 1])
  }

  /** A run with failures of ZooKeeper and lost sessions. */
  ghost predicate AnyRun(run: seq<State>) {
    run != [] && Init(run[0]) && forall i: nat :: AnyStep(run, i)
  }
}
