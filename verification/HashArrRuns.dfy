/** Whole runs of the hash table against the finite map. */
module HashArrRuns {
  import opened Basics
  import opened HashArrModel
  import opened HashArr

  datatype Op = Put(key: Bytes, value: Bytes) | Remove(key: Bytes) | Get(key: Bytes) | Exist(key: Bytes) | Clear

  datatype Reply = Done(ok: bool) | Found(value: Option<Bytes>)

  /** One operation on the finite map; ident maps a key to what lookups compare. */
  ghost function Apply(c: Contents, op: Op, id: Ident, maxSlots: nat): (Contents, Reply) {
    match op
    case Put(_, v) => var r := PutSpec(c, id, v, maxSlots); (r.contents, Done(r.ok))
    case Remove(_) => (c - {id}, Done(id in c))
    case Get(_) => (c, Found(if id in c then Some(c[id]) else None))
    case Exist(_) => (c, Done(id in c))
    case Clear => (map[], Done(true))
  }

  ghost function IdOf(t: Table, op: Op): Ident
    requires t.maxSlots >= 1
  {
    t.IdentOf(if op.Clear? then [] else op.key)
  }

  /**
   The limits of the slot fields, for the key length and the count of a leader; and no value
   without bytes unless the full table refuses it.
   */
  ghost predicate Admissible(t: Table, c: Contents, op: Op)
    requires t.maxSlots >= 1
  {
    op.Put? ==> |op.key| <= MAX_KEY && (|op.value| >= 1 || Total(c) >= t.maxSlots)
                && (t.IdentOf(op.key) in c || |HomeKeys(c, t.Home(op.key))| < MAX_COUNT)
  }

  /** The map after a run. */
  ghost function RunMap(t: Table, c: Contents, ops: seq<Op>): Contents
    requires t.maxSlots >= 1
  {
    if ops == [] then c
    else
      var n := |ops| - 1;
      Apply(RunMap(t, c, ops[..n]), ops[n], IdOf(t, ops[n]), t.maxSlots).0
  }

  /** Every operation of the run stays within the limits. */
  ghost predicate RunAdmissible(t: Table, c: Contents, ops: seq<Op>)
    requires t.maxSlots >= 1
  {
    forall i :: 0 <= i < |ops| ==> AdmissibleAt(t, c, ops, i)
  }

  ghost predicate AdmissibleAt(t: Table, c: Contents, ops: seq<Op>, i: nat)
    requires t.maxSlots >= 1 && i < |ops|
  {
    Admissible(t, RunMap(t, c, ops[..i]), ops[i])
  }

  /** One operation on the slots does what it does on the map. */
  method Do(t: Table, op: Op) returns (reply: Reply)
    requires t.Valid() && Admissible(t, t.Contents(), op)
    modifies t, t.slots
    ensures t.Valid()
    ensures (t.Contents(), reply) == Apply(old(t.Contents()), op, IdOf(t, op), t.maxSlots)
  {
    t.UsedTotal();
    match op
    case Put(key, value) =>
      var ok, _ := t.Put(key, value);
      reply := Done(ok);
    case Remove(key) =>
      var ok, _ := t.Remove(key);
      reply := Done(ok);
    case Get(key) =>
      var value, _ := t.Get(key);
      reply := Found(value);
    case Exist(key) =>
      var found := t.Exist(key);
      reply := Done(found);
    case Clear =>
      t.Clear();
      reply := Done(true);
  }

  /** The reply of the finite map to the operation at position i of a run. */
  ghost function ReplyAt(t: Table, c: Contents, ops: seq<Op>, i: nat): Reply
    requires t.maxSlots >= 1 && i < |ops|
  {
    Apply(RunMap(t, c, ops[..i]), ops[i], IdOf(t, ops[i]), t.maxSlots).1
  }

  lemma RunStep(t: Table, c: Contents, ops: seq<Op>, i: nat)
    requires t.maxSlots >= 1 && i < |ops|
    ensures RunMap(t, c, ops[..i + 1]) == Apply(RunMap(t, c, ops[..i]), ops[i], IdOf(t, ops[i]), t.maxSlots).0
  {
    assert ops[..i + 1][..i] == ops[..i];
  }

  /** The replies so far are those of the finite map. */
  ghost predicate Answered(t: Table, c: Contents, ops: seq<Op>, replies: seq<Reply>)
    requires t.maxSlots >= 1
  {
    |replies| <= |ops| && forall i :: 0 <= i < |replies| ==> replies[i] == ReplyAt(t, c, ops, i)
  }

  lemma AnsweredMore(t: Table, c: Contents, ops: seq<Op>, replies: seq<Reply>, reply: Reply)
    requires t.maxSlots >= 1 && Answered(t, c, ops, replies) && |replies| < |ops|
    requires reply == ReplyAt(t, c, ops, |replies|)
    ensures Answered(t, c, ops, replies + [reply])
  {
  }

  /** One operation of a run. */
  method Advance(t: Table, ghost c: Contents, ops: seq<Op>, i: nat) returns (reply: Reply)
    requires t.Valid() && i < |ops| && RunAdmissible(t, c, ops) && t.Contents() == RunMap(t, c, ops[..i])
    modifies t, t.slots
    ensures t.Valid() && t.Contents() == RunMap(t, c, ops[..i + 1]) && reply == ReplyAt(t, c, ops, i)
  {
    RunStep(t, c, ops, i);
    assert AdmissibleAt(t, c, ops, i);
    reply := Do(t, ops[i]);
  }

  /** Every run of operations gives the replies and the contents of the finite map. */
  method Run(t: Table, ops: seq<Op>) returns (replies: seq<Reply>)
    requires t.Valid() && RunAdmissible(t, t.Contents(), ops)
    modifies t, t.slots
    ensures t.Valid() && t.Contents() == RunMap(t, old(t.Contents()), ops)
    ensures |replies| == |ops| && Answered(t, old(t.Contents()), ops, replies)
  {
    ghost var c := t.Contents();
    replies := [];
    for i := 0 to |ops|
      invariant t.Valid() && t.Contents() == RunMap(t, c, ops[..i])
      invariant |replies| == i && Answered(t, c, ops, replies)
    {
      var reply := Advance(t, c, ops, i);
      AnsweredMore(t, c, ops, replies, reply);
      replies := replies + [reply];
    }
    assert ops[..|ops|] == ops;
  }

  // ---- what a run answers, by its history

  /** The operation may change what is stored for x. */
  ghost predicate Touches(t: Table, op: Op, x: Ident)
    requires t.maxSlots >= 1
  {
    op.Clear? || ((op.Put? || op.Remove?) && IdOf(t, op) == x)
  }

  ghost function ValueOf(c: Contents, x: Ident): Option<Bytes> {
    if x in c then Some(c[x]) else None
  }

  lemma UntouchedStep(t: Table, c: Contents, op: Op, x: Ident)
    requires t.maxSlots >= 1 && Admissible(t, c, op) && !Touches(t, op, x)
    ensures ValueOf(Apply(c, op, IdOf(t, op), t.maxSlots).0, x) == ValueOf(c, x)
  {
    if op.Put? && |op.value| >= 1 {
      var id := IdOf(t, op);
      PutFrame(c, id, op.value, t.maxSlots);
      var c' := PutSpec(c, id, op.value, t.maxSlots).contents;
      assert ValueOf(c' - {id}, x) == ValueOf(c', x) && ValueOf(c - {id}, x) == ValueOf(c, x);
    }
  }

  /** Operations on other keys leave a key as it is. */
  lemma {:induction false} Untouched(t: Table, c: Contents, ops: seq<Op>, j: nat, i: nat, x: Ident)
    requires t.maxSlots >= 1 && RunAdmissible(t, c, ops) && j <= i <= |ops|
    requires forall n :: j <= n < i ==> !Touches(t, ops[n], x)
    ensures ValueOf(RunMap(t, c, ops[..i]), x) == ValueOf(RunMap(t, c, ops[..j]), x)
    decreases i
  {
    if j < i {
      Untouched(t, c, ops, j, i - 1, x);
      RunStep(t, c, ops, i - 1);
      assert AdmissibleAt(t, c, ops, i - 1);
      UntouchedStep(t, RunMap(t, c, ops[..i - 1]), ops[i - 1], x);
    }
  }

  /** A lookup answers what was stored for its key at any time since which no operation touched the key. */
  lemma LookupAnswers(t: Table, c: Contents, ops: seq<Op>, j: nat, i: nat)
    requires t.maxSlots >= 1 && RunAdmissible(t, c, ops) && j <= i < |ops| && (ops[i].Get? || ops[i].Exist?)
    requires forall n :: j <= n < i ==> !Touches(t, ops[n], IdOf(t, ops[i]))
    ensures var was := ValueOf(RunMap(t, c, ops[..j]), IdOf(t, ops[i]));
            ReplyAt(t, c, ops, i) == if ops[i].Get? then Found(was) else Done(was.Some?)
  {
    Untouched(t, c, ops, j, i, IdOf(t, ops[i]));
  }

  /**
   A lookup after a stored put of its key, with neither another put nor a removal of the key
   nor a clear in between, finds the value put, byte for byte.
   */
  lemma LastWriteWins(t: Table, c: Contents, ops: seq<Op>, j: nat, i: nat)
    requires t.maxSlots >= 1 && RunAdmissible(t, c, ops) && j < i < |ops|
    requires ops[j].Put? && ReplyAt(t, c, ops, j) == Done(true)
    requires ops[i].Get? && IdOf(t, ops[i]) == IdOf(t, ops[j])
    requires forall n :: j < n < i ==> !Touches(t, ops[n], IdOf(t, ops[j]))
    ensures ReplyAt(t, c, ops, i) == Found(Some(ops[j].value))
  {
    RunStep(t, c, ops, j);
    assert AdmissibleAt(t, c, ops, j);
    if |ops[j].value| >= 1 {
      PutFrame(RunMap(t, c, ops[..j]), IdOf(t, ops[j]), ops[j].value, t.maxSlots);
    }
    LookupAnswers(t, c, ops, j + 1, i);
  }

  /**
   A lookup finds nothing after a clear, a removal of its key, or a put of its key that a
   table with a free slot refused.
   */
  lemma GoneStaysGone(t: Table, c: Contents, ops: seq<Op>, j: nat, i: nat)
    requires t.maxSlots >= 1 && RunAdmissible(t, c, ops) && j < i < |ops|
    requires ops[i].Get? && Touches(t, ops[j], IdOf(t, ops[i]))
    requires ops[j].Put? ==> ReplyAt(t, c, ops, j) == Done(false) && Total(RunMap(t, c, ops[..j])) < t.maxSlots
    requires forall n :: j < n < i ==> !Touches(t, ops[n], IdOf(t, ops[i]))
    ensures ReplyAt(t, c, ops, i) == Found(None)
  {
    RunStep(t, c, ops, j);
    assert AdmissibleAt(t, c, ops, j);
    if ops[j].Put? {
      PutFrame(RunMap(t, c, ops[..j]), IdOf(t, ops[j]), ops[j].value, t.maxSlots);
    }
    LookupAnswers(t, c, ops, j + 1, i);
  }

  /** A full table refuses a put, and the run goes on as if it had not been there. */
  lemma FullPutIgnored(t: Table, c: Contents, ops: seq<Op>, j: nat)
    requires t.maxSlots >= 1 && j < |ops| && ops[j].Put? && Total(RunMap(t, c, ops[..j])) >= t.maxSlots
    ensures ReplyAt(t, c, ops, j) == Done(false)
    ensures RunMap(t, c, ops[..j + 1]) == RunMap(t, c, ops[..j])
  {
    RunStep(t, c, ops, j);
  }
}
