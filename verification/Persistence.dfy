/** The write-behind store (node/persistence.py): tables with upsert semantics, a FIFO queue of
    write operations and a writer loop that commits them in batches.  A commit is atomic and
    error-free; payloads stand for their encoded bytes. */
module Persistence {
  import opened Base
  import opened SessionStates

  datatype WriteOp =
    | SaveSession(sid: Sid, nextSend: int, lastProcessed: int, room: Room)
    | SaveOutbound(sid: Sid, seqNo: int, payload: Payload, sentAt: real)
    | DeleteOutbound(sid: Sid, seqNo: int)
    | SaveMessageLog(key: string, seqNo: int, payload: Payload, sentAt: real)
    | UpsertRoom(room: Room, name: string, maxCapacity: int, createdBy: string)
    | CreateUser(username: string, passwordHash: string)

  datatype SessionRow = SessionRow(nextSend: int, lastProcessed: int, room: Room)
  datatype OutboxRow = OutboxRow(payload: Payload, sentAt: real, retryCount: int)
  datatype LogRow = LogRow(payload: Payload, sentAt: real)
  datatype RoomRow = RoomRow(name: string, maxCapacity: int, createdBy: string)

  datatype Tables = Tables(
    sessions: map<Sid, SessionRow>,
    outbox: map<(Sid, int), OutboxRow>,
    log: map<(string, int), LogRow>,
    rooms: map<Room, RoomRow>,
    users: map<string, string>)

  const EmptyTables := Tables(map[], map[], map[], map[], map[])

  /** One statement of `_apply_batch`.  A conflicting outbox row keeps its payload; rooms and
      users are only ever inserted. */
  function Apply(t: Tables, op: WriteOp): Tables {
    match op
    case SaveSession(sid, next, last, room) =>
      t.(sessions := t.sessions[sid := SessionRow(next, last, room)])
    case SaveOutbound(sid, n, payload, at) =>
      var row :=
        if (sid, n) in t.outbox then t.outbox[(sid, n)].(sentAt := at, retryCount := t.outbox[(sid, n)].retryCount + 1)
        else OutboxRow(payload, at, 0);
      t.(outbox := t.outbox[(sid, n) := row])
    case DeleteOutbound(sid, n) =>
      t.(outbox := t.outbox - {(sid, n)})
    case SaveMessageLog(key, n, payload, at) =>
      t.(log := t.log[(key, n) := LogRow(payload, at)])
    case UpsertRoom(room, name, cap, creator) =>
      if room in t.rooms then t else t.(rooms := t.rooms[room := RoomRow(name, cap, creator)])
    case CreateUser(user, hash) =>
      if user in t.users then t else t.(users := t.users[user := hash])
  }

  /** The operations one at a time, in order. */
  function ApplyAll(t: Tables, ops: seq<WriteOp>): Tables {
    if ops == [] then t else Apply(ApplyAll(t, ops[..|ops| - 1]), ops[|ops| - 1])
  }

  lemma {:induction false} ApplyAllConcat(t: Tables, a: seq<WriteOp>, b: seq<WriteOp>)
    ensures ApplyAll(t, a + b) == ApplyAll(ApplyAll(t, a), b)
  {
    if b == [] {
      assert a + b == a;
    } else {
      var n := |b| - 1;
      assert (a + b)[..|a + b| - 1] == a + b[..n];
      ApplyAllConcat(t, a, b[..n]);
    }
  }

  ghost predicate LogsNothing(ops: seq<WriteOp>) {
    forall i :: 0 <= i < |ops| ==> !ops[i].SaveMessageLog?
  }

  lemma {:induction false} UnloggedOpsKeepLog(t: Tables, ops: seq<WriteOp>)
    requires LogsNothing(ops)
    ensures ApplyAll(t, ops).log == t.log
  {
    if ops != [] {
      UnloggedOpsKeepLog(t, ops[..|ops| - 1]);
    }
  }

  // ---- The writer thread -------------------------------------------------------------------

  /** The store: committed tables, the batch being collected, the queue (with stop()'s wake-up
      sentinels), the stop flag, and whether the loop has returned. */
  datatype Store = Store(
    db: Tables,
    pending: seq<WriteOp>,
    queue: seq<Option<WriteOp>>,
    stopping: bool,
    exited: bool)

  const EmptyStore := Store(EmptyTables, [], [], false, false)

  function Ops(queue: seq<Option<WriteOp>>): seq<WriteOp> {
    if queue == [] then []
    else (if queue[0].Some? then [queue[0].value] else []) + Ops(queue[1..])
  }

  lemma {:induction false} OpsAppend(queue: seq<Option<WriteOp>>, op: Option<WriteOp>)
    ensures Ops(queue + [op]) == Ops(queue) + (if op.Some? then [op.value] else [])
  {
    if queue == [] {
      assert (queue + [op])[1..] == [];
    } else {
      assert (queue + [op])[1..] == queue[1..] + [op];
      OpsAppend(queue[1..], op);
      var first, last := if queue[0].Some? then [queue[0].value] else [], if op.Some? then [op.value] else [];
      ConcatAssociates(first, Ops(queue[1..]), last);
    }
  }

  /** Accepted but not yet committed, in order. */
  function Uncommitted(st: Store): seq<WriteOp> {
    st.pending + Ops(st.queue)
  }

  /** What the tables will be once everything accepted is committed. */
  function Effective(st: Store): Tables {
    ApplyAll(st.db, Uncommitted(st))
  }

  function Enqueued(st: Store, op: WriteOp): Store {
    st.(queue := st.queue + [Some(op)])
  }

  function EnqueuedAll(st: Store, ops: seq<WriteOp>): Store {
    if ops == [] then st else Enqueued(EnqueuedAll(st, ops[..|ops| - 1]), ops[|ops| - 1])
  }

  /** stop(): set the flag, wake the writer. */
  function Stopped(st: Store): Store {
    st.(stopping := true, queue := st.queue + [None])
  }

  predicate LoopGuard(st: Store) {
    !st.stopping || st.pending != [] || st.queue != []
  }

  /** The top half of an iteration: take one entry if there is one. */
  function Taken(st: Store): Store {
    if st.queue == [] then st
    else st.(queue := st.queue[1..],
             pending := if st.queue[0].Some? then st.pending + [st.queue[0].value] else st.pending)
  }

  /** The bottom half: commit the batch if the flush interval is over or the store is stopping. */
  function Flushed(st: Store, due: bool): Store {
    if st.pending != [] && (due || st.stopping) then st.(db := ApplyAll(st.db, st.pending), pending := []) else st
  }

  function LoopTurn(st: Store, due: bool): Store {
    if st.exited then st
    else if !LoopGuard(st) then st.(exited := true)
    else Flushed(Taken(st), due)
  }

  lemma LoopTurnKeepsEffective(st: Store, due: bool)
    ensures Effective(LoopTurn(st, due)) == Effective(st)
  {
    if !st.exited && LoopGuard(st) {
      var taken := Taken(st);
      if st.queue != [] {
        assert Uncommitted(taken) == Uncommitted(st);
      }
      ApplyAllConcat(taken.db, taken.pending, Ops(taken.queue));
      assert [] + Ops(taken.queue) == Ops(taken.queue);
    }
  }

  lemma EnqueueAppliesLast(st: Store, op: WriteOp)
    ensures Uncommitted(Enqueued(st, op)) == Uncommitted(st) + [op]
    ensures Effective(Enqueued(st, op)) == Apply(Effective(st), op)
  {
    OpsAppend(st.queue, Some(op));
    assert Uncommitted(Enqueued(st, op)) == Uncommitted(st) + [op];
    assert (Uncommitted(st) + [op])[..|Uncommitted(st)|] == Uncommitted(st);
  }

  lemma {:induction false} EnqueueAllAppliesLast(st: Store, ops: seq<WriteOp>)
    ensures EnqueuedAll(st, ops).db == st.db
    ensures Uncommitted(EnqueuedAll(st, ops)) == Uncommitted(st) + ops
    ensures Effective(EnqueuedAll(st, ops)) == ApplyAll(Effective(st), ops)
  {
    if ops != [] {
      var n := |ops| - 1;
      EnqueueAllAppliesLast(st, ops[..n]);
      EnqueueAppliesLast(EnqueuedAll(st, ops[..n]), ops[n]);
      assert Uncommitted(st) + ops == Uncommitted(st) + ops[..n] + [ops[n]];
    } else {
      assert Uncommitted(st) + ops == Uncommitted(st);
    }
  }

  lemma StopKeepsEffective(st: Store)
    ensures Uncommitted(Stopped(st)) == Uncommitted(st)
  {
    OpsAppend(st.queue, None);
    assert Ops(st.queue) + [] == Ops(st.queue);
  }

  // ---- Whole schedules of the writer ----------------------------------------------------------

  datatype WriterEvent = Put(op: WriteOp) | Turn(due: bool) | Stop

  function WriterStep(st: Store, e: WriterEvent): Store {
    match e
    case Put(op) => Enqueued(st, op)
    case Turn(due) => LoopTurn(st, due)
    case Stop => Stopped(st)
  }

  function WriterRun(es: seq<WriterEvent>): Store {
    if es == [] then EmptyStore else WriterStep(WriterRun(es[..|es| - 1]), es[|es| - 1])
  }

  /** Everything ever put on the queue, in order. */
  function Accepted(es: seq<WriterEvent>): seq<WriteOp> {
    if es == [] then []
    else
      var n := |es| - 1;
      Accepted(es[..n]) + (if es[n].Put? then [es[n].op] else [])
  }

  /** `p` operations are durable: the committed tables are the one-at-a-time fold of the first
      p accepted operations, and the rest is waiting in order. */
  ghost predicate DurablePrefix(es: seq<WriterEvent>, p: nat) {
    && p <= |Accepted(es)|
    && WriterRun(es).db == ApplyAll(EmptyTables, Accepted(es)[..p])
    && Uncommitted(WriterRun(es)) == Accepted(es)[p..]
  }

  lemma BatchIsNext(accepted: seq<WriteOp>, p: nat, batch: seq<WriteOp>, rest: seq<WriteOp>)
    requires p <= |accepted| && accepted[p..] == batch + rest
    ensures p + |batch| <= |accepted|
    ensures accepted[..p + |batch|] == accepted[..p] + batch && accepted[p + |batch|..] == rest
  {
    assert accepted == accepted[..p] + (batch + rest);
    ConcatAssociates(accepted[..p], batch, rest);
  }

  lemma TurnExtendsPrefix(base: Tables, st: Store, due: bool, accepted: seq<WriteOp>, p: nat) returns (q: nat)
    requires p <= |accepted| && st.db == ApplyAll(base, accepted[..p]) && Uncommitted(st) == accepted[p..]
    ensures p <= q <= |accepted|
    ensures LoopTurn(st, due).db == ApplyAll(base, accepted[..q])
    ensures Uncommitted(LoopTurn(st, due)) == accepted[q..]
  {
    q := p;
    if !st.exited && LoopGuard(st) {
      var taken := Taken(st);
      assert Uncommitted(taken) == Uncommitted(st);
      if taken.pending != [] && (due || st.stopping) {
        q := p + |taken.pending|;
        BatchIsNext(accepted, p, taken.pending, Ops(taken.queue));
        ApplyAllConcat(base, accepted[..p], taken.pending);
      }
    }
  }

  lemma PutKeepsPrefix(st: Store, op: WriteOp, accepted: seq<WriteOp>, p: nat)
    requires p <= |accepted| && st.db == ApplyAll(EmptyTables, accepted[..p]) && Uncommitted(st) == accepted[p..]
    ensures st.db == ApplyAll(EmptyTables, (accepted + [op])[..p])
    ensures Uncommitted(Enqueued(st, op)) == (accepted + [op])[p..]
  {
    EnqueueAppliesLast(st, op);
    assert (accepted + [op])[..p] == accepted[..p];
    assert (accepted + [op])[p..] == accepted[p..] + [op];
  }

  /** Group commit refines one-at-a-time: however the loop cuts the queue into batches, at every
      moment (so at every crash) the tables are the fold of a prefix of what was accepted. */
  lemma {:induction false} GroupCommit(es: seq<WriterEvent>) returns (p: nat)
    ensures DurablePrefix(es, p)
  {
    if es == [] {
      p := 0;
    } else {
      var n := |es| - 1;
      p := GroupCommit(es[..n]);
      assert !es[n].Put? ==> Accepted(es) == Accepted(es[..n]);
      assert EmptyStore.db == EmptyTables;
      match es[n] {
        case Put(op) => PutKeepsPrefix(WriterRun(es[..n]), op, Accepted(es[..n]), p);
        case Turn(due) => p := TurnExtendsPrefix(EmptyTables, WriterRun(es[..n]), due, Accepted(es[..n]), p);
        case Stop => StopKeepsEffective(WriterRun(es[..n]));
      }
    }
  }

  /** Committed plus waiting operations always add up to the one-at-a-time fold of everything. */
  lemma EffectiveIsFold(es: seq<WriterEvent>)
    ensures Effective(WriterRun(es)) == ApplyAll(EmptyTables, Accepted(es))
  {
    var p := GroupCommit(es);
    var all := Accepted(es);
    ApplyAllConcat(EmptyTables, all[..p], all[p..]);
    assert all[..p] + all[p..] == all;
  }

  /** When the loop returns, everything accepted by then is in the tables, in order; so is
      everything that was accepted before stop() was called. */
  lemma ExitCommitsEverything(es: seq<WriterEvent>, due: bool)
    requires !WriterRun(es).exited && WriterRun(es + [Turn(due)]).exited
    ensures WriterRun(es).stopping
    ensures WriterRun(es + [Turn(due)]).db == ApplyAll(EmptyTables, Accepted(es))
  {
    var p := GroupCommit(es);
    assert (es + [Turn(due)])[..|es|] == es;
    var st := WriterRun(es);
    assert !LoopGuard(st);
    assert Accepted(es)[p..] == [];
    assert Accepted(es)[..p] == Accepted(es);
  }

  /** How many more turns a stopping loop can take. */
  function TurnsLeft(st: Store): nat {
    if st.exited then 0 else 1 + |st.queue| + (if st.pending != [] then 1 else 0)
  }

  lemma StoppingTurn(st: Store, due: bool)
    requires st.stopping && !st.exited
    ensures LoopTurn(st, due).stopping && TurnsLeft(LoopTurn(st, due)) < TurnsLeft(st)
  {
  }

  function Turns(es: seq<WriterEvent>): nat {
    if es == [] then 0 else Turns(es[..|es| - 1]) + if es[|es| - 1].Turn? then 1 else 0
  }

  /** What every schedule after stop() comes to: the turns taken and those still to come are at most
      those there were to come at first and one for each entry put on the queue since. */
  ghost predicate Winding(st: Store, more: seq<WriterEvent>, st': Store) {
    st'.exited || (st'.stopping && Turns(more) + TurnsLeft(st') <= TurnsLeft(st) + |more| - Turns(more))
  }

  lemma {:induction false} StoppedLoopWinds(es: seq<WriterEvent>, more: seq<WriterEvent>)
    requires WriterRun(es).stopping
    ensures Turns(more) <= |more| && Winding(WriterRun(es), more, WriterRun(es + more))
  {
    if more == [] {
      assert es + more == es;
    } else {
      var n := |more| - 1;
      StoppedLoopWinds(es, more[..n]);
      var st := WriterRun(es + more[..n]);
      assert (es + more)[..|es + more| - 1] == es + more[..n];
      if more[n].Turn? && !st.exited {
        StoppingTurn(st, more[n].due);
      }
    }
  }

  /** Termination: after stop() every schedule with as many turns as TurnsLeft says, and one more for
      each entry put on the queue meanwhile, has ended the loop, whatever the clock says; a loop that
      has ended stays so. */
  lemma StoppingLoopTerminates(es: seq<WriterEvent>, more: seq<WriterEvent>)
    requires WriterRun(es).stopping
    ensures Turns(more) >= TurnsLeft(WriterRun(es)) + (|more| - Turns(more)) ==> WriterRun(es + more).exited
    ensures WriterRun(es).exited ==> WriterRun(es + more).exited
  {
    StoppedLoopWinds(es, more);
    if WriterRun(es).exited {
      ExitedStays(es, more);
    }
  }

  lemma {:induction false} ExitedStays(es: seq<WriterEvent>, more: seq<WriterEvent>)
    requires WriterRun(es).exited
    ensures WriterRun(es + more).exited
  {
    if more == [] {
      assert es + more == es;
    } else {
      assert (es + more)[..|es + more| - 1] == es + more[..|more| - 1];
      ExitedStays(es, more[..|more| - 1]);
    }
  }

  // ---- The class ------------------------------------------------------------------------------

  class OutboxStore {
    var db: Tables
    var pending: seq<WriteOp>
    var queue: seq<Option<WriteOp>>
    var stopping: bool
    var exited: bool

    function View(): Store
      reads this
    {
      Store(db, pending, queue, stopping, exited)
    }

    constructor (onDisk: Tables := EmptyTables)
      ensures View() == EmptyStore.(db := onDisk)
    {
      db, pending, queue, stopping, exited := onDisk, [], [], false, false;
    }

    method Put(op: WriteOp)
      modifies this
      ensures View() == Enqueued(old(View()), op)
    {
      queue := queue + [Some(op)];
    }

    method Stop()
      modifies this
      ensures View() == Stopped(old(View()))
    {
      stopping := true;
      queue := queue + [None];
    }

    /** One transaction: all of `ops`, in order. */
    method ApplyBatch(ops: seq<WriteOp>)
      modifies `db
      ensures db == ApplyAll(old(db), ops)
    {
      var i := 0;
      while i < |ops|
        invariant 0 <= i <= |ops|
        invariant db == ApplyAll(old(db), ops[..i])
      {
        assert ops[..i + 1][..i] == ops[..i];
        db := Apply(db, ops[i]);
        i := i + 1;
      }
      assert ops[..i] == ops;
    }

    /** One pass through the writer loop; `due` says whether the flush interval is over. */
    method WriterTurn(due: bool)
      requires !exited
      modifies this
      ensures View() == LoopTurn(old(View()), due)
    {
      if stopping && pending == [] && queue == [] {
        exited := true;
        return;
      }
      if queue != [] {
        var op := queue[0];
        queue := queue[1..];
        if op.Some? {
          pending := pending + [op.value];
        }
      }
      if pending != [] && (due || stopping) {
        ApplyBatch(pending);
        pending := [];
      }
    }

    /** The loop after stop(), with nothing more being put: it returns, whatever the clock says,
        with everything accepted in the tables. */
    method RunWriterLoop()
      requires stopping && !exited
      modifies this
      ensures exited && queue == [] && pending == []
      ensures db == Effective(old(View()))
    {
      while !exited
        invariant stopping && Effective(View()) == Effective(old(View()))
        invariant exited ==> queue == [] && pending == []
        decreases TurnsLeft(View())
      {
        var due: bool := *;
        LoopTurnKeepsEffective(View(), due);
        StoppingTurn(View(), due);
        WriterTurn(due);
      }
      assert Uncommitted(View()) == [];
    }
  }
}
