/** What the tables of the store say (node/persistence.py): each row read off the operations written to it,
    and how soon an operation is among them. */
module TableRows {
  import opened Base
  import opened SessionStates
  import opened Persistence

  // ---- Rows by the writes to them ------------------------------------------------------------------------

  /** The rows saved for a session, in order. */
  function SessionSaves(ops: seq<WriteOp>, sid: Sid): seq<SessionRow> {
    if ops == [] then []
    else
      var op := ops[|ops| - 1];
      SessionSaves(ops[..|ops| - 1], sid)
      + if op.SaveSession? && op.sid == sid then [SessionRow(op.nextSend, op.lastProcessed, op.room)] else []
  }

  /** The messages saved under a seq of a session since the last deletion there, with their times. */
  function OutboxSaves(ops: seq<WriteOp>, sid: Sid, n: int): seq<(Payload, real)> {
    if ops == [] then []
    else
      var before, op := OutboxSaves(ops[..|ops| - 1], sid, n), ops[|ops| - 1];
      if op.SaveOutbound? && op.sid == sid && op.seqNo == n then before + [(op.payload, op.sentAt)]
      else if op.DeleteOutbound? && op.sid == sid && op.seqNo == n then []
      else before
  }

  function LogSaves(ops: seq<WriteOp>, key: string, n: int): seq<LogRow> {
    if ops == [] then []
    else
      var op := ops[|ops| - 1];
      LogSaves(ops[..|ops| - 1], key, n)
      + if op.SaveMessageLog? && op.key == key && op.seqNo == n then [LogRow(op.payload, op.sentAt)] else []
  }

  function RoomSaves(ops: seq<WriteOp>, room: Room): seq<RoomRow> {
    if ops == [] then []
    else
      var op := ops[|ops| - 1];
      RoomSaves(ops[..|ops| - 1], room)
      + if op.UpsertRoom? && op.room == room then [RoomRow(op.name, op.maxCapacity, op.createdBy)] else []
  }

  function UserSaves(ops: seq<WriteOp>, user: string): seq<string> {
    if ops == [] then []
    else
      var op := ops[|ops| - 1];
      UserSaves(ops[..|ops| - 1], user) + if op.CreateUser? && op.username == user then [op.passwordHash] else []
  }

  /** Written into empty tables, a session row is the last one saved. */
  lemma {:induction false} SessionRowIsLastSave(ops: seq<WriteOp>, sid: Sid)
    ensures var t, s := ApplyAll(EmptyTables, ops), SessionSaves(ops, sid);
      if s == [] then sid !in t.sessions else sid in t.sessions && t.sessions[sid] == s[|s| - 1]
  {
    if ops != [] {
      SessionRowIsLastSave(ops[..|ops| - 1], sid);
    }
  }

  /** The log row is the last of `saves`. */
  ghost predicate LastLogged(t: Tables, key: string, n: int, saves: seq<LogRow>) {
    if saves == [] then (key, n) !in t.log else (key, n) in t.log && t.log[(key, n)] == saves[|saves| - 1]
  }

  lemma LogStep(t: Tables, op: WriteOp, key: string, n: int, saves: seq<LogRow>)
    requires LastLogged(t, key, n, saves)
    ensures LastLogged(Apply(t, op), key, n,
                       saves + if op.SaveMessageLog? && op.key == key && op.seqNo == n
                               then [LogRow(op.payload, op.sentAt)] else [])
  {
    if !op.SaveMessageLog? {
      assert saves + [] == saves;
    }
  }

  /** So is a log row. */
  lemma {:induction false} LogRowIsLastSave(ops: seq<WriteOp>, key: string, n: int)
    ensures LastLogged(ApplyAll(EmptyTables, ops), key, n, LogSaves(ops, key, n))
  {
    if ops != [] {
      var k := |ops| - 1;
      LogRowIsLastSave(ops[..k], key, n);
      LogStep(ApplyAll(EmptyTables, ops[..k]), ops[k], key, n, LogSaves(ops[..k], key, n));
    }
  }

  /** The row of the room is the first of `saves`. */
  ghost predicate FirstRoom(t: Tables, room: Room, saves: seq<RoomRow>) {
    if saves == [] then room !in t.rooms else room in t.rooms && t.rooms[room] == saves[0]
  }

  lemma RoomStep(t: Tables, op: WriteOp, room: Room, saves: seq<RoomRow>)
    requires FirstRoom(t, room, saves)
    ensures FirstRoom(Apply(t, op), room,
                      saves + if op.UpsertRoom? && op.room == room
                              then [RoomRow(op.name, op.maxCapacity, op.createdBy)] else [])
  {
    if !op.UpsertRoom? {
      assert saves + [] == saves;
    }
  }

  /** A room row is the first one saved: capacity and owner are never overwritten. */
  lemma {:induction false} RoomRowIsFirstSave(ops: seq<WriteOp>, room: Room)
    ensures FirstRoom(ApplyAll(EmptyTables, ops), room, RoomSaves(ops, room))
  {
    if ops != [] {
      var n := |ops| - 1;
      RoomRowIsFirstSave(ops[..n], room);
      RoomStep(ApplyAll(EmptyTables, ops[..n]), ops[n], room, RoomSaves(ops[..n], room));
    }
  }

  ghost predicate FirstUser(t: Tables, user: string, saves: seq<string>) {
    if saves == [] then user !in t.users else user in t.users && t.users[user] == saves[0]
  }

  lemma UserStep(t: Tables, op: WriteOp, user: string, saves: seq<string>)
    requires FirstUser(t, user, saves)
    ensures FirstUser(Apply(t, op), user,
                      saves + if op.CreateUser? && op.username == user then [op.passwordHash] else [])
  {
    if !op.CreateUser? {
      assert saves + [] == saves;
    }
  }

  /** And so is a user row. */
  lemma {:induction false} UserRowIsFirstSave(ops: seq<WriteOp>, user: string)
    ensures FirstUser(ApplyAll(EmptyTables, ops), user, UserSaves(ops, user))
  {
    if ops != [] {
      var n := |ops| - 1;
      UserRowIsFirstSave(ops[..n], user);
      UserStep(ApplyAll(EmptyTables, ops[..n]), ops[n], user, UserSaves(ops[..n], user));
    }
  }

  /** The outbox row has the payload of the first of `saves` and the time of the last, and counts those
      after the first as retries. */
  ghost predicate MadeBy(t: Tables, sid: Sid, n: int, saves: seq<(Payload, real)>) {
    if saves == [] then (sid, n) !in t.outbox
    else (sid, n) in t.outbox && t.outbox[(sid, n)] == OutboxRow(saves[0].0, saves[|saves| - 1].1, |saves| - 1)
  }

  lemma OutboxStep(t: Tables, op: WriteOp, sid: Sid, n: int, saves: seq<(Payload, real)>)
    requires MadeBy(t, sid, n, saves)
    ensures MadeBy(Apply(t, op), sid, n,
                    if op.SaveOutbound? && op.sid == sid && op.seqNo == n then saves + [(op.payload, op.sentAt)]
                    else if op.DeleteOutbound? && op.sid == sid && op.seqNo == n then [] else saves)
  {
  }

  /** An outbox row is made by the saves since its last deletion. */
  lemma {:induction false} OutboxRowIsByWrites(ops: seq<WriteOp>, sid: Sid, n: int)
    ensures MadeBy(ApplyAll(EmptyTables, ops), sid, n, OutboxSaves(ops, sid, n))
  {
    if ops != [] {
      var k := |ops| - 1;
      OutboxRowIsByWrites(ops[..k], sid, n);
      OutboxStep(ApplyAll(EmptyTables, ops[..k]), ops[k], sid, n, OutboxSaves(ops[..k], sid, n));
    }
  }

  // ---- How soon an operation is durable ------------------------------------------------------------------

  /** A turn with the flush interval over commits all that was taken off the queue. */
  lemma DueTurnCommits(st: Store)
    requires !st.exited && LoopGuard(st)
    ensures var st' := LoopTurn(st, true);
      && st'.pending == [] && Uncommitted(st') == Ops(st'.queue)
      && st'.queue == if st.queue == [] then [] else st.queue[1..]
  {
    assert [] + Ops(LoopTurn(st, true).queue) == Ops(LoopTurn(st, true).queue);
  }

  /** Before that nothing is committed unless the store is stopping. */
  lemma EarlyTurnCommitsNothing(st: Store)
    requires !st.stopping
    ensures LoopTurn(st, false).db == st.db && LoopTurn(st, false).exited == st.exited
    ensures Uncommitted(LoopTurn(st, false)) == Uncommitted(st)
  {
    if st.queue != [] {
      assert Uncommitted(Taken(st)) == Uncommitted(st);
    }
  }

  /** After some turns: what is left of the queue `q` stands in front, and behind it (or at all, if nothing is
      left) at most `puts` operations. */
  ghost predicate Advanced(q: seq<Option<WriteOp>>, turns: nat, now: seq<Option<WriteOp>>, puts: nat) {
    if turns <= |q| then q[turns..] <= now && |Ops(now[|q| - turns..])| <= puts else |Ops(now)| <= puts
  }

  lemma AdvancedByPut(q: seq<Option<WriteOp>>, turns: nat, now: seq<Option<WriteOp>>, puts: nat, op: Option<WriteOp>)
    requires Advanced(q, turns, now, puts)
    ensures Advanced(q, turns, now + [op], puts + if op.Some? then 1 else 0)
  {
    if turns <= |q| {
      var k := |q| - turns;
      assert (now + [op])[k..] == now[k..] + [op] && q[turns..] <= now + [op];
      OpsAppend(now[k..], op);
    } else {
      OpsAppend(now, op);
    }
  }

  lemma AdvancedByTurn(q: seq<Option<WriteOp>>, turns: nat, now: seq<Option<WriteOp>>, puts: nat)
    requires Advanced(q, turns, now, puts)
    ensures Advanced(q, turns + 1, if now == [] then [] else now[1..], puts)
  {
    if turns < |q| {
      assert now[1..][|q| - (turns + 1)..] == now[|q| - turns..];
      assert q[turns + 1..] == q[turns..][1..] <= now[1..];
    } else if turns == |q| {
      assert now[0..] == now;
    }
  }

  /** The same for a whole store: once the loop has ended, only what was put since can be waiting. */
  ghost predicate Progressed(q: seq<Option<WriteOp>>, turns: nat, st: Store, puts: nat) {
    if st.exited then |Uncommitted(st)| <= puts else Advanced(q, turns, st.queue, puts)
  }

  lemma StepProgresses(q: seq<Option<WriteOp>>, turns: nat, st: Store, puts: nat, e: WriterEvent)
    requires Progressed(q, turns, st, puts)
    ensures Progressed(q, turns + if e.Turn? then 1 else 0, WriterStep(st, e), puts + if e.Put? then 1 else 0)
  {
    match e
    case Put(op) =>
      if st.exited { EnqueueAppliesLast(st, op); } else { AdvancedByPut(q, turns, st.queue, puts, Some(op)); }
    case Stop =>
      if st.exited { StopKeepsEffective(st); } else { AdvancedByPut(q, turns, st.queue, puts, None); }
    case Turn(due) =>
      if !st.exited {
        AdvancedByTurn(q, turns, st.queue, puts);
      }
  }

  lemma AcceptedGrows(es: seq<WriterEvent>, e: WriterEvent)
    ensures WriterRun(es + [e]) == WriterStep(WriterRun(es), e)
    ensures |Accepted(es + [e])| == |Accepted(es)| + if e.Put? then 1 else 0
  {
    assert (es + [e])[..|es|] == es;
  }

  lemma {:induction false} RunProgresses(es: seq<WriterEvent>, more: seq<WriterEvent>)
    requires !WriterRun(es).exited
    ensures |Accepted(es)| <= |Accepted(es + more)|
    ensures Progressed(WriterRun(es).queue, Turns(more), WriterRun(es + more), |Accepted(es + more)| - |Accepted(es)|)
  {
    var q := WriterRun(es).queue;
    if more == [] {
      assert es + more == es && q[0..] == q && q[|q|..] == [];
    } else {
      var init, e := more[..|more| - 1], more[|more| - 1];
      RunProgresses(es, init);
      SplitLast(more);
      ConcatAssociates(es, init, [e]);
      AcceptedGrows(es + init, e);
      StepProgresses(q, Turns(init), WriterRun(es + init), |Accepted(es + init)| - |Accepted(es)|, e);
    }
  }

  /** Every operation becomes durable: whatever is put meanwhile and whatever the clock says, once the writer
      has taken as many turns as entries were waiting, the next turn with the flush interval over commits
      everything that had been accepted. */
  lemma AcceptedBecomesDurable(es: seq<WriterEvent>, more: seq<WriterEvent>) returns (p: nat)
    requires !WriterRun(es).exited && Turns(more) > |WriterRun(es).queue|
    ensures DurablePrefix(es + more + [Turn(true)], p) && p >= |Accepted(es)|
  {
    var all := es + more + [Turn(true)];
    p := GroupCommit(all);
    RunProgresses(es, more);
    AcceptedGrows(es + more, Turn(true));
    var st := WriterRun(es + more);
    if !st.exited && LoopGuard(st) {
      DueTurnCommits(st);
      OpsOfRest(st.queue);
    } else if !st.exited {
      assert st.queue == [] && st.pending == [];
    }
    assert |Uncommitted(WriterRun(all))| <= |Accepted(es + more)| - |Accepted(es)|;
  }

  lemma OpsOfRest(queue: seq<Option<WriteOp>>)
    ensures queue != [] ==> |Ops(queue[1..])| <= |Ops(queue)|
  {
  }
}
