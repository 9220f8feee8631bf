/** Memory against disk: in every run of a node the tables plus the waiting operations mirror
    the sessions in memory, and what a crash at any point of the write queue leaves behind. */
module Durability {
  import opened Base
  import opened SessionStates
  import opened Persistence
  import opened SessionManagers

  // ---- What it means for tables to mirror a session ---------------------------------------------

  /** The outbox rows of `sid` are exactly the buffered messages; the session row, once there is
      one, has its counter and room; and every buffered seq is below the counter. */
  ghost predicate Mirrors(t: Tables, sid: Sid, s: Session) {
    && WellKeyed(s.outbox)
    && (forall n :: n in s.outbox <==> (sid, n) in t.outbox)
    && (forall n :: n in s.outbox ==> t.outbox[(sid, n)].payload == s.outbox[n].payload)
    && (forall n :: n in s.outbox ==> n < s.nextSend)
    && (if sid in t.sessions then t.sessions[sid].nextSend == s.nextSend && t.sessions[sid].room == s.room
        else s.nextSend == 1 && s.outbox == map[])
  }

  /** Tables that do not know the session at all. */
  ghost predicate Absent(t: Tables, sid: Sid) {
    sid !in t.sessions && forall n: int :: (sid, n) !in t.outbox
  }

  /** The session and outbox rows of `sid` are the same in both. */
  ghost predicate SameFor(t: Tables, u: Tables, sid: Sid) {
    && (sid in t.sessions <==> sid in u.sessions)
    && (sid in t.sessions ==> t.sessions[sid] == u.sessions[sid])
    && (forall n: int :: (sid, n) in t.outbox <==> (sid, n) in u.outbox)
    && (forall n: int :: (sid, n) in t.outbox ==> t.outbox[(sid, n)] == u.outbox[(sid, n)])
  }

  /** The session whose rows an operation writes, if any. */
  function Owner(op: WriteOp): Option<Sid> {
    match op
    case SaveSession(sid, _, _, _) => Some(sid)
    case SaveOutbound(sid, _, _, _) => Some(sid)
    case DeleteOutbound(sid, _) => Some(sid)
    case _ => None
  }

  ghost predicate NoneOwnedBy(ops: seq<WriteOp>, sid: Sid) {
    forall i :: 0 <= i < |ops| ==> Owner(ops[i]) != Some(sid)
  }

  lemma {:induction false} UnownedOpsChangeNothing(t: Tables, ops: seq<WriteOp>, sid: Sid)
    requires NoneOwnedBy(ops, sid)
    ensures SameFor(t, ApplyAll(t, ops), sid)
  {
    if ops != [] {
      var n := |ops| - 1;
      UnownedOpsChangeNothing(t, ops[..n], sid);
      assert Owner(ops[n]) != Some(sid);
    }
  }

  // ---- Each operation keeps the mirror --------------------------------------------------------------

  lemma ApplyThree(t: Tables, a: WriteOp, b: WriteOp, c: WriteOp)
    ensures ApplyAll(t, [a]) == Apply(t, a)
    ensures ApplyAll(t, [a, b]) == Apply(Apply(t, a), b)
    ensures ApplyAll(t, [a, b, c]) == Apply(Apply(Apply(t, a), b), c)
  {
    assert [a, b, c][..2] == [a, b] && [a, b][..1] == [a] && [a][..0] == [];
  }

  lemma SendMirrors(t: Tables, sid: Sid, s: Session, payload: Payload, now: real)
    requires Mirrors(t, sid, s)
    ensures var e := SendEffect(sid, s, payload, now); Mirrors(ApplyAll(t, e.ops), sid, e.session)
  {
    var e := SendEffect(sid, s, payload, now);
    ApplyThree(t, e.ops[0], e.ops[1], e.ops[2]);
    assert (sid, s.nextSend) !in t.outbox;
  }

  lemma AckMirrors(t: Tables, sid: Sid, s: Session, n: int)
    requires Mirrors(t, sid, s)
    ensures var e := AckEffect(sid, s, n); Mirrors(ApplyAll(t, e.ops), sid, e.session)
  {
    var e := AckEffect(sid, s, n);
    if n in s.outbox {
      ApplyThree(t, e.ops[0], e.ops[0], e.ops[0]);
    } else {
      assert Acked(s, n).outbox == s.outbox;
    }
  }

  lemma ReceiveMirrors(t: Tables, sid: Sid, s: Session, n: int, payload: Payload, now: real)
    requires Mirrors(t, sid, s)
    ensures var e := ReceiveEffect(sid, s, n, payload, now); Mirrors(ApplyAll(t, e.ops), sid, e.session)
  {
    var e := ReceiveEffect(sid, s, n, payload, now);
    if ShouldProcess(s, n) {
      ApplyThree(t, e.ops[0], e.ops[1], e.ops[1]);
    }
  }

  lemma RoomMirrors(t: Tables, sid: Sid, s: Session, room: Room)
    requires Mirrors(t, sid, s)
    ensures var e := RoomEffect(sid, s, room); Mirrors(ApplyAll(t, e.ops), sid, e.session)
  {
    var e := RoomEffect(sid, s, room);
    ApplyThree(t, e.ops[0], e.ops[0], e.ops[0]);
  }

  /** A snapshot another node produced: its seqs are all below its counter. */
  ghost predicate WellFormed(snap: Snapshot) {
    forall m :: m in snap.outbox ==> m.seqNo < snap.nextSend
  }

  /** After saving some rows of a session that had none, the table has exactly those. */
  lemma {:induction false} SavedRows(t: Tables, sid: Sid, rows: seq<OutboundMessage>)
    requires DistinctSeqs(rows) && forall n: int :: (sid, n) !in t.outbox
    ensures var u := ApplyAll(t, SaveRows(sid, rows));
      && u.sessions == t.sessions
      && (forall n: int :: (sid, n) in u.outbox <==> n in Loaded(map[], rows))
      && (forall n: int :: (sid, n) in u.outbox ==>
            && u.outbox[(sid, n)].payload == Loaded(map[], rows)[n].payload
            && u.outbox[(sid, n)].sentAt == Loaded(map[], rows)[n].sentAt)
  {
    if rows != [] {
      var k := |rows| - 1;
      SavedRows(t, sid, rows[..k]);
      LoadedKeyed(rows[..k]);
      var ops := SaveRows(sid, rows[..k]);
      var last := SaveOutbound(sid, rows[k].seqNo, rows[k].payload, rows[k].sentAt);
      assert (ops + [last])[..|ops|] == ops;
      assert rows[k].seqNo !in Loaded(map[], rows[..k]);
    }
  }

  /** The outbox a snapshot leads to: keyed, and below the counter. */
  lemma AdoptedIsSound(sid: Sid, snap: Snapshot)
    requires WellFormed(snap)
    ensures Sound(HydrateEffect(sid, snap).session)
  {
    LoadedKeyed(snap.outbox);
    var outbox := Loaded(map[], snap.outbox);
    forall n | n in outbox ensures n < snap.nextSend {
      assert outbox[n] in snap.outbox && outbox[n].seqNo == n;
    }
  }

  lemma HydrateMirrors(t: Tables, sid: Sid, snap: Snapshot)
    requires WellFormed(snap) && forall n: int :: (sid, n) !in t.outbox
    ensures var e := HydrateEffect(sid, snap); Mirrors(ApplyAll(t, e.ops), sid, e.session)
  {
    var e := HydrateEffect(sid, snap);
    AdoptedIsSound(sid, snap);
    var rows := Listed(e.session.outbox);
    ListedDistinct(e.session.outbox);
    LoadedListed(e.session.outbox);
    ApplyAllConcat(t, [e.ops[0]], SaveRows(sid, rows));
    ApplyThree(t, e.ops[0], e.ops[0], e.ops[0]);
    SavedRows(Apply(t, e.ops[0]), sid, rows);
  }

  /** No outbox row of the session has reached its counter. */
  ghost predicate BelowCounter(t: Tables, sid: Sid)
    requires sid in t.sessions
  {
    forall n: int :: (sid, n) in t.outbox ==> n < t.sessions[sid].nextSend
  }

  /** With a positive watermark, recovery takes this message from the log. */
  predicate Relogged(t: Tables, sid: Sid, n: int)
    requires sid in t.sessions
  {
    t.sessions[sid].lastProcessed > 0 && n > t.sessions[sid].lastProcessed && (sid, n) in t.log
  }

  /** What recovery takes from the log is in the outbox anyway. */
  ghost predicate LogAddsNothing(t: Tables, sid: Sid)
    requires sid in t.sessions
  {
    forall n :: Relogged(t, sid, n) ==> (sid, n) in t.outbox && t.outbox[(sid, n)].payload == t.log[(sid, n)].payload
  }

  /** Recovery meets the tables exactly: a session read back mirrors its rows if and only if a
      session without a row has no outbox rows either, no outbox row has reached the counter,
      and a positive watermark finds nothing in the log that is not still in the outbox. */
  ghost predicate Clean(t: Tables, sid: Sid) {
    if sid !in t.sessions then forall n: int :: (sid, n) !in t.outbox
    else BelowCounter(t, sid) && LogAddsNothing(t, sid)
  }

  /** What recovery finds under a seq: the logged message, else the unacked one. */
  function RecoveredPayload(t: Tables, sid: Sid, n: int): Payload
    requires sid in t.sessions && ((sid, n) in t.outbox || Relogged(t, sid, n))
  {
    if Relogged(t, sid, n) then t.log[(sid, n)].payload else t.outbox[(sid, n)].payload
  }

  lemma RecoverAt(t: Tables, sid: Sid, room: Room, n: int)
    requires sid in t.sessions
    ensures var r := Recover(t, sid, room);
      && (n in r.outbox <==> (sid, n) in t.outbox || Relogged(t, sid, n))
      && (n in r.outbox ==> r.outbox[n].seqNo == n && r.outbox[n].payload == RecoveredPayload(t, sid, n))
  {
    var hist := HistoryRows(t, sid, t.sessions[sid].lastProcessed);
    assert n in hist <==> (sid, n) in t.log && n > t.sessions[sid].lastProcessed;
  }

  /** A recovered message has the time and retry count of the row it comes from; one from the log was
      never retried. */
  lemma RecoveredMessage(t: Tables, sid: Sid, room: Room, n: int)
    requires sid in t.sessions && n in Recover(t, sid, room).outbox
    ensures var m := Recover(t, sid, room).outbox[n];
      if t.sessions[sid].lastProcessed > 0 && n > t.sessions[sid].lastProcessed && (sid, n) in t.log
      then m == OutboundMessage(n, t.log[(sid, n)].payload, t.log[(sid, n)].sentAt, 0)
      else (sid, n) in t.outbox
           && var row := t.outbox[(sid, n)]; m == OutboundMessage(n, row.payload, row.sentAt, row.retryCount)
  {
    var hist := HistoryRows(t, sid, t.sessions[sid].lastProcessed);
    assert n in hist <==> (sid, n) in t.log && n > t.sessions[sid].lastProcessed;
  }

  lemma RecoverOutbox(t: Tables, sid: Sid, room: Room)
    requires sid in t.sessions
    ensures var r := Recover(t, sid, room);
      && WellKeyed(r.outbox)
      && (forall n :: n in r.outbox <==> (sid, n) in t.outbox || Relogged(t, sid, n))
      && (forall n :: n in r.outbox ==> r.outbox[n].payload == RecoveredPayload(t, sid, n))
  {
    var r := Recover(t, sid, room);
    forall n
      ensures n in r.outbox <==> (sid, n) in t.outbox || Relogged(t, sid, n)
      ensures n in r.outbox ==> r.outbox[n].seqNo == n && r.outbox[n].payload == RecoveredPayload(t, sid, n)
    {
      RecoverAt(t, sid, room, n);
    }
  }

  lemma CleanIsMirrored(t: Tables, sid: Sid, room: Room)
    requires Clean(t, sid)
    ensures Mirrors(t, sid, Recover(t, sid, room))
  {
    if sid in t.sessions {
      RecoverOutbox(t, sid, room);
    }
  }

  lemma MirroredIsClean(t: Tables, sid: Sid, room: Room)
    requires Mirrors(t, sid, Recover(t, sid, room))
    ensures Clean(t, sid)
  {
    var r := Recover(t, sid, room);
    if sid in t.sessions {
      forall n: int | (sid, n) in t.outbox ensures n < t.sessions[sid].nextSend {
        RecoverAt(t, sid, room, n);
        assert n in r.outbox;
      }
      forall n | Relogged(t, sid, n)
        ensures (sid, n) in t.outbox && t.outbox[(sid, n)].payload == t.log[(sid, n)].payload
      {
        RecoverAt(t, sid, room, n);
        assert n in r.outbox;
      }
    } else {
      forall n: int ensures (sid, n) !in t.outbox {
        assert n !in r.outbox;
      }
    }
  }

  lemma RecoveryIsFaithfulIffClean(t: Tables, sid: Sid, room: Room)
    ensures Mirrors(t, sid, Recover(t, sid, room)) <==> Clean(t, sid)
  {
    if Clean(t, sid) {
      CleanIsMirrored(t, sid, room);
    }
    if Mirrors(t, sid, Recover(t, sid, room)) {
      MirroredIsClean(t, sid, room);
    }
  }

  /** Every unacked row of the session is in the recovered outbox, with its payload. */
  ghost predicate UnackedSurvive(t: Tables, sid: Sid, r: Session) {
    forall n: int :: (sid, n) in t.outbox ==> n in r.outbox && r.outbox[n].payload == t.outbox[(sid, n)].payload
  }

  /** No unacked message is lost in recovery if and only if the session has a row (or nothing unacked)
      and every unacked row above a positive watermark agrees with the log row of its seq. */
  lemma UnackedSurviveIff(t: Tables, sid: Sid, room: Room)
    ensures UnackedSurvive(t, sid, Recover(t, sid, room)) <==>
            if sid !in t.sessions then forall n: int :: (sid, n) !in t.outbox
            else forall n: int :: (sid, n) in t.outbox && Relogged(t, sid, n) ==>
                   t.log[(sid, n)].payload == t.outbox[(sid, n)].payload
  {
    var r := Recover(t, sid, room);
    if sid in t.sessions {
      forall n: int | (sid, n) in t.outbox
        ensures n in r.outbox && r.outbox[n].payload == RecoveredPayload(t, sid, n)
      {
        RecoverAt(t, sid, room, n);
      }
    }
  }

  // ---- Runs of a node ------------------------------------------------------------------------------

  datatype Event =
    | Load(sid: Sid, room: Room)                                   // get_or_create
    | SetRoom(sid: Sid, room: Room)
    | SendMessage(sid: Sid, payload: Payload, now: real)
    | HandleAck(sid: Sid, seqNo: int)
    | ReceiveMessage(sid: Sid, seqNo: int, payload: Payload, now: real)
    | Hydrate(sid: Sid, snap: Snapshot)
    | NewConnection(sid: Sid)                                      // get_or_create, then reset_inbound
    | Retry(sid: Sid, seqNo: int, now: real)                       // mark_retried
    | Log(op: WriteOp)                                             // room log, room and user rows
    | Turn(due: bool)                                              // the writer thread
    | Crash                                                        // and restart on the same disk

  /** The change an event makes to its session, and the writes it queues. */
  function EffectOf(m: Manager, e: Event): Effect
    requires !e.Log? && !e.Turn? && !e.Crash?
  {
    var s := SessionOf(m, e.sid, if e.Load? then e.room else "general");
    match e
    case Load(_, _) => Effect(s, [])
    case SetRoom(sid, room) => RoomEffect(sid, s, room)
    case SendMessage(sid, p, now) => SendEffect(sid, s, p, now)
    case HandleAck(sid, n) => AckEffect(sid, s, n)
    case ReceiveMessage(sid, n, p, now) => ReceiveEffect(sid, s, n, p, now)
    case Hydrate(sid, snap) => HydrateEffect(sid, snap)
    case NewConnection(_) => Effect(Reset(s), [])
    case Retry(_, n, now) => Effect(Retried(s, n, now), [])
  }

  function Step(m: Manager, e: Event): Manager {
    match e
    case Log(op) => m.(store := Enqueued(m.store, op))
    case Turn(due) => m.(store := LoopTurn(m.store, due))
    case Crash => Manager(map[], [], EmptyStore.(db := m.store.db))
    case _ => Perform(m, e.sid, EffectOf(m, e))
  }

  function Run(es: seq<Event>): Manager {
    if es == [] then EmptyManager else Step(Run(es[..|es| - 1]), es[|es| - 1])
  }

  /** What callers respect: a snapshot is adopted only without a local record and comes from a
      node's session; logging never touches session or outbox rows. */
  ghost predicate Allowed(m: Manager, e: Event) {
    match e
    case Hydrate(sid, snap) => sid !in m.sessions && sid !in m.store.db.sessions && WellFormed(snap)
    case Log(op) => Owner(op).None?
    case _ => true
  }

  /** The event does not bring in a session that the tables cannot be met with. */
  ghost predicate CleanLoad(m: Manager, e: Event) {
    match e
    case Log(_) => true
    case Turn(_) => true
    case Crash => true
    case Hydrate(sid, _) => forall n: int :: (sid, n) !in m.store.db.outbox
    case _ => e.sid in m.sessions || Clean(m.store.db, e.sid)
  }

  /** The simulation: loaded sessions are mirrored by tables plus waiting writes, and nothing is
      waiting for a session that is not loaded. */
  ghost predicate Simulates(m: Manager) {
    && (forall sid :: sid in m.sessions ==> Mirrors(Effective(m.store), sid, m.sessions[sid]))
    && (forall sid :: sid !in m.sessions ==> NoneOwnedBy(Uncommitted(m.store), sid))
  }

  lemma EffectMirrors(t: Tables, m: Manager, e: Event)
    requires !e.Log? && !e.Turn? && !e.Crash?
    requires e.Hydrate? ==> WellFormed(e.snap) && forall n: int :: (e.sid, n) !in t.outbox
    requires !e.Hydrate? ==> Mirrors(t, e.sid, SessionOf(m, e.sid, if e.Load? then e.room else "general"))
    ensures Mirrors(ApplyAll(t, EffectOf(m, e).ops), e.sid, EffectOf(m, e).session)
  {
    var s := SessionOf(m, e.sid, if e.Load? then e.room else "general");
    match e
    case Load(_, _) =>
    case SetRoom(sid, room) => RoomMirrors(t, sid, s, room);
    case SendMessage(sid, p, now) => SendMirrors(t, sid, s, p, now);
    case HandleAck(sid, n) => AckMirrors(t, sid, s, n);
    case ReceiveMessage(sid, n, p, now) => ReceiveMirrors(t, sid, s, n, p, now);
    case Hydrate(sid, snap) => HydrateMirrors(t, sid, snap);
    case NewConnection(_) =>
    case Retry(_, n, now) =>
  }

  lemma {:induction false} SaveRowsOwned(sid: Sid, rows: seq<OutboundMessage>)
    ensures forall i :: 0 <= i < |SaveRows(sid, rows)| ==> Owner(SaveRows(sid, rows)[i]) == Some(sid)
  {
    if rows != [] {
      SaveRowsOwned(sid, rows[..|rows| - 1]);
    }
  }

  lemma HydrateOwned(sid: Sid, snap: Snapshot)
    ensures forall i :: 0 <= i < |HydrateEffect(sid, snap).ops| ==> Owner(HydrateEffect(sid, snap).ops[i]) == Some(sid)
  {
    SaveRowsOwned(sid, Listed(Loaded(map[], snap.outbox)));
  }

  lemma EffectOwned(m: Manager, e: Event, other: Sid)
    requires !e.Log? && !e.Turn? && !e.Crash? && other != e.sid
    ensures NoneOwnedBy(EffectOf(m, e).ops, other)
  {
    if e.Hydrate? {
      HydrateOwned(e.sid, e.snap);
    }
  }

  lemma SameMirrors(t: Tables, u: Tables, sid: Sid, s: Session)
    requires SameFor(t, u, sid) && Mirrors(t, sid, s)
    ensures Mirrors(u, sid, s)
  {
  }

  /** For a session that is not loaded, disk and mirror agree. */
  lemma UnloadedIsOnDisk(m: Manager, sid: Sid)
    requires Simulates(m) && sid !in m.sessions
    ensures SameFor(m.store.db, Effective(m.store), sid)
  {
    UnownedOpsChangeNothing(m.store.db, Uncommitted(m.store), sid);
  }

  lemma OthersKeepMirrors(m: Manager, e: Event, sid: Sid)
    requires !e.Log? && !e.Turn? && !e.Crash? && sid != e.sid && sid in m.sessions
    requires Mirrors(Effective(m.store), sid, m.sessions[sid])
    ensures Mirrors(ApplyAll(Effective(m.store), EffectOf(m, e).ops), sid, m.sessions[sid])
  {
    var t, ops := Effective(m.store), EffectOf(m, e).ops;
    EffectOwned(m, e, sid);
    UnownedOpsChangeNothing(t, ops, sid);
    SameMirrors(t, ApplyAll(t, ops), sid, m.sessions[sid]);
  }

  lemma OthersQueueNothing(m: Manager, e: Event, sid: Sid)
    requires !e.Log? && !e.Turn? && !e.Crash? && sid != e.sid && NoneOwnedBy(Uncommitted(m.store), sid)
    ensures NoneOwnedBy(Uncommitted(Perform(m, e.sid, EffectOf(m, e)).store), sid)
  {
    EnqueueAllAppliesLast(m.store, EffectOf(m, e).ops);
    EffectOwned(m, e, sid);
  }

  /** The session an event works on is mirrored, whether it was loaded or is read back cleanly. */
  lemma OwnIsMirrored(m: Manager, e: Event)
    requires !e.Log? && !e.Turn? && !e.Crash? && Simulates(m) && Allowed(m, e) && CleanLoad(m, e)
    ensures e.Hydrate? ==> Absent(Effective(m.store), e.sid)
    ensures !e.Hydrate? ==>
        Mirrors(Effective(m.store), e.sid, SessionOf(m, e.sid, if e.Load? then e.room else "general"))
  {
    if e.sid !in m.sessions {
      UnloadedIsOnDisk(m, e.sid);
      if !e.Hydrate? {
        ReadBackIsMirrored(m, e.sid, if e.Load? then e.room else "general");
      }
    }
  }

  lemma ReadBackIsMirrored(m: Manager, sid: Sid, room: Room)
    requires Simulates(m) && sid !in m.sessions && Clean(m.store.db, sid)
    ensures Mirrors(Effective(m.store), sid, SessionOf(m, sid, room))
  {
    UnloadedIsOnDisk(m, sid);
    CleanIsMirrored(m.store.db, sid, room);
    SameMirrors(m.store.db, Effective(m.store), sid, Recover(m.store.db, sid, room));
  }

  lemma OwnMirrors(m: Manager, e: Event)
    requires Simulates(m) && Allowed(m, e) && CleanLoad(m, e) && !e.Log? && !e.Turn? && !e.Crash?
    ensures Mirrors(ApplyAll(Effective(m.store), EffectOf(m, e).ops), e.sid, EffectOf(m, e).session)
  {
    OwnIsMirrored(m, e);
    EffectMirrors(Effective(m.store), m, e);
  }

  lemma PerformKeepsSimulation(m: Manager, e: Event)
    requires Simulates(m) && Allowed(m, e) && CleanLoad(m, e) && !e.Log? && !e.Turn? && !e.Crash?
    ensures Simulates(Perform(m, e.sid, EffectOf(m, e)))
  {
    var eff := EffectOf(m, e);
    var m' := Perform(m, e.sid, eff);
    EnqueueAllAppliesLast(m.store, eff.ops);
    OwnMirrors(m, e);
    forall sid | sid in m'.sessions ensures Mirrors(Effective(m'.store), sid, m'.sessions[sid]) {
      if sid != e.sid {
        OthersKeepMirrors(m, e, sid);
      }
    }
    forall sid | sid !in m'.sessions ensures NoneOwnedBy(Uncommitted(m'.store), sid) {
      OthersQueueNothing(m, e, sid);
    }
  }

  lemma LogKeepsSimulation(m: Manager, op: WriteOp)
    requires Simulates(m) && Owner(op).None?
    ensures Simulates(m.(store := Enqueued(m.store, op)))
  {
    EnqueueAppliesLast(m.store, op);
    forall sid | sid in m.sessions ensures Mirrors(Apply(Effective(m.store), op), sid, m.sessions[sid]) {
      SameMirrors(Effective(m.store), Apply(Effective(m.store), op), sid, m.sessions[sid]);
    }
  }

  lemma TurnKeepsUncommitted(st: Store, due: bool) returns (k: nat)
    ensures k <= |Uncommitted(st)| && Uncommitted(LoopTurn(st, due)) == Uncommitted(st)[k..]
  {
    k := 0;
    if !st.exited && LoopGuard(st) {
      var taken := Taken(st);
      assert Uncommitted(taken) == Uncommitted(st);
      if taken.pending != [] && (due || st.stopping) {
        k := |taken.pending|;
      }
    }
  }

  lemma TurnKeepsSimulation(m: Manager, due: bool)
    requires Simulates(m)
    ensures Simulates(m.(store := LoopTurn(m.store, due)))
  {
    LoopTurnKeepsEffective(m.store, due);
    var k := TurnKeepsUncommitted(m.store, due);
  }

  /** One event of any kind, crashes and restarts included. */
  lemma StepKeepsSimulation(m: Manager, e: Event)
    requires Simulates(m) && Allowed(m, e) && CleanLoad(m, e)
    ensures Simulates(Step(m, e))
  {
    match e
    case Log(op) => LogKeepsSimulation(m, op);
    case Turn(due) => TurnKeepsSimulation(m, due);
    case Crash =>
    case _ => PerformKeepsSimulation(m, e);
  }

  ghost predicate AllAllowed(es: seq<Event>) {
    forall i :: 0 <= i < |es| ==> Allowed(Run(es[..i]), es[i])
  }

  ghost predicate AllClean(es: seq<Event>) {
    forall i :: 0 <= i < |es| ==> CleanLoad(Run(es[..i]), es[i])
  }

  lemma RunSnoc(es: seq<Event>, e: Event)
    requires AllAllowed(es) && Allowed(Run(es), e)
    ensures AllAllowed(es + [e]) && Run(es + [e]) == Step(Run(es), e)
  {
    assert (es + [e])[..|es|] == es;
    forall i | 0 <= i < |es + [e]| ensures Allowed(Run((es + [e])[..i]), (es + [e])[i]) {
      if i < |es| { assert (es + [e])[..i] == es[..i]; }
    }
  }

  lemma CleanSnoc(es: seq<Event>, e: Event)
    requires AllClean(es) && CleanLoad(Run(es), e)
    ensures AllClean(es + [e])
  {
    forall i | 0 <= i < |es + [e]| ensures CleanLoad(Run((es + [e])[..i]), (es + [e])[i]) {
      assert (es + [e])[..i] == es[..i];
    }
  }

  lemma PrefixAllowed(es: seq<Event>, k: nat)
    requires k <= |es| && AllAllowed(es)
    ensures AllAllowed(es[..k])
  {
    forall i | 0 <= i < k ensures Allowed(Run(es[..k][..i]), es[..k][i]) {
      assert es[..k][..i] == es[..i];
    }
  }

  lemma PrefixClean(es: seq<Event>, k: nat)
    requires k <= |es| && AllClean(es)
    ensures AllClean(es[..k])
  {
    forall i | 0 <= i < k ensures CleanLoad(Run(es[..k][..i]), es[..k][i]) {
      assert es[..k][..i] == es[..i];
    }
  }

  /** Simulation over whole runs from an empty disk, through any number of crashes and restarts,
      as long as every session read back from disk is one the tables can be met with. */
  lemma {:induction false} MemoryMirrorsDisk(es: seq<Event>)
    requires AllAllowed(es) && AllClean(es)
    ensures Simulates(Run(es))
  {
    if es != [] {
      var n := |es| - 1;
      PrefixAllowed(es, n);
      PrefixClean(es, n);
      MemoryMirrorsDisk(es[..n]);
      StepKeepsSimulation(Run(es[..n]), es[n]);
    }
  }

  ghost predicate CrashFree(es: seq<Event>) {
    forall i :: 0 <= i < |es| ==> !es[i].Crash?
  }

  /** Before the first crash the disk knows nothing of a session that is not loaded, so every
      load is clean: the simulation holds without any condition. */
  ghost predicate UnloadedAbsent(m: Manager) {
    forall sid :: sid !in m.sessions ==> Absent(Effective(m.store), sid) && Absent(m.store.db, sid)
  }

  lemma CrashFreeStep(m: Manager, e: Event)
    requires Simulates(m) && UnloadedAbsent(m) && Allowed(m, e) && !e.Crash?
    ensures CleanLoad(m, e) && Simulates(Step(m, e)) && UnloadedAbsent(Step(m, e))
  {
    assert CleanLoad(m, e);
    StepKeepsSimulation(m, e);
    forall sid | sid !in Step(m, e).sessions
      ensures Absent(Effective(Step(m, e).store), sid) && Absent(Step(m, e).store.db, sid)
    {
      UnloadedIsOnDisk(Step(m, e), sid);
      AbsentStaysAbsent(m, e, sid);
    }
  }

  lemma AbsentStaysAbsent(m: Manager, e: Event, sid: Sid)
    requires Absent(Effective(m.store), sid) && Absent(m.store.db, sid) && Allowed(m, e) && !e.Crash?
    requires sid !in Step(m, e).sessions && SameFor(Step(m, e).store.db, Effective(Step(m, e).store), sid)
    ensures Absent(Effective(Step(m, e).store), sid) && Absent(Step(m, e).store.db, sid)
  {
    match e {
      case Log(op) => EnqueueAppliesLast(m.store, op);
      case Turn(due) => LoopTurnKeepsEffective(m.store, due);
      case Crash =>
      case _ => UnownedEffect(m, e, sid);
    }
  }

  lemma UnownedEffect(m: Manager, e: Event, sid: Sid)
    requires !e.Log? && !e.Turn? && !e.Crash? && sid != e.sid
    ensures var st := Perform(m, e.sid, EffectOf(m, e)).store;
      st.db == m.store.db && SameFor(Effective(m.store), Effective(st), sid)
  {
    EnqueueAllAppliesLast(m.store, EffectOf(m, e).ops);
    EffectOwned(m, e, sid);
    UnownedOpsChangeNothing(Effective(m.store), EffectOf(m, e).ops, sid);
  }

  lemma {:induction false} CrashFreeRunsMirror(es: seq<Event>)
    requires AllAllowed(es) && CrashFree(es)
    ensures Simulates(Run(es)) && UnloadedAbsent(Run(es))
  {
    if es != [] {
      var n := |es| - 1;
      PrefixAllowed(es, n);
      CrashFreeRunsMirror(es[..n]);
      assert es[..n][..n] == es[..n];
      CrashFreeStep(Run(es[..n]), es[n]);
    }
  }

  /** So before the first crash every load is clean. */
  lemma CrashFreeIsClean(es: seq<Event>)
    requires AllAllowed(es) && CrashFree(es)
    ensures AllClean(es)
  {
    forall i | 0 <= i < |es| ensures CleanLoad(Run(es[..i]), es[i]) {
      PrefixAllowed(es, i);
      CrashFreeRunsMirror(es[..i]);
      CrashFreeStep(Run(es[..i]), es[i]);
    }
  }
}
