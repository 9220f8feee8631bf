/** Where the sessions of a node's life come from: every life is a run of the durable session layer
    from the disk of the last crash, and what the node first has of a session is what that disk
    recovers, or a peer's snapshot. */
module NodeStarts {
  import opened Base
  import opened SessionStates
  import opened Persistence
  import opened SessionManagers
  import opened NodeBroadcast
  import opened NodeSteps
  import opened NodeRuns
  import opened NodeWire
  import D = Durability

  /** Snapshots from peers are those of peers' sessions. */
  ghost predicate Honest(e: NodeEvent) {
    (e.Hello? || e.Login?) && e.found.Some? ==> D.WellFormed(e.found.value)
  }

  ghost predicate AllHonest(es: seq<NodeEvent>) {
    forall i :: 0 <= i < |es| ==> Honest(es[i])
  }

  // ---- What the node first has of a session --------------------------------------------------------------

  /** The session whose rows or log an operation writes, if any. */
  function About(op: WriteOp): Option<Sid> {
    match op
    case SaveSession(sid, _, _, _) => Some(sid)
    case SaveOutbound(sid, _, _, _) => Some(sid)
    case DeleteOutbound(sid, _) => Some(sid)
    case SaveMessageLog(key, _, _, _) => Some(key)
    case _ => None
  }

  ghost predicate NoneAbout(ops: seq<WriteOp>, sid: Sid) {
    forall i :: 0 <= i < |ops| ==> About(ops[i]) != Some(sid)
  }

  /** Rows and log of the session are the same in both. */
  ghost predicate SameAll(t: Tables, u: Tables, sid: Sid) {
    && D.SameFor(t, u, sid)
    && (forall n: int :: (sid, n) in t.log <==> (sid, n) in u.log)
    && (forall n: int :: (sid, n) in t.log ==> t.log[(sid, n)] == u.log[(sid, n)])
  }

  lemma {:induction false} OthersChangeNothing(t: Tables, ops: seq<WriteOp>, sid: Sid)
    requires NoneAbout(ops, sid)
    ensures SameAll(t, ApplyAll(t, ops), sid)
  {
    if ops != [] {
      var n := |ops| - 1;
      OthersChangeNothing(t, ops[..n], sid);
      assert About(ops[n]) != Some(sid);
    }
  }

  lemma OutboxRowAt(t: Tables, sid: Sid, n: int)
    ensures n in OutboxRows(t, sid) <==> (sid, n) in t.outbox
    ensures (sid, n) in t.outbox ==>
      OutboxRows(t, sid)[n]
        == OutboundMessage(n, t.outbox[(sid, n)].payload, t.outbox[(sid, n)].sentAt, t.outbox[(sid, n)].retryCount)
  {
  }

  lemma HistoryRowAt(t: Tables, sid: Sid, w: int, n: int)
    ensures n in HistoryRows(t, sid, w) <==> (sid, n) in t.log && n > w
    ensures n in HistoryRows(t, sid, w) ==>
      HistoryRows(t, sid, w)[n] == OutboundMessage(n, t.log[(sid, n)].payload, t.log[(sid, n)].sentAt, 0)
  {
  }

  lemma SameOutboxRows(t: Tables, u: Tables, sid: Sid)
    requires SameAll(t, u, sid)
    ensures OutboxRows(t, sid) == OutboxRows(u, sid)
  {
    var a, b := OutboxRows(t, sid), OutboxRows(u, sid);
    forall n ensures (n in a <==> n in b) && (n in a ==> a[n] == b[n]) {
      OutboxRowAt(t, sid, n);
      OutboxRowAt(u, sid, n);
    }
  }

  lemma SameHistoryRows(t: Tables, u: Tables, sid: Sid, w: int)
    requires SameAll(t, u, sid)
    ensures HistoryRows(t, sid, w) == HistoryRows(u, sid, w)
  {
    var a, b := HistoryRows(t, sid, w), HistoryRows(u, sid, w);
    forall n ensures (n in a <==> n in b) && (n in a ==> a[n] == b[n]) {
      HistoryRowAt(t, sid, w, n);
      HistoryRowAt(u, sid, w, n);
    }
  }

  lemma SameRecovers(t: Tables, u: Tables, sid: Sid, room: Room)
    requires SameAll(t, u, sid)
    ensures Recover(t, sid, room) == Recover(u, sid, room)
  {
    if sid in t.sessions {
      SameOutboxRows(t, u, sid);
      SameHistoryRows(t, u, sid, t.sessions[sid].lastProcessed);
    }
  }

  /** As long as the session is not loaded, nothing of it is queued, and the disk has what it had. */
  ghost predicate Intact(db: Tables, m: Manager, sid: Sid) {
    sid !in m.sessions ==> NoneAbout(Uncommitted(m.store), sid) && SameAll(db, m.store.db, sid)
  }

  lemma EnqueueKeepsIntact(db: Tables, m: Manager, m': Manager, ops: seq<WriteOp>, sid: Sid)
    requires Intact(db, m, sid) && NoneAbout(ops, sid) && m'.store == EnqueuedAll(m.store, ops)
    requires sid in m.sessions ==> sid in m'.sessions
    ensures Intact(db, m', sid)
  {
    EnqueueAllAppliesLast(m.store, ops);
  }

  lemma PerformKeepsIntact(db: Tables, m: Manager, other: Sid, e: Effect, sid: Sid)
    requires Intact(db, m, sid) && (other != sid ==> NoneAbout(e.ops, sid))
    ensures Intact(db, Perform(m, other, e), sid)
  {
    if other != sid {
      EnqueueKeepsIntact(db, m, Perform(m, other, e), e.ops, sid);
    }
  }

  lemma {:induction false} DeliverAllKeepsIntact(db: Tables, n: Node, sids: seq<Sid>, from: string, payload: Payload,
                                                 now: real, sid: Sid)
    requires Intact(db, n.manager, sid)
    ensures Intact(db, DeliverAll(n, sids, from, payload, now).manager, sid)
  {
    if sids != [] {
      var k := |sids| - 1;
      DeliverAllKeepsIntact(db, n, sids[..k], from, payload, now, sid);
      var mid := DeliverAll(n, sids[..k], from, payload, now);
      if sids[k] != from {
        PerformKeepsIntact(db, mid.manager, sids[k],
                           SendEffect(sids[k], SessionOf(mid.manager, sids[k], "general"), payload, now), sid);
      }
    }
  }

  lemma HydrateIsAbout(sid: Sid, snap: Snapshot, other: Sid)
    requires other != sid
    ensures NoneAbout(HydrateEffect(sid, snap).ops, other)
  {
    SaveRowsAbout(sid, Listed(HydrateEffect(sid, snap).session.outbox));
  }

  lemma {:induction false} SaveRowsAbout(sid: Sid, rows: seq<OutboundMessage>)
    ensures forall i :: 0 <= i < |SaveRows(sid, rows)| ==> About(SaveRows(sid, rows)[i]) == Some(sid)
  {
    if rows != [] {
      SaveRowsAbout(sid, rows[..|rows| - 1]);
    }
  }

  lemma GreetedKeepsIntact(db: Tables, n: Node, other: Sid, room: Room, found: Option<Snapshot>, sid: Sid)
    requires Intact(db, n.manager, sid)
    ensures Intact(db, Greeted(n, other, room, found), sid)
  {
    var m := Found(n.manager, n.meshed, other, found);
    if m != n.manager {
      if other != sid {
        HydrateIsAbout(other, found.value, sid);
      }
      PerformKeepsIntact(db, n.manager, other, HydrateEffect(other, found.value), sid);
    }
  }

  /** Keys of room logs start with "room:". */
  predicate IsRoomKey(sid: Sid) {
    "room:" <= sid
  }

  lemma LogKeepsIntact(db: Tables, m: Manager, room: Room, seqNo: int, payload: Payload, at: real, sid: Sid)
    requires Intact(db, m, sid) && !IsRoomKey(sid)
    ensures Intact(db, m.(store := Enqueued(m.store, SaveMessageLog("room:" + room, seqNo, payload, at))), sid)
  {
    assert "room:" + room != sid;
    EnqueueAppliesLast(m.store, SaveMessageLog("room:" + room, seqNo, payload, at));
  }

  lemma InboundKeepsIntact(db: Tables, n: Node, from: Sid, conn: Conn, msg: Inbound, now: real, sid: Sid)
    requires Intact(db, n.manager, sid) && !IsRoomKey(sid)
    ensures Intact(db, HandleInbound(n, from, conn, msg, now).manager, sid)
  {
    var s := SessionOf(n.manager, from, "general");
    PerformKeepsIntact(db, n.manager, from, ReceiveEffect(from, s, msg.seqNo, msg.raw, now), sid);
    if ShouldProcess(s, msg.seqNo) {
      var got := Received(n, from, conn, msg, now);
      var payload := ChatPayload(got, from, s.room, msg, now);
      LogKeepsIntact(db, got.manager, s.room, msg.seqNo, payload, SentAt(msg, now), sid);
      var ready := Logged(got, from, s.room, msg, now);
      DeliverAllKeepsIntact(db, ready, InRoom(ready.manager, s.room), from, payload, now, sid);
    }
  }

  lemma TurnKeepsIntact(db: Tables, m: Manager, due: bool, sid: Sid)
    requires Intact(db, m, sid)
    ensures Intact(db, m.(store := LoopTurn(m.store, due)), sid)
  {
    if sid !in m.sessions {
      var ops := Uncommitted(m.store);
      Halves(ops, 0);
      var q := TurnExtendsPrefix(m.store.db, m.store, due, ops, 0);
      OthersChangeNothing(m.store.db, ops[..q], sid);
    }
  }

  lemma StepKeepsIntact(db: Tables, n: Node, e: NodeEvent, sid: Sid)
    requires Intact(db, n.manager, sid) && !IsRoomKey(sid)
    ensures Intact(db, NodeStep(n, e).manager, sid)
  {
    match e {
      case Hello(s, room, _, found) => HandshakeManager(n, e); GreetedKeepsIntact(db, n, s, room, found, sid);
      case Login(s, _, _, found) => HandshakeManager(n, e); GreetedKeepsIntact(db, n, s, "general", found, sid);
      case MessageIn(s, conn, msg, now) => InboundKeepsIntact(db, n, s, conn, msg, now, sid);
      case AckIn(s, k) =>
        PerformKeepsIntact(db, n.manager, s, AckEffect(s, SessionOf(n.manager, s, "general"), k), sid);
      case Join(s, room) =>
        PerformKeepsIntact(db, n.manager, s, RoomEffect(s, SessionOf(n.manager, s, "general"), room), sid);
      case RelayIn(room, text, from, at, now) =>
        DeliverAllKeepsIntact(db, n, InRoom(n.manager, room), from, Chat(text, from, room, at), now, sid);
      case Resend(_, _, _) =>
      case Drop(_, _) =>
      case WriterTurn(due) => TurnKeepsIntact(db, n.manager, due, sid);
    }
  }

  lemma {:induction false} UnloadedIsIntact(l: Life, es: seq<NodeEvent>, sid: Sid)
    requires !IsRoomKey(sid)
    ensures Intact(l.db, NodeRun(l, es).manager, sid)
  {
    if es != [] {
      UnloadedIsIntact(l, es[..|es| - 1], sid);
      StepKeepsIntact(l.db, NodeRun(l, es[..|es| - 1]), es[|es| - 1], sid);
    }
  }

  /** The base is what the start disk recovers, in some room if it is new there. */
  ghost predicate FromDisk(l: Life, sid: Sid, base: Session) {
    exists room :: base == Recover(l.db, sid, room)
  }

  /** The base is a well-formed snapshot adopted for a session the start disk does not know. */
  ghost predicate FromPeer(l: Life, sid: Sid, base: Session) {
    sid !in l.db.sessions && exists snap :: D.WellFormed(snap) && base == HydrateEffect(sid, snap).session
  }

  ghost predicate Comes(l: Life, sid: Sid, base: Session) {
    FromDisk(l, sid, base) || FromPeer(l, sid, base)
  }

  lemma FoundIsFromDiskOrPeer(l: Life, m: Manager, meshed: bool, sid: Sid, room: Room, found: Option<Snapshot>)
    requires SameAll(l.db, m.store.db, sid) && sid !in m.sessions && (found.Some? ==> D.WellFormed(found.value))
    ensures var b := SessionOf(Found(m, meshed, sid, found), sid, room); Comes(l, sid, b)
  {
    if meshed && found.Some? && !KnowsLocally(m, sid) {
      assert D.WellFormed(found.value);
      assert SessionOf(Found(m, meshed, sid, found), sid, room) == HydrateEffect(sid, found.value).session;
    } else {
      SameRecovers(l.db, m.store.db, sid, room);
    }
  }

  lemma FirstIsFromDiskOrPeer(l: Life, n: Node, e: NodeEvent, sid: Sid)
    requires Intact(l.db, n.manager, sid) && sid !in n.manager.sessions && Honest(e)
    ensures FirstAs(n, e, sid).Some? ==> var b := FirstAs(n, e, sid).value; Comes(l, sid, b)
  {
    match e {
      case Hello(_, room, _, found) => FoundIsFromDiskOrPeer(l, n.manager, n.meshed, sid, room, found);
      case Login(_, _, _, found) => FoundIsFromDiskOrPeer(l, n.manager, n.meshed, sid, "general", found);
      case _ => FoundIsFromDiskOrPeer(l, n.manager, n.meshed, sid, "general", None);
    }
  }

  /** However late in its life the node first meets a session, its base is what the disk it started
      on recovers for it, or a peer's snapshot if that disk does not know it. */
  lemma {:induction false} BaseIsFromDiskOrPeer(l: Life, es: seq<NodeEvent>, sid: Sid)
    requires !IsRoomKey(sid) && AllHonest(es)
    ensures BaseOf(l, es, sid).Some? ==>
              Comes(l, sid, BaseOf(l, es, sid).value)
  {
    if es != [] {
      var init := es[..|es| - 1];
      BaseIsFromDiskOrPeer(l, init, sid);
      if BaseOf(l, init, sid).None? {
        SessionsFollowTheirHistory(l, init, sid);
        UnloadedIsIntact(l, init, sid);
        FirstIsFromDiskOrPeer(l, NodeRun(l, init), es[|es| - 1], sid);
      }
    }
  }

  lemma CleanIsSound(t: Tables, sid: Sid, room: Room)
    requires D.Clean(t, sid)
    ensures Sound(Recover(t, sid, room))
  {
    D.RecoveryIsFaithfulIffClean(t, sid, room);
  }

  /** Session ids that the events name. */
  predicate Names(e: NodeEvent, sid: Sid) {
    match e
    case RelayIn(_, _, _, _, _) => false
    case WriterTurn(_) => false
    case _ => e.sid == sid
  }

  ghost predicate NoRoomKeys(es: seq<NodeEvent>) {
    forall i, sid :: 0 <= i < |es| && Names(es[i], sid) ==> !IsRoomKey(sid)
  }

  lemma {:induction false} UnnamedIsUnknown(l: Life, es: seq<NodeEvent>, sid: Sid)
    requires forall i :: 0 <= i < |es| ==> !Names(es[i], sid)
    ensures BaseOf(l, es, sid).None?
  {
    if es != [] {
      UnnamedIsUnknown(l, es[..|es| - 1], sid);
      assert !Names(es[|es| - 1], sid);
    }
  }

  /** On a clean disk, with honest peers and no client posing as a room, every session is sound when
      the node first has it: the guarantees of logs, replays and the wire hold for recovered and
      migrated sessions as for new ones. */
  lemma CleanDiskGivesSoundBases(l: Life, es: seq<NodeEvent>)
    requires (forall sid :: D.Clean(l.db, sid)) && AllHonest(es) && NoRoomKeys(es)
    ensures SoundBases(l, es)
  {
    forall sid | BaseOf(l, es, sid).Some? ensures Sound(BaseOf(l, es, sid).value) {
      if IsRoomKey(sid) {
        UnnamedIsUnknown(l, es, sid);
      } else {
        BaseIsFromDiskOrPeer(l, es, sid);
        var base := BaseOf(l, es, sid).value;
        if FromDisk(l, sid, base) {
          var room :| base == Recover(l.db, sid, room);
          CleanIsSound(l.db, sid, room);
        } else {
          var snap :| D.WellFormed(snap) && base == HydrateEffect(sid, snap).session;
          D.AdoptedIsSound(sid, snap);
        }
      }
    }
  }

  // ---- Every life is a run of the session layer ------------------------------------------------------

  /** `pre` was the past, up to the last crash if any. */
  ghost predicate Past(pre: seq<D.Event>) {
    D.AllAllowed(pre) && (pre == [] || pre[|pre| - 1] == D.Crash)
  }

  /** The manager is reached by going on from the past without a crash (with clean loads, if so said). */
  ghost predicate Reached(pre: seq<D.Event>, des: seq<D.Event>, m: Manager, clean: bool) {
    && D.AllAllowed(des) && D.Run(des) == m && (clean ==> D.AllClean(des))
    && pre <= des && forall i :: |pre| <= i < |des| ==> !des[i].Crash?
  }

  lemma ReachedNext(pre: seq<D.Event>, des: seq<D.Event>, m: Manager, clean: bool, e: D.Event)
    returns (des': seq<D.Event>)
    requires Reached(pre, des, m, clean) && D.Allowed(m, e) && !e.Crash? && (clean ==> D.CleanLoad(m, e))
    ensures Reached(pre, des', D.Step(m, e), clean)
  {
    des' := des + [e];
    D.RunSnoc(des, e);
    if clean {
      D.CleanSnoc(des, e);
    }
  }

  /** The session is loaded, or the disk has it so that recovery is faithful. */
  ghost predicate CleanOrLoaded(m: Manager, sid: Sid) {
    sid in m.sessions || D.Clean(m.store.db, sid)
  }

  lemma {:induction false} DeliverAllReached(pre: seq<D.Event>, des: seq<D.Event>, n: Node, clean: bool, sids: seq<Sid>,
                                             from: string, payload: Payload, now: real) returns (des': seq<D.Event>)
    requires Reached(pre, des, n.manager, clean) && forall sid :: sid in sids ==> sid in n.manager.sessions
    ensures Reached(pre, des', DeliverAll(n, sids, from, payload, now).manager, clean)
  {
    des' := des;
    if sids != [] {
      var k := |sids| - 1;
      SplitLast(sids);
      assert sids[k] in sids && forall sid :: sid in sids[..k] ==> sid in sids;
      des' := DeliverAllReached(pre, des, n, clean, sids[..k], from, payload, now);
      DeliverAllFrame(n, sids[..k], from, payload, now);
      var mid := DeliverAll(n, sids[..k], from, payload, now);
      if sids[k] != from {
        des' := ReachedNext(pre, des', mid.manager, clean, D.SendMessage(sids[k], payload, now));
      }
    }
  }

  lemma InboundReached(pre: seq<D.Event>, des: seq<D.Event>, n: Node, clean: bool, sid: Sid, conn: Conn, msg: Inbound,
                       now: real) returns (des': seq<D.Event>)
    requires Reached(pre, des, n.manager, clean) && (clean ==> CleanOrLoaded(n.manager, sid))
    ensures Reached(pre, des', HandleInbound(n, sid, conn, msg, now).manager, clean)
  {
    var s := SessionOf(n.manager, sid, "general");
    des' := ReachedNext(pre, des, n.manager, clean, D.ReceiveMessage(sid, msg.seqNo, msg.raw, now));
    if ShouldProcess(s, msg.seqNo) {
      var got := Received(n, sid, conn, msg, now);
      var payload := ChatPayload(got, sid, s.room, msg, now);
      var op := SaveMessageLog("room:" + s.room, msg.seqNo, payload, SentAt(msg, now));
      des' := ReachedNext(pre, des', got.manager, clean, D.Log(op));
      var ready := Logged(got, sid, s.room, msg, now);
      des' := DeliverAllReached(pre, des', ready, clean, InRoom(ready.manager, s.room), sid, payload, now);
    }
  }

  lemma GreetedReached(pre: seq<D.Event>, des: seq<D.Event>, n: Node, clean: bool, sid: Sid, room: Room,
                       found: Option<Snapshot>) returns (des': seq<D.Event>)
    requires Reached(pre, des, n.manager, clean) && (found.Some? ==> D.WellFormed(found.value))
    requires clean ==> CleanOrLoaded(n.manager, sid)
    ensures Reached(pre, des', Greeted(n, sid, room, found), clean)
  {
    var m := Found(n.manager, n.meshed, sid, found);
    des' := FoundReached(pre, des, n, clean, sid, found);
    des' := ReachedNext(pre, des', m, clean, D.Load(sid, room));
    des' := ReachedNext(pre, des', D.Step(m, D.Load(sid, room)), clean, D.NewConnection(sid));
    LoadedThenReset(m, sid, room);
  }

  lemma FoundReached(pre: seq<D.Event>, des: seq<D.Event>, n: Node, clean: bool, sid: Sid, found: Option<Snapshot>)
    returns (des': seq<D.Event>)
    requires Reached(pre, des, n.manager, clean) && (found.Some? ==> D.WellFormed(found.value))
    requires clean ==> CleanOrLoaded(n.manager, sid)
    ensures Reached(pre, des', Found(n.manager, n.meshed, sid, found), clean)
    ensures clean ==> CleanOrLoaded(Found(n.manager, n.meshed, sid, found), sid)
  {
    des' := des;
    if n.meshed && found.Some? && !KnowsLocally(n.manager, sid) {
      des' := ReachedNext(pre, des', n.manager, clean, D.Hydrate(sid, found.value));
    }
  }

  lemma LoadedThenReset(m: Manager, sid: Sid, room: Room)
    ensures D.Step(D.Step(m, D.Load(sid, room)), D.NewConnection(sid)) == With(m, sid, Reset(SessionOf(m, sid, room)))
  {
    var s := SessionOf(m, sid, room);
    assert m.sessions[sid := s][sid := Reset(s)] == m.sessions[sid := Reset(s)];
  }

  /** The event loads no session that recovery is not faithful for. */
  ghost predicate Tidy(m: Manager, e: NodeEvent) {
    match e
    case RelayIn(_, _, _, _, _) => true
    case WriterTurn(_) => true
    case _ => CleanOrLoaded(m, e.sid)
  }

  lemma JoinReached(pre: seq<D.Event>, des: seq<D.Event>, n: Node, clean: bool, sid: Sid, room: Room)
    returns (des': seq<D.Event>)
    requires Reached(pre, des, n.manager, clean) && (clean ==> CleanOrLoaded(n.manager, sid))
    ensures Reached(pre, des', NodeStep(n, Join(sid, room)).manager, clean)
  {
    des' := des;
    if !InRoomAlready(n, sid, room) {
      des' := ReachedNext(pre, des, n.manager, clean, D.SetRoom(sid, room));
    }
  }

  lemma ResendReached(pre: seq<D.Event>, des: seq<D.Event>, n: Node, clean: bool, sid: Sid, seqNo: int, now: real)
    returns (des': seq<D.Event>)
    requires Reached(pre, des, n.manager, clean)
    ensures Reached(pre, des', RetryOne(n, sid, seqNo, now).manager, clean)
  {
    des' := des;
    if RetryOne(n, sid, seqNo, now) != n {
      des' := ReachedNext(pre, des, n.manager, clean, D.Retry(sid, seqNo, now));
    }
  }

  lemma StepReached(pre: seq<D.Event>, des: seq<D.Event>, n: Node, clean: bool, e: NodeEvent)
    returns (des': seq<D.Event>)
    requires Reached(pre, des, n.manager, clean) && Honest(e) && (clean ==> Tidy(n.manager, e))
    ensures Reached(pre, des', NodeStep(n, e).manager, clean)
  {
    match e {
      case Hello(sid, room, _, found) =>
        HandshakeManager(n, e);
        des' := GreetedReached(pre, des, n, clean, sid, room, found);
      case Login(sid, _, _, found) =>
        HandshakeManager(n, e);
        des' := GreetedReached(pre, des, n, clean, sid, "general", found);
      case MessageIn(sid, conn, msg, now) => des' := InboundReached(pre, des, n, clean, sid, conn, msg, now);
      case AckIn(sid, k) => des' := ReachedNext(pre, des, n.manager, clean, D.HandleAck(sid, k));
      case Join(sid, room) => des' := JoinReached(pre, des, n, clean, sid, room);
      case RelayIn(room, text, from, at, now) =>
        des' := DeliverAllReached(pre, des, n, clean, InRoom(n.manager, room), from, Chat(text, from, room, at), now);
      case Resend(sid, k, now) => des' := ResendReached(pre, des, n, clean, sid, k, now);
      case Drop(_, _) => des' := des;
      case WriterTurn(due) => des' := ReachedNext(pre, des, n.manager, clean, D.Turn(due));
    }
  }

  lemma SameIsClean(t: Tables, u: Tables, sid: Sid)
    requires SameAll(t, u, sid) && D.Clean(t, sid)
    ensures D.Clean(u, sid)
  {
  }

  /** On a clean start disk, a session the node meets later is still clean there. */
  lemma MetCleanly(l: Life, es: seq<NodeEvent>, e: NodeEvent)
    requires (forall sid :: D.Clean(l.db, sid)) && forall sid :: Names(e, sid) ==> !IsRoomKey(sid)
    ensures Tidy(NodeRun(l, es).manager, e)
  {
    if !e.RelayIn? && !e.WriterTurn? {
      assert Names(e, e.sid);
      UnloadedIsIntact(l, es, e.sid);
      if e.sid !in NodeRun(l, es).manager.sessions {
        SameIsClean(l.db, NodeRun(l, es).manager.store.db, e.sid);
      }
    }
  }

  /** The past's loads were clean, its disk is, and no client poses as a room. */
  ghost predicate CleanLife(pre: seq<D.Event>, es: seq<NodeEvent>) {
    D.AllClean(pre) && (forall sid :: D.Clean(D.Run(pre).store.db, sid)) && NoRoomKeys(es)
  }

  /** Every life of the node, after any past, goes on as a crash-free run of the session layer from
      the disk that past left: so what is proved of that layer holds of it, crash points included.  If
      the past's loads were clean and its disk is, and no client poses as a room, all its loads are. */
  lemma {:induction false} NodeIsDurable(meshed: bool, pre: seq<D.Event>, es: seq<NodeEvent>)
      returns (des: seq<D.Event>)
    requires Past(pre) && AllHonest(es)
    ensures Reached(pre, des, NodeRun(Life(meshed, D.Run(pre).store.db), es).manager, CleanLife(pre, es))
  {
    if es == [] {
      des := pre;
    } else {
      var init, e, l := es[..|es| - 1], es[|es| - 1], Life(meshed, D.Run(pre).store.db);
      des := NodeIsDurable(meshed, pre, init);
      if CleanLife(pre, es) {
        assert CleanLife(pre, init);
        MetCleanly(l, init, e);
      }
      des := StepReached(pre, des, NodeRun(l, init), CleanLife(pre, es), e);
    }
  }
}
