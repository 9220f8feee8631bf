/** The session layer of one node (node/session_manager.py): in-memory sessions whose every
    change also queues its durable writes, recovery from disk, and cross-node snapshots. */
module SessionManagers {
  import opened Base
  import opened SessionStates
  import opened Persistence

  /** The sessions of a node (a dict: `order` is its insertion order) and its store. */
  datatype Manager = Manager(sessions: map<Sid, Session>, order: seq<Sid>, store: Store)

  const EmptyManager := Manager(map[], [], EmptyStore)

  /** A state change of one session together with the writes it queues. */
  datatype Effect = Effect(session: Session, ops: seq<WriteOp>)

  /** A wire-transferable session; `outbox` lists the buffered messages by seq. */
  datatype Snapshot = Snapshot(nextSend: int, lastProcessed: int, room: Room, outbox: seq<OutboundMessage>)

  // ---- Recovery -----------------------------------------------------------------------------

  /** load_outbox: the rows of one session, as buffered messages. */
  function OutboxRows(t: Tables, sid: Sid): map<int, OutboundMessage> {
    map key | key in t.outbox && key.0 == sid ::
      key.1 := OutboundMessage(key.1, t.outbox[key].payload, t.outbox[key].sentAt, t.outbox[key].retryCount)
  }

  /** load_message_history: the logged messages of one key above a seq. */
  function HistoryRows(t: Tables, sid: Sid, afterSeq: int): map<int, OutboundMessage> {
    map key | key in t.log && key.0 == sid && key.1 > afterSeq ::
      key.1 := OutboundMessage(key.1, t.log[key].payload, t.log[key].sentAt, 0)
  }

  /** _recover_or_create */
  function Recover(t: Tables, sid: Sid, room: Room): Session {
    if sid !in t.sessions then FreshSession(room)
    else
      var row := t.sessions[sid];
      var unacked := OutboxRows(t, sid);
      Session(row.room, row.nextSend,
              if row.lastProcessed > 0 then unacked + HistoryRows(t, sid, row.lastProcessed) else unacked,
              row.lastProcessed, {})
  }

  /** The values of an outbox dict. */
  function Listed(outbox: map<int, OutboundMessage>): seq<OutboundMessage> {
    InSeqOrder(outbox, outbox.Keys)
  }

  // ---- Operations on a loaded session ---------------------------------------------------------

  /** _persist_session_meta */
  function Meta(sid: Sid, s: Session): WriteOp {
    SaveSession(sid, s.nextSend, s.last, s.room)
  }

  function SendEffect(sid: Sid, s: Session, payload: Payload, now: real): Effect {
    var after := Prepared(s, payload, now);
    Effect(after, [SaveOutbound(sid, s.nextSend, payload, now),
                   SaveMessageLog(sid, s.nextSend, payload, now),
                   Meta(sid, after)])
  }

  function AckEffect(sid: Sid, s: Session, n: int): Effect {
    Effect(Acked(s, n), if n in s.outbox then [DeleteOutbound(sid, n)] else [])
  }

  function ReceiveEffect(sid: Sid, s: Session, n: int, payload: Payload, now: real): Effect {
    if !ShouldProcess(s, n) then Effect(s, [])
    else Effect(Marked(s, n), [SaveMessageLog(sid, n, payload, now), Meta(sid, Marked(s, n))])
  }

  function RoomEffect(sid: Sid, s: Session, room: Room): Effect {
    Effect(s.(room := room), [Meta(sid, s.(room := room))])
  }

  function SaveRows(sid: Sid, rows: seq<OutboundMessage>): seq<WriteOp> {
    if rows == [] then []
    else
      var row := rows[|rows| - 1];
      SaveRows(sid, rows[..|rows| - 1]) + [SaveOutbound(sid, row.seqNo, row.payload, row.sentAt)]
  }

  lemma {:induction false} SaveRowsLogNothing(sid: Sid, rows: seq<OutboundMessage>)
    ensures LogsNothing(SaveRows(sid, rows))
  {
    if rows != [] {
      SaveRowsLogNothing(sid, rows[..|rows| - 1]);
    }
  }

  /** hydrate_from_snapshot: adopt the snapshot, then persist it to our own disk. */
  function HydrateEffect(sid: Sid, snap: Snapshot): Effect {
    var s := Session(snap.room, snap.nextSend, Loaded(map[], snap.outbox), snap.lastProcessed, {});
    Effect(s, [Meta(sid, s)] + SaveRows(sid, Listed(s.outbox)))
  }

  // ---- The manager ------------------------------------------------------------------------------

  function With(m: Manager, sid: Sid, s: Session): Manager {
    m.(sessions := m.sessions[sid := s], order := if sid in m.sessions then m.order else m.order + [sid])
  }

  function Perform(m: Manager, sid: Sid, e: Effect): Manager {
    With(m, sid, e.session).(store := EnqueuedAll(m.store, e.ops))
  }

  /** get_or_create: the live session, or the one on disk, or a fresh one in `room`. */
  function SessionOf(m: Manager, sid: Sid, room: Room): Session {
    if sid in m.sessions then m.sessions[sid] else Recover(m.store.db, sid, room)
  }

  function Opened(m: Manager, sid: Sid, room: Room): Manager {
    if sid in m.sessions then m else With(m, sid, Recover(m.store.db, sid, room))
  }

  predicate KnowsLocally(m: Manager, sid: Sid) {
    sid in m.sessions || sid in m.store.db.sessions
  }

  /** snapshot_session: a pure read, from memory or from disk. */
  function SnapshotOf(m: Manager, sid: Sid): Option<Snapshot> {
    if sid in m.sessions then
      var s := m.sessions[sid];
      Some(Snapshot(s.nextSend, s.last, s.room, Listed(s.outbox)))
    else if sid in m.store.db.sessions then
      var row := m.store.db.sessions[sid];
      Some(Snapshot(row.nextSend, row.lastProcessed, row.room, Listed(OutboxRows(m.store.db, sid))))
    else None
  }

  /** session_ids_in_room: everyone known to be in the room, connected or not, in dict order. */
  function InRoom(m: Manager, room: Room): seq<Sid> {
    Filtered(m.sessions, m.order, room)
  }

  function Filtered(sessions: map<Sid, Session>, order: seq<Sid>, room: Room): (r: seq<Sid>)
    ensures forall sid :: sid in r <==> sid in order && sid in sessions && sessions[sid].room == room
    ensures Distinct(order) ==> Distinct(r)
  {
    if order == [] then []
    else
      var n := |order| - 1;
      var before := Filtered(sessions, order[..n], room);
      assert order == order[..n] + [order[n]];
      assert Distinct(order) ==> order[n] !in order[..n];
      if order[n] in sessions && sessions[order[n]].room == room then before + [order[n]] else before
  }

  /** In dict order, that is. */
  lemma {:induction false} FilteredInOrder(sessions: map<Sid, Session>, order: seq<Sid>, room: Room, i: nat, j: nat)
      returns (a: nat, b: nat)
    requires i < j < |Filtered(sessions, order, room)|
    ensures a < b < |order|
    ensures Filtered(sessions, order, room)[i] == order[a] && Filtered(sessions, order, room)[j] == order[b]
  {
    var n := |order| - 1;
    var before := Filtered(sessions, order[..n], room);
    if j < |before| {
      a, b := FilteredInOrder(sessions, order[..n], room, i, j);
    } else {
      assert before[i] in before;
      a :| 0 <= a < n && order[..n][a] == before[i];
      b := n;
    }
  }

  /** A snapshot is there exactly for a session in memory or with a row on disk. */
  lemma SnapshotIff(m: Manager, sid: Sid)
    ensures SnapshotOf(m, sid).Some? <==> sid in m.sessions || sid in m.store.db.sessions
  {
  }

  // ---- Listing and loading an outbox are inverse ---------------------------------------------------

  ghost predicate DistinctSeqs(rows: seq<OutboundMessage>) {
    forall i, j :: 0 <= i < j < |rows| ==> rows[i].seqNo != rows[j].seqNo
  }

  /** Whatever the rows, a loaded outbox files each of its messages under its own seq. */
  lemma {:induction false} LoadedKeyed(rows: seq<OutboundMessage>)
    ensures WellKeyed(Loaded(map[], rows))
    ensures forall n :: n in Loaded(map[], rows) ==> Loaded(map[], rows)[n] in rows
  {
    if rows != [] {
      var k := |rows| - 1;
      LoadedKeyed(rows[..k]);
      SplitLast(rows);
    }
  }

  lemma {:induction false} LoadedRows(rows: seq<OutboundMessage>)
    requires DistinctSeqs(rows)
    ensures forall m :: m in rows ==> m.seqNo in Loaded(map[], rows) && Loaded(map[], rows)[m.seqNo] == m
  {
    if rows != [] {
      var k := |rows| - 1;
      var after := Loaded(map[], rows);
      LoadedRows(rows[..k]);
      forall m | m in rows ensures m.seqNo in after && after[m.seqNo] == m {
        var i :| 0 <= i < |rows| && rows[i] == m;
        if i < k { assert rows[..k][i] == m; }
      }
    }
  }

  lemma ListedDistinct(outbox: map<int, OutboundMessage>)
    requires WellKeyed(outbox)
    ensures DistinctSeqs(Listed(outbox))
  {
    var keys := SortedKeys(outbox.Keys);
    assert forall i :: 0 <= i < |keys| ==> keys[i] in keys;
    MessagesByKey(outbox, keys);
    var rows := Listed(outbox);
    forall i, j | 0 <= i < j < |rows| ensures rows[i].seqNo != rows[j].seqNo {
      assert keys[i] < keys[j];
    }
  }

  lemma ListedRows(outbox: map<int, OutboundMessage>)
    requires WellKeyed(outbox)
    ensures forall m :: m in Listed(outbox) <==> Files(outbox, m)
  {
    var keys := SortedKeys(outbox.Keys);
    assert forall i :: 0 <= i < |keys| ==> keys[i] in keys;
    MessagesByKey(outbox, keys);
    forall m | Files(outbox, m) ensures m in Listed(outbox) {
      assert m.seqNo in keys;
    }
  }

  lemma LoadedListedAt(outbox: map<int, OutboundMessage>, n: int)
    requires WellKeyed(outbox)
    ensures var back := Loaded(map[], Listed(outbox));
      (n in back <==> n in outbox) && (n in outbox ==> back[n] == outbox[n])
  {
    ListedDistinct(outbox);
    ListedRows(outbox);
    LoadedRows(Listed(outbox));
    LoadedKeyed(Listed(outbox));
    if n in outbox {
      assert outbox[n].seqNo == n && outbox[n] in Listed(outbox);
    }
  }

  lemma LoadedListed(outbox: map<int, OutboundMessage>)
    requires WellKeyed(outbox)
    ensures Loaded(map[], Listed(outbox)) == outbox
  {
    var back := Loaded(map[], Listed(outbox));
    forall n ensures (n in back <==> n in outbox) && (n in outbox ==> back[n] == outbox[n]) {
      LoadedListedAt(outbox, n);
    }
  }

  // ---- Cross-node migration -------------------------------------------------------------------------

  /** Node b after adopting node a's snapshot of the session. */
  function Migrated(a: Manager, b: Manager, sid: Sid): Manager
    requires SnapshotOf(a, sid).Some?
  {
    Perform(b, sid, HydrateEffect(sid, SnapshotOf(a, sid).value))
  }

  /** However the session goes on, the k-th later send gets the seq k above the counter, so that no
      seq buffered before is given out again. */
  ghost predicate NumbersOn(s: Session) {
    && (forall es: seq<SessionEvent> :: SessionRun(s, es).nextSend == s.nextSend + |Sends(es)|)
    && (forall es: seq<SessionEvent>, n :: n in s.outbox ==> n < SessionRun(s, es).nextSend)
  }

  lemma SoundNumbersOn(s: Session)
    requires Sound(s)
    ensures NumbersOn(s)
  {
    forall es: seq<SessionEvent> ensures SessionRun(s, es).nextSend == s.nextSend + |Sends(es)| {
      CounterCountsSends(s, es);
    }
  }

  /** Hydrating a node from another node's snapshot of a live session carries over everything but
      the sparse set above the watermark: the new node snapshots the same, replays exactly the same
      unacked messages, numbers on from where the old one was in every continuation, and leaves all
      other sessions alone. */
  lemma MigrationPreserves(a: Manager, b: Manager, sid: Sid)
    requires sid in a.sessions && Sound(a.sessions[sid])
    ensures var b' := Migrated(a, b, sid);
      && b'.sessions[sid] == a.sessions[sid].(seen := {})
      && SnapshotOf(b', sid) == SnapshotOf(a, sid)
      && (forall n :: Replay(b'.sessions[sid], n) == Replay(a.sessions[sid], n))
      && NumbersOn(b'.sessions[sid])
      && forall other :: other in b.sessions && other != sid ==> b'.sessions[other] == b.sessions[other]
  {
    LoadedListed(a.sessions[sid].outbox);
    SoundNumbersOn(a.sessions[sid].(seen := {}));
  }

  lemma OutboxRowsAreKeyed(t: Tables, sid: Sid)
    ensures WellKeyed(OutboxRows(t, sid))
    ensures forall n :: n in OutboxRows(t, sid) <==> (sid, n) in t.outbox
    ensures forall n :: n in OutboxRows(t, sid) ==> OutboxRows(t, sid)[n].payload == t.outbox[(sid, n)].payload
  {
  }

  /** The session row of a node's disk with its outbox rows. */
  function OnDisk(t: Tables, sid: Sid): Session
    requires sid in t.sessions
  {
    var row := t.sessions[sid];
    Session(row.room, row.nextSend, OutboxRows(t, sid), row.lastProcessed, {})
  }

  /** The same from a node that has the session on disk only, whatever its watermark: the adopted
      session has the durable counter, room, watermark and unacked rows.  It is what that node itself
      would recover if the watermark is not positive (else that node would add its message log). */
  lemma MigrationFromDisk(a: Manager, b: Manager, sid: Sid, room: Room)
    requires sid !in a.sessions && sid in a.store.db.sessions
    ensures var b' := Migrated(a, b, sid); var row := a.store.db.sessions[sid];
      && b'.sessions[sid] == OnDisk(a.store.db, sid)
      && SnapshotOf(b', sid) == SnapshotOf(a, sid)
      && (row.lastProcessed <= 0 ==> b'.sessions[sid] == Recover(a.store.db, sid, room))
      && ((forall n: int :: (sid, n) in a.store.db.outbox ==> n < row.nextSend) ==> NumbersOn(b'.sessions[sid]))
      && forall other :: other in b.sessions && other != sid ==> b'.sessions[other] == b.sessions[other]
  {
    var s := OnDisk(a.store.db, sid);
    OutboxRowsAreKeyed(a.store.db, sid);
    LoadedListed(OutboxRows(a.store.db, sid));
    if forall n: int :: (sid, n) in a.store.db.outbox ==> n < s.nextSend {
      SoundNumbersOn(s);
    }
  }

  // ---- The class ---------------------------------------------------------------------------------------

  lemma {:induction false} LoadedOnTop(base: map<int, OutboundMessage>, rows: seq<OutboundMessage>)
    ensures Loaded(base, rows) == base + Loaded(map[], rows)
  {
    if rows != [] {
      LoadedOnTop(base, rows[..|rows| - 1]);
    }
  }

  lemma RecoverSteps(t: Tables, sid: Sid)
    ensures Loaded(map[], Listed(OutboxRows(t, sid))) == OutboxRows(t, sid)
    ensures forall base: map<int, OutboundMessage>, n ::
      Loaded(base, Listed(HistoryRows(t, sid, n))) == base + HistoryRows(t, sid, n)
  {
    LoadedListed(OutboxRows(t, sid));
    forall base: map<int, OutboundMessage>, n
      ensures Loaded(base, Listed(HistoryRows(t, sid, n))) == base + HistoryRows(t, sid, n)
    {
      LoadedListed(HistoryRows(t, sid, n));
      LoadedOnTop(base, Listed(HistoryRows(t, sid, n)));
    }
  }

  lemma EnqueuedOneByOne(st: Store, ops: seq<WriteOp>, op: WriteOp)
    ensures EnqueuedAll(st, ops + [op]) == Enqueued(EnqueuedAll(st, ops), op)
  {
    assert (ops + [op])[..|ops|] == ops;
  }

  /** Opening a session first changes nothing for an operation on it. */
  lemma PerformOnOpened(m: Manager, sid: Sid, e: Effect)
    ensures sid in Opened(m, sid, "general").sessions
    ensures Opened(m, sid, "general").sessions[sid] == SessionOf(m, sid, "general")
    ensures Opened(m, sid, "general").store == m.store
    ensures Perform(Opened(m, sid, "general"), sid, e) == Perform(m, sid, e)
  {
    var s := Recover(m.store.db, sid, "general");
    assert m.sessions[sid := s][sid := e.session] == m.sessions[sid := e.session];
  }

  lemma EnqueuedThree(st: Store, a: WriteOp, b: WriteOp, c: WriteOp)
    ensures EnqueuedAll(st, []) == st
    ensures EnqueuedAll(st, [a]) == Enqueued(st, a)
    ensures EnqueuedAll(st, [a, b]) == Enqueued(Enqueued(st, a), b)
    ensures EnqueuedAll(st, [a, b, c]) == Enqueued(Enqueued(Enqueued(st, a), b), c)
  {
    assert [a, b, c][..2] == [a, b] && [a, b][..1] == [a] && [a][..0] == [];
  }

  class SessionManager {
    const store: OutboxStore
    var sessions: map<Sid, SessionState>
    var order: seq<Sid>

    /** Each session is filed under its own id; the dict has no key twice. */
    ghost predicate Valid()
      reads this, sessions.Values
    {
      && (forall sid :: sid in sessions ==> sessions[sid].sessionId == sid)
      && (forall sid :: sid in order <==> sid in sessions)
      && Distinct(order)
    }

    function Views(): map<Sid, Session>
      reads this, sessions.Values
    {
      map sid | sid in sessions :: sessions[sid].View()
    }

    function View(): Manager
      reads this, sessions.Values, store
    {
      Manager(Views(), order, store.View())
    }

    constructor (store: OutboxStore)
      ensures Valid() && this.store == store && sessions == map[]
      ensures View() == Manager(map[], [], store.View())
    {
      this.store := store;
      sessions, order := map[], [];
    }

    /** sessions[session_id] = session */
    method Adopt(session: SessionState)
      requires Valid()
      modifies this
      ensures Valid() && sessions == old(sessions)[session.sessionId := session]
      ensures View() == With(old(View()), session.sessionId, session.View())
      ensures forall s :: s in sessions.Values ==> s in old(sessions.Values) || s == session
    {
      sessions := sessions[session.sessionId := session];
      if session.sessionId !in order {
        order := order + [session.sessionId];
      }
      assert Views() == old(Views())[session.sessionId := session.View()];
    }

    method GetOrCreate(sid: Sid, room: Room := "general") returns (session: SessionState)
      requires Valid()
      modifies this
      ensures Valid() && sid in sessions && session == sessions[sid]
      ensures View() == Opened(old(View()), sid, room)
      ensures forall s :: s in sessions.Values ==> s in old(sessions.Values) || fresh(s)
    {
      if sid in sessions {
        return sessions[sid];
      }
      session := RecoverOrCreate(sid, room);
      Adopt(session);
    }

    method RecoverOrCreate(sid: Sid, room: Room) returns (session: SessionState)
      ensures fresh(session) && session.sessionId == sid
      ensures session.View() == Recover(store.db, sid, room)
    {
      if sid !in store.db.sessions {
        session := new SessionState(sid, 1, 0, room);
        return;
      }
      var saved := store.db.sessions[sid];
      session := new SessionState(sid, saved.nextSend, saved.lastProcessed, saved.room);
      RecoverSteps(store.db, sid);
      session.LoadOutboxRows(Listed(OutboxRows(store.db, sid)));
      if saved.lastProcessed > 0 {
        session.LoadOutboxRows(Listed(HistoryRows(store.db, sid, saved.lastProcessed)));
      }
    }

    method PersistSessionMeta(session: SessionState)
      modifies store
      ensures store.View() == Enqueued(old(store.View()), Meta(session.sessionId, session.View()))
    {
      store.Put(SaveSession(session.sessionId, session.nextSendSeq, session.lastProcessedSeq, session.roomId));
    }

    method SetRoom(sid: Sid, room: Room) returns (now: Room)
      requires Valid()
      modifies this, store, sessions.Values
      ensures Valid() && now == room
      ensures View() == Perform(old(View()), sid, RoomEffect(sid, SessionOf(old(View()), sid, "general"), room))
      ensures forall s :: s in sessions.Values ==> s in old(sessions.Values) || fresh(s)
    {
      var session := GetOrCreate(sid);
      PerformOnOpened(old(View()), sid, RoomEffect(sid, session.View(), room));
      SetRoomOf(session, room);
      return session.roomId;
    }

    method SetRoomOf(session: SessionState, room: Room)
      requires Valid() && session.sessionId in sessions && sessions[session.sessionId] == session
      modifies store, session
      ensures Valid() && session.roomId == room
      ensures View() == Perform(old(View()), session.sessionId,
                               RoomEffect(session.sessionId, old(session.View()), room))
    {
      ghost var e := RoomEffect(session.sessionId, session.View(), room);
      EnqueuedThree(store.View(), e.ops[0], e.ops[0], e.ops[0]);
      session.roomId := room;
      PersistSessionMeta(session);
      assert Views() == old(Views())[session.sessionId := e.session];
    }

    method SendMessage(sid: Sid, payload: Payload, now: real) returns (seqNo: int)
      requires Valid()
      modifies this, store, sessions.Values
      ensures Valid() && seqNo == SessionOf(old(View()), sid, "general").nextSend
      ensures View() == Perform(old(View()), sid, SendEffect(sid, SessionOf(old(View()), sid, "general"), payload, now))
      ensures forall s :: s in sessions.Values ==> s in old(sessions.Values) || fresh(s)
    {
      var session := GetOrCreate(sid);
      PerformOnOpened(old(View()), sid, SendEffect(sid, session.View(), payload, now));
      seqNo := SendTo(session, payload, now);
    }

    method SendTo(session: SessionState, payload: Payload, now: real) returns (seqNo: int)
      requires Valid() && session.sessionId in sessions && sessions[session.sessionId] == session
      modifies store, session
      ensures Valid() && seqNo == old(session.nextSendSeq)
      ensures View() == Perform(old(View()), session.sessionId,
                               SendEffect(session.sessionId, old(session.View()), payload, now))
    {
      ghost var e := SendEffect(session.sessionId, session.View(), payload, now);
      EnqueuedThree(store.View(), e.ops[0], e.ops[1], e.ops[2]);
      var msg := session.PrepareOutbound(payload, now);
      store.Put(SaveOutbound(session.sessionId, msg.seqNo, msg.payload, msg.sentAt));
      store.Put(SaveMessageLog(session.sessionId, msg.seqNo, msg.payload, msg.sentAt));
      PersistSessionMeta(session);
      assert Views() == old(Views())[session.sessionId := e.session];
      return msg.seqNo;
    }

    method HandleAck(sid: Sid, n: int)
      requires Valid()
      modifies this, store, sessions.Values
      ensures Valid()
      ensures View() == Perform(old(View()), sid, AckEffect(sid, SessionOf(old(View()), sid, "general"), n))
      ensures forall s :: s in sessions.Values ==> s in old(sessions.Values) || fresh(s)
    {
      var session := GetOrCreate(sid);
      PerformOnOpened(old(View()), sid, AckEffect(sid, session.View(), n));
      AckOf(session, n);
    }

    method AckOf(session: SessionState, n: int)
      requires Valid() && session.sessionId in sessions && sessions[session.sessionId] == session
      modifies store, session
      ensures Valid()
      ensures View() == Perform(old(View()), session.sessionId, AckEffect(session.sessionId, old(session.View()), n))
    {
      ghost var e := AckEffect(session.sessionId, session.View(), n);
      ghost var op := DeleteOutbound(session.sessionId, n);
      EnqueuedThree(store.View(), op, op, op);
      var present := session.HandleAck(n);
      if present {
        store.Put(DeleteOutbound(session.sessionId, n));
      }
      assert Views() == old(Views())[session.sessionId := e.session];
    }

    method ReceiveMessage(sid: Sid, n: int, payload: Payload, now: real) returns (process: bool)
      requires Valid()
      modifies this, store, sessions.Values
      ensures Valid() && (process <==> ShouldProcess(SessionOf(old(View()), sid, "general"), n))
      ensures View() == Perform(old(View()), sid,
                               ReceiveEffect(sid, SessionOf(old(View()), sid, "general"), n, payload, now))
      ensures forall s :: s in sessions.Values ==> s in old(sessions.Values) || fresh(s)
    {
      var session := GetOrCreate(sid);
      PerformOnOpened(old(View()), sid, ReceiveEffect(sid, session.View(), n, payload, now));
      process := ReceiveOn(session, n, payload, now);
    }

    method ReceiveOn(session: SessionState, n: int, payload: Payload, now: real) returns (process: bool)
      requires Valid() && session.sessionId in sessions && sessions[session.sessionId] == session
      modifies store, session
      ensures Valid() && (process <==> ShouldProcess(old(session.View()), n))
      ensures View() == Perform(old(View()), session.sessionId,
                               ReceiveEffect(session.sessionId, old(session.View()), n, payload, now))
    {
      ghost var e := ReceiveEffect(session.sessionId, session.View(), n, payload, now);
      process := session.ShouldProcessInbound(n);
      if process {
        EnqueuedThree(store.View(), e.ops[0], e.ops[1], e.ops[1]);
        session.MarkInboundProcessed(n);
        store.Put(SaveMessageLog(session.sessionId, n, payload, now));
        PersistSessionMeta(session);
      }
      assert Views() == old(Views())[session.sessionId := e.session];
    }

    method HasLocalRecord(sid: Sid) returns (known: bool)
      ensures known <==> sid in View().sessions || sid in View().store.db.sessions
    {
      return sid in sessions || sid in store.db.sessions;
    }

    method SnapshotSession(sid: Sid) returns (snapshot: Option<Snapshot>)
      ensures snapshot == SnapshotOf(View(), sid)
    {
      if sid in sessions {
        var s := sessions[sid];
        return Some(Snapshot(s.nextSendSeq, s.lastProcessedSeq, s.roomId, Listed(s.outbox)));
      }
      if sid !in store.db.sessions {
        return None;
      }
      var saved := store.db.sessions[sid];
      return Some(Snapshot(saved.nextSend, saved.lastProcessed, saved.room, Listed(OutboxRows(store.db, sid))));
    }

    /** Queues the rows of an adopted session one by one. */
    method SaveOutboundRows(sid: Sid, rows: seq<OutboundMessage>, ghost meta: WriteOp, ghost before: Store)
      requires store.View() == EnqueuedAll(before, [meta])
      modifies store
      ensures store.View() == EnqueuedAll(before, [meta] + SaveRows(sid, rows))
    {
      var i := 0;
      assert [meta] + SaveRows(sid, rows[..0]) == [meta];
      while i < |rows|
        invariant 0 <= i <= |rows|
        invariant store.View() == EnqueuedAll(before, [meta] + SaveRows(sid, rows[..i]))
      {
        var op := SaveOutbound(sid, rows[i].seqNo, rows[i].payload, rows[i].sentAt);
        store.Put(op);
        assert rows[..i + 1][..i] == rows[..i];
        EnqueuedOneByOne(before, [meta] + SaveRows(sid, rows[..i]), op);
        assert [meta] + SaveRows(sid, rows[..i]) + [op] == [meta] + SaveRows(sid, rows[..i + 1]);
        i := i + 1;
      }
      assert rows[..i] == rows;
    }

    /** Adopts another node's snapshot and persists it. */
    method HydrateFromSnapshot(sid: Sid, snap: Snapshot) returns (session: SessionState)
      requires Valid()
      modifies this, store
      ensures Valid() && sid in sessions && session == sessions[sid] && fresh(session)
      ensures View() == Perform(old(View()), sid, HydrateEffect(sid, snap))
      ensures forall s :: s in sessions.Values ==> s in old(sessions.Values) || fresh(s)
    {
      session := AdoptSnapshot(sid, snap);
      PersistAdopted(session, Listed(session.outbox));
    }

    method AdoptSnapshot(sid: Sid, snap: Snapshot) returns (session: SessionState)
      requires Valid()
      modifies this
      ensures Valid() && sid in sessions && session == sessions[sid] && fresh(session) && session.sessionId == sid
      ensures View() == With(old(View()), sid, session.View()) && session.View() == HydrateEffect(sid, snap).session
      ensures forall s :: s in sessions.Values ==> s in old(sessions.Values) || fresh(s)
    {
      session := new SessionState(sid, snap.nextSend, snap.lastProcessed, snap.room);
      session.LoadOutboxRows(snap.outbox);
      Adopt(session);
    }

    method PersistAdopted(session: SessionState, rows: seq<OutboundMessage>)
      requires Valid()
      modifies store
      ensures Valid() && Views() == old(Views())
      ensures var ops := [Meta(session.sessionId, session.View())] + SaveRows(session.sessionId, rows);
        store.View() == EnqueuedAll(old(store.View()), ops)
    {
      ghost var meta := Meta(session.sessionId, session.View());
      EnqueuedThree(store.View(), meta, meta, meta);
      PersistSessionMeta(session);
      SaveOutboundRows(session.sessionId, rows, meta, old(store.View()));
    }

    method SessionIdsInRoom(room: Room) returns (sids: seq<Sid>)
      requires Valid()
      ensures sids == InRoom(View(), room)
    {
      sids := [];
      var i := 0;
      while i < |order|
        invariant 0 <= i <= |order|
        invariant sids == Filtered(Views(), order[..i], room)
      {
        assert order[..i + 1][..i] == order[..i];
        if sessions[order[i]].roomId == room {
          sids := sids + [order[i]];
        }
        i := i + 1;
      }
      assert order[..i] == order;
    }
  }
}
