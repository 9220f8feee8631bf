/** What becomes of an admitted message, in every life of a node: the payload and the time it is broadcast
    and relayed with, and the rows it leaves in the message log. */
module NodeMessages {
  import opened Base
  import opened SessionStates
  import opened Persistence
  import opened SessionManagers
  import opened NodeBroadcast
  import opened NodeSteps
  import opened NodeRuns
  import opened NodeGuarantees
  import opened NodeWire
  import D = Durability

  // ---- Payload and time ----------------------------------------------------------------------------------

  /** An admitted frame is broadcast with its text, under the poster's name, into the poster's room, with
      the time it carries if that is there and not zero, else with the clock. */
  lemma MessageIsBroadcastAs(l: Life, es: seq<NodeEvent>, e: NodeEvent)
    requires e.MessageIn?
    ensures var b := BroadcastOf(l, es, e); b.Some? ==>
      && b.value.from == e.sid && b.value.room == RoomOrFirst(l, es, e.sid) && b.value.payload.Chat?
      && b.value.payload.text == e.msg.text && b.value.payload.author == Name(es, e.sid)
      && b.value.payload.room == b.value.room
      && (e.msg.sentAt.Some? && e.msg.sentAt.value != 0.0 ==> b.value.payload.sentAt == e.msg.sentAt)
      && (e.msg.sentAt.None? || e.msg.sentAt.value == 0.0 ==> b.value.payload.sentAt == Some(e.now))
  {
  }

  /** The payload says what the event said: the text, and the time it was posted at. */
  predicate SaysAsPosted(e: NodeEvent, p: Payload) {
    match e
    case MessageIn(_, _, msg, now) =>
      && p.Chat? && p.text == msg.text
      && (msg.sentAt.Some? && msg.sentAt.value != 0.0 ==> p.sentAt == msg.sentAt)
      && (msg.sentAt.None? || msg.sentAt.value == 0.0 ==> p.sentAt == Some(now))
    case RelayIn(_, text, from, at, _) => p.Chat? && p.text == text && p.author == from && p.sentAt == at
    case _ => false
  }

  ghost predicate PostedBy(es: seq<NodeEvent>, p: Payload) {
    exists i :: 0 <= i < |es| && SaysAsPosted(es[i], p)
  }

  lemma PostedLater(es: seq<NodeEvent>, e: NodeEvent, p: Payload)
    requires PostedBy(es, p)
    ensures PostedBy(es + [e], p)
  {
    var i :| 0 <= i < |es| && SaysAsPosted(es[i], p);
    assert (es + [e])[i] == es[i];
  }

  /** Every entry of every log in every life says as it was posted. */
  lemma {:induction false} LogsSayAsPosted(l: Life, es: seq<NodeEvent>, sid: Sid, k: nat)
    requires k < |MeantLog(l, es, sid)|
    ensures PostedBy(es, MeantLog(l, es, sid)[k])
  {
    var init, e := es[..|es| - 1], es[|es| - 1];
    SplitLast(es);
    if k < |MeantLog(l, init, sid)| {
      LogsSayAsPosted(l, init, sid, k);
      PostedLater(init, e, MeantLog(l, init, sid)[k]);
    } else {
      assert SaysAsPosted(es[|es| - 1], BroadcastOf(l, init, e).value.payload);
    }
  }

  /** And so does every relay call. */
  lemma RelaySaysAsPosted(l: Life, es: seq<NodeEvent>, e: NodeEvent)
    requires l.meshed && e.MessageIn? && BroadcastOf(l, es, e).Some?
    ensures var now := NodeRun(l, es + [e]).relays; var before := NodeRun(l, es).relays;
      && |now| == |before| + 1 && now[..|before|] == before
      && now[|before|].text == e.msg.text && now[|before|].fromName == Name(es, e.sid)
      && now[|before|].room == RoomOrFirst(l, es, e.sid)
      && (e.msg.sentAt.Some? && e.msg.sentAt.value != 0.0 ==> now[|before|].sentAt == e.msg.sentAt.value)
      && (e.msg.sentAt.None? || e.msg.sentAt.value == 0.0 ==> now[|before|].sentAt == e.now)
  {
    RelaysExactlyOnce(l, es);
    RelaysExactlyOnce(l, es + [e]);
    assert (es + [e])[..|es|] == es;
  }

  // ---- The message log --------------------------------------------------------------------------------------

  type LogTable = map<(string, int), LogRow>

  /** The log with everything queued. */
  function LogOf(m: Manager): LogTable {
    Effective(m.store).log
  }

  /** The row an event leaves under a key and seq, if any: the copy of a recipient whose next number it
      is; else the poster's room's; else, under the poster's own seq, the object the client sent. */
  function RowBy(l: Life, es: seq<NodeEvent>, e: NodeEvent, key: string, n: int): Option<LogRow> {
    var b := BroadcastOf(l, es, e);
    if b.None? then None
    else if MeantFor(l, es, b.value, key) && BaseOf(l, es, key).Some?
            && n == BaseOf(l, es, key).value.nextSend + |MeantLog(l, es, key)|
    then Some(LogRow(b.value.payload, b.value.at))
    else if e.MessageIn? && key == "room:" + b.value.room && n == e.msg.seqNo
    then Some(LogRow(b.value.payload,
                     if e.msg.sentAt.Some? && e.msg.sentAt.value != 0.0 then e.msg.sentAt.value else e.now))
    else if e.MessageIn? && key == e.sid && n == e.msg.seqNo then Some(LogRow(e.msg.raw, e.now))
    else None
  }

  /** The last row left under a key and seq in this life. */
  function LastRow(l: Life, es: seq<NodeEvent>, key: string, n: int): Option<LogRow> {
    if es == [] then None
    else
      var init := es[..|es| - 1];
      var row := RowBy(l, init, es[|es| - 1], key, n);
      if row.Some? then row else LastRow(l, init, key, n)
  }

  function RowAt(log: LogTable, key: string, n: int): Option<LogRow> {
    if (key, n) in log then Some(log[(key, n)]) else None
  }

  lemma PerformLogs(m: Manager, sid: Sid, e: Effect)
    ensures LogOf(Perform(m, sid, e)) == ApplyAll(Effective(m.store), e.ops).log
  {
    EnqueueAllAppliesLast(m.store, e.ops);
  }

  lemma SendLogs(m: Manager, sid: Sid, s: Session, p: Payload, now: real)
    ensures LogOf(Perform(m, sid, SendEffect(sid, s, p, now))) == LogOf(m)[(sid, s.nextSend) := LogRow(p, now)]
  {
    var ops := SendEffect(sid, s, p, now).ops;
    PerformLogs(m, sid, SendEffect(sid, s, p, now));
    D.ApplyThree(Effective(m.store), ops[0], ops[1], ops[2]);
  }

  lemma ReceiveLogs(m: Manager, sid: Sid, s: Session, n: int, p: Payload, now: real)
    ensures LogOf(Perform(m, sid, ReceiveEffect(sid, s, n, p, now))) ==
            if ShouldProcess(s, n) then LogOf(m)[(sid, n) := LogRow(p, now)] else LogOf(m)
  {
    var e := ReceiveEffect(sid, s, n, p, now);
    PerformLogs(m, sid, e);
    if ShouldProcess(s, n) {
      D.ApplyThree(Effective(m.store), e.ops[0], e.ops[1], e.ops[1]);
    }
  }

  lemma UnloggedEffect(m: Manager, sid: Sid, e: Effect)
    requires LogsNothing(e.ops)
    ensures LogOf(Perform(m, sid, e)) == LogOf(m)
  {
    PerformLogs(m, sid, e);
    UnloggedOpsKeepLog(Effective(m.store), e.ops);
  }

  lemma AckLogsNothing(m: Manager, sid: Sid, s: Session, n: int)
    ensures LogOf(Perform(m, sid, AckEffect(sid, s, n))) == LogOf(m)
  {
    UnloggedEffect(m, sid, AckEffect(sid, s, n));
  }

  lemma RoomLogsNothing(m: Manager, sid: Sid, s: Session, room: Room)
    ensures LogOf(Perform(m, sid, RoomEffect(sid, s, room))) == LogOf(m)
  {
    UnloggedEffect(m, sid, RoomEffect(sid, s, room));
  }

  lemma HydrateLogsNothing(m: Manager, sid: Sid, snap: Snapshot)
    ensures LogOf(Perform(m, sid, HydrateEffect(sid, snap))) == LogOf(m)
  {
    SaveRowsLogNothing(sid, Listed(HydrateEffect(sid, snap).session.outbox));
    UnloggedEffect(m, sid, HydrateEffect(sid, snap));
  }

  lemma DeliverOneLogs(n: Node, sid: Sid, from: string, p: Payload, now: real, s: Session, key: string, k: int)
    requires sid in n.manager.sessions && n.manager.sessions[sid] == s
    ensures RowAt(LogOf(DeliverOne(n, sid, from, p, now).manager), key, k) ==
            if sid != from && key == sid && k == s.nextSend then Some(LogRow(p, now))
            else RowAt(LogOf(n.manager), key, k)
  {
    if sid != from {
      SendLogs(n.manager, sid, s, p, now);
    }
  }

  /** A broadcast leaves a row for every recipient, under its next number. */
  lemma {:induction false} DeliverAllLogs(n: Node, sids: seq<Sid>, from: string, p: Payload, now: real, key: string,
                                          k: int)
    requires Distinct(sids) && forall sid :: sid in sids ==> sid in n.manager.sessions
    ensures RowAt(LogOf(DeliverAll(n, sids, from, p, now).manager), key, k) ==
            if key in sids && key != from && k == n.manager.sessions[key].nextSend then Some(LogRow(p, now))
            else RowAt(LogOf(n.manager), key, k)
  {
    if sids != [] {
      var init, last := sids[..|sids| - 1], sids[|sids| - 1];
      SplitLast(sids);
      assert last in sids && last !in init && forall sid :: sid in init ==> sid in sids;
      var mid := DeliverAll(n, init, from, p, now);
      DeliverAllLogs(n, init, from, p, now, key, k);
      DeliverAllFrame(n, init, from, p, now);
      DeliverAllEffect(n, init, from, p, now, last);
      DeliverOneLogs(mid, last, from, p, now, n.manager.sessions[last], key, k);
    }
  }

  lemma BroadcastLogs(n: Node, room: Room, p: Payload, from: string, now: real, key: string, k: int)
    requires Coherent(n.manager)
    ensures RowAt(LogOf(BroadcastedLocally(n, room, p, from, now).manager), key, k) ==
            if Gets(n, Broadcast(from, room, p, now), key) && k == n.manager.sessions[key].nextSend
            then Some(LogRow(p, now)) else RowAt(LogOf(n.manager), key, k)
  {
    DeliverAllLogs(n, InRoom(n.manager, room), from, p, now, key, k);
  }

  /** The rows before any broadcast. */
  lemma ReadyLogs(n: Node, sid: Sid, conn: Conn, msg: Inbound, now: real)
    requires ShouldProcess(SessionOf(n.manager, sid, "general"), msg.seqNo)
    ensures var room := SessionOf(n.manager, sid, "general").room;
      LogOf(ReadyToBroadcast(n, sid, conn, msg, now).manager) ==
        LogOf(n.manager)[(sid, msg.seqNo) := LogRow(msg.raw, now)]
                        [("room:" + room, msg.seqNo) :=
                           LogRow(ChatPayload(n, sid, room, msg, now),
                                  if msg.sentAt.Some? && msg.sentAt.value != 0.0 then msg.sentAt.value else now)]
  {
    var s := SessionOf(n.manager, sid, "general");
    var got := Received(n, sid, conn, msg, now);
    ReceiveLogs(n.manager, sid, s, msg.seqNo, msg.raw, now);
    var op := SaveMessageLog("room:" + s.room, msg.seqNo, ChatPayload(got, sid, s.room, msg, now), SentAt(msg, now));
    EnqueueAppliesLast(got.manager.store, op);
  }

  /** The same row, from the state of the node. */
  function RowNow(n: Node, e: NodeEvent, key: string, k: int): Option<LogRow> {
    var b := BroadcastBy(n, e);
    if b.None? then None
    else if Gets(n, b.value, key) && k == n.manager.sessions[key].nextSend
    then Some(LogRow(b.value.payload, b.value.at))
    else if e.MessageIn? && key == "room:" + b.value.room && k == e.msg.seqNo
    then Some(LogRow(b.value.payload,
                     if e.msg.sentAt.Some? && e.msg.sentAt.value != 0.0 then e.msg.sentAt.value else e.now))
    else if e.MessageIn? && key == e.sid && k == e.msg.seqNo then Some(LogRow(e.msg.raw, e.now))
    else None
  }

  function Newer(row: Option<LogRow>, older: Option<LogRow>): Option<LogRow> {
    if row.Some? then row else older
  }

  lemma ReadyRows(n: Node, e: NodeEvent, key: string, k: int)
    requires e.MessageIn? && ShouldProcess(SessionOf(n.manager, e.sid, "general"), e.msg.seqNo)
    ensures var ready := ReadyToBroadcast(n, e.sid, e.conn, e.msg, e.now); var b := BroadcastBy(n, e).value;
      RowAt(LogOf(ready.manager), key, k) ==
        if key == "room:" + b.room && k == e.msg.seqNo
        then Some(LogRow(b.payload,
                         if e.msg.sentAt.Some? && e.msg.sentAt.value != 0.0 then e.msg.sentAt.value else e.now))
        else if key == e.sid && k == e.msg.seqNo then Some(LogRow(e.msg.raw, e.now))
        else RowAt(LogOf(n.manager), key, k)
  {
    ReadyLogs(n, e.sid, e.conn, e.msg, e.now);
  }

  lemma ReadyGets(n: Node, e: NodeEvent, key: string)
    requires Coherent(n.manager) && e.MessageIn?
    requires ShouldProcess(SessionOf(n.manager, e.sid, "general"), e.msg.seqNo)
    ensures var ready := ReadyToBroadcast(n, e.sid, e.conn, e.msg, e.now); var b := BroadcastBy(n, e).value;
      && (Gets(ready, b, key) <==> Gets(n, b, key))
      && (Gets(n, b, key) ==> ready.manager.sessions[key].nextSend == n.manager.sessions[key].nextSend)
  {
    LoggedEffect(n, e.sid, e.conn, e.msg, e.now);
  }

  lemma AdmittedLogs(n: Node, e: NodeEvent, key: string, k: int)
    requires Coherent(n.manager) && e.MessageIn? && ShouldProcess(SessionOf(n.manager, e.sid, "general"), e.msg.seqNo)
    ensures RowAt(LogOf(NodeStep(n, e).manager), key, k) == Newer(RowNow(n, e, key, k), RowAt(LogOf(n.manager), key, k))
  {
    var b := BroadcastBy(n, e).value;
    var ready := ReadyToBroadcast(n, e.sid, e.conn, e.msg, e.now);
    ReadyRows(n, e, key, k);
    ReadyGets(n, e, key);
    InboundIsBroadcast(n, e.sid, e.conn, e.msg, e.now);
    BroadcastLogs(ready, b.room, b.payload, e.sid, e.now, key, k);
  }

  lemma DuplicateLogs(n: Node, e: NodeEvent)
    requires e.MessageIn? && !ShouldProcess(SessionOf(n.manager, e.sid, "general"), e.msg.seqNo)
    ensures LogOf(NodeStep(n, e).manager) == LogOf(n.manager)
  {
    ReceiveLogs(n.manager, e.sid, SessionOf(n.manager, e.sid, "general"), e.msg.seqNo, e.msg.raw, e.now);
  }

  lemma FoundLogs(m: Manager, meshed: bool, sid: Sid, found: Option<Snapshot>)
    ensures LogOf(Found(m, meshed, sid, found)) == LogOf(m)
  {
    if Found(m, meshed, sid, found) != m {
      HydrateLogsNothing(m, sid, found.value);
    }
  }

  lemma QuietLogs(n: Node, e: NodeEvent)
    requires !e.MessageIn? && !e.RelayIn?
    ensures LogOf(NodeStep(n, e).manager) == LogOf(n.manager)
  {
    match e {
      case Hello(sid, _, _, found) => HandshakeManager(n, e); FoundLogs(n.manager, n.meshed, sid, found);
      case Login(sid, _, _, found) => HandshakeManager(n, e); FoundLogs(n.manager, n.meshed, sid, found);
      case AckIn(sid, k) => AckLogsNothing(n.manager, sid, SessionOf(n.manager, sid, "general"), k);
      case Join(sid, room) => RoomLogsNothing(n.manager, sid, SessionOf(n.manager, sid, "general"), room);
      case WriterTurn(due) => LoopTurnKeepsEffective(n.manager.store, due);
      case _ =>
    }
  }

  lemma StepLogs(n: Node, e: NodeEvent, key: string, k: int)
    requires Coherent(n.manager)
    ensures RowAt(LogOf(NodeStep(n, e).manager), key, k) == Newer(RowNow(n, e, key, k), RowAt(LogOf(n.manager), key, k))
  {
    if e.MessageIn? {
      if ShouldProcess(SessionOf(n.manager, e.sid, "general"), e.msg.seqNo) {
        AdmittedLogs(n, e, key, k);
      } else {
        DuplicateLogs(n, e);
      }
    } else if e.RelayIn? {
      BroadcastLogs(n, e.room, Chat(e.text, e.fromName, e.room, e.sentAt), e.fromName, e.now, key, k);
    } else {
      QuietLogs(n, e);
    }
  }

  lemma RowIsByHistory(l: Life, es: seq<NodeEvent>, e: NodeEvent, key: string, k: int)
    ensures RowNow(NodeRun(l, es), e, key, k) == RowBy(l, es, e, key, k)
  {
    SessionsFollowTheirHistory(l, es, key);
    if e.MessageIn? {
      SessionsFollowTheirHistory(l, es, e.sid);
    }
    BroadcastIsMade(l, es, e);
    var b := BroadcastOf(l, es, e);
    if b.Some? {
      MeantIsGiven(l, es, b.value, key);
      if Gets(NodeRun(l, es), b.value, key) {
        NextNumber(l, es, key);
      }
    }
  }

  /** In every life, from any disk, the message log (with what is queued) holds under each key and seq the
      last row this life left there, or what the disk had: the client's own object under the seq of its
      admitted frame, each recipient's copy under the recipient's number, and the room's copy. */
  lemma {:induction false} LogIsByHistory(l: Life, es: seq<NodeEvent>, key: string, k: int)
    ensures RowAt(LogOf(NodeRun(l, es).manager), key, k) == Newer(LastRow(l, es, key, k), RowAt(l.db.log, key, k))
  {
    if es != [] {
      var init := es[..|es| - 1];
      LogIsByHistory(l, init, key, k);
      RunIsCoherent(l, init);
      StepLogs(NodeRun(l, init), es[|es| - 1], key, k);
      RowIsByHistory(l, init, es[|es| - 1], key, k);
    }
  }

  /** So an admitted frame is in its session's log as the client sent it, and in its room's log with its
      text and its time, as soon as it is handled (unless the session is called like a room). */
  lemma AdmittedIsLogged(l: Life, es: seq<NodeEvent>, e: NodeEvent)
    requires e.MessageIn? && BroadcastOf(l, es, e).Some?
    ensures var log := LogOf(NodeRun(l, es + [e]).manager); var b := BroadcastOf(l, es, e).value;
      && (e.sid != "room:" + b.room ==> RowAt(log, e.sid, e.msg.seqNo) == Some(LogRow(e.msg.raw, e.now)))
      && (!MeantFor(l, es, b, "room:" + b.room) ==>
            && RowAt(log, "room:" + b.room, e.msg.seqNo).Some?
            && var row := RowAt(log, "room:" + b.room, e.msg.seqNo).value;
               && row.payload == b.payload && row.payload.Chat? && row.payload.text == e.msg.text
               && (e.msg.sentAt.Some? && e.msg.sentAt.value != 0.0 ==>
                     row.sentAt == e.msg.sentAt.value && row.payload.sentAt == e.msg.sentAt)
               && (e.msg.sentAt.None? || e.msg.sentAt.value == 0.0 ==>
                     row.sentAt == e.now && row.payload.sentAt == Some(e.now)))
  {
    assert (es + [e])[..|es|] == es;
    var b := BroadcastOf(l, es, e).value;
    LogIsByHistory(l, es + [e], e.sid, e.msg.seqNo);
    LogIsByHistory(l, es + [e], "room:" + b.room, e.msg.seqNo);
    MessageIsBroadcastAs(l, es, e);
  }
}
