/** Broadcast on one node (node/server.py): inbound deduplication, room scoping and
    per-recipient numbering, as one step system over everything the node's clients and its
    mesh peers send it, in one life of the node: from a start on any disk to a crash or stop. */
module NodeBroadcast {
  import opened Base
  import opened SessionStates
  import opened Persistence
  import opened SessionManagers

  /** A client connection; every accepted socket is a new one. */
  type Conn = nat

  datatype Frame =
    | HelloAck(sid: Sid, room: Room, lastProcessed: int)
    | LoginAck(sid: Sid, room: Room, lastProcessed: int)
    | AckFrame(seqNo: int)
    | MessageFrame(seqNo: int, payload: Payload)

  /** A frame written to a session's connection. */
  datatype Out = Out(sid: Sid, conn: Conn, frame: Frame)

  /** A MESSAGE frame from a client: its fields and the raw object. */
  datatype Inbound = Inbound(seqNo: int, text: string, sentAt: Option<real>, raw: Payload)

  /** A relay_message call. */
  datatype Relay = Relay(room: Room, text: string, fromName: string, sentAt: real)

  datatype Node = Node(
    manager: Manager,
    connections: map<Sid, Conn>,
    usernames: map<Sid, string>,
    wire: seq<Out>,
    relays: seq<Relay>,
    meshed: bool)

  /** One life of a node: whether it has a mesh, and the disk it starts on (after a first start,
      a restart or a crash). */
  datatype Life = Life(meshed: bool, db: Tables)

  function StartNode(l: Life): Node {
    Node(Manager(map[], [], EmptyStore.(db := l.db)), map[], map[], [], [], l.meshed)
  }

  // ---- Steps ------------------------------------------------------------------------------------

  /** One turn of the loop in _broadcast_local. */
  function DeliverOne(n: Node, sid: Sid, from: string, payload: Payload, now: real): Node {
    if sid == from then n
    else
      var s := SessionOf(n.manager, sid, "general");
      n.(manager := Perform(n.manager, sid, SendEffect(sid, s, payload, now)),
         wire := if sid in n.connections
                 then n.wire + [Out(sid, n.connections[sid], MessageFrame(s.nextSend, payload))] else n.wire)
  }

  function DeliverAll(n: Node, sids: seq<Sid>, from: string, payload: Payload, now: real): Node {
    if sids == [] then n
    else DeliverOne(DeliverAll(n, sids[..|sids| - 1], from, payload, now), sids[|sids| - 1], from, payload, now)
  }

  /** _broadcast_local: everyone known to be in the room, connected or not, but the sender. */
  function BroadcastedLocally(n: Node, room: Room, payload: Payload, from: string, now: real): Node {
    DeliverAll(n, InRoom(n.manager, room), from, payload, now)
  }

  function NameOf(n: Node, sid: Sid): string {
    if sid in n.usernames then n.usernames[sid] else sid
  }

  /** payload.get("sent_at") or time.time() */
  function SentAt(msg: Inbound, now: real): real {
    if msg.sentAt.Some? && msg.sentAt.value != 0.0 then msg.sentAt.value else now
  }

  function ChatPayload(n: Node, sid: Sid, room: Room, msg: Inbound, now: real): Payload {
    Chat(msg.text, NameOf(n, sid), room, Some(SentAt(msg, now)))
  }

  /** The session is opened, its frame recorded: the first half of _handle_inbound_message. */
  function Received(n: Node, sid: Sid, conn: Conn, msg: Inbound, now: real): Node {
    n.(wire := n.wire + [Out(sid, conn, AckFrame(msg.seqNo))],
       manager := Perform(n.manager, sid,
                          ReceiveEffect(sid, SessionOf(n.manager, sid, "general"), msg.seqNo, msg.raw, now)))
  }

  /** ... and, for an admitted frame, entered in the room's log. */
  function Logged(n: Node, sid: Sid, room: Room, msg: Inbound, now: real): Node {
    var op := SaveMessageLog("room:" + room, msg.seqNo, ChatPayload(n, sid, room, msg, now), SentAt(msg, now));
    n.(manager := n.manager.(store := Enqueued(n.manager.store, op)))
  }

  /** The second half: to the room's log, to everyone else in the room, and to the mesh. */
  function Admitted(n: Node, sid: Sid, room: Room, msg: Inbound, now: real): Node {
    var logged := Logged(n, sid, room, msg, now);
    var local := BroadcastedLocally(logged, room, ChatPayload(n, sid, room, msg, now), sid, now);
    if !local.meshed then local
    else local.(relays := local.relays + [Relay(room, msg.text, NameOf(n, sid), SentAt(msg, now))])
  }

  /** _handle_inbound_message: always ACK; only a first arrival goes further. */
  function HandleInbound(n: Node, sid: Sid, conn: Conn, msg: Inbound, now: real): Node {
    var s := SessionOf(n.manager, sid, "general");
    var got := Received(n, sid, conn, msg, now);
    if ShouldProcess(s, msg.seqNo) then Admitted(got, sid, s.room, msg, now) else got
  }

  function ReplayFrames(sid: Sid, conn: Conn, msgs: seq<OutboundMessage>): seq<Out> {
    if msgs == [] then []
    else
      var m := msgs[|msgs| - 1];
      ReplayFrames(sid, conn, msgs[..|msgs| - 1]) + [Out(sid, conn, MessageFrame(m.seqNo, m.payload))]
  }

  /** Before a handshake: a meshed node that has no record of the session asks its peers for it, and
      adopts the snapshot that comes back, if any. */
  function Found(m: Manager, meshed: bool, sid: Sid, found: Option<Snapshot>): Manager {
    if meshed && found.Some? && !KnowsLocally(m, sid) then Perform(m, sid, HydrateEffect(sid, found.value)) else m
  }

  function Asked(n: Node, sid: Sid, found: Option<Snapshot>): Node {
    n.(manager := Found(n.manager, n.meshed, sid, found))
  }

  /** A handshake: the new connection replaces the old one, inbound tracking restarts, and every
      unacked message is replayed.  A LOGIN_ACK still carries the watermark from before. */
  function Connect(n: Node, sid: Sid, room: Room, conn: Conn, login: bool): Node {
    var was := SessionOf(n.manager, sid, room);
    var s := Reset(was);
    var ack := if login then LoginAck(sid, was.room, was.last) else HelloAck(sid, s.room, s.last);
    n.(connections := n.connections[sid := conn],
       manager := With(n.manager, sid, s),
       wire := n.wire + [Out(sid, conn, ack)] + ReplayFrames(sid, conn, Replay(s, 0)))
  }

  /** One message of _retry_loop. */
  function RetryOne(n: Node, sid: Sid, seqNo: int, now: real): Node {
    if sid !in n.connections || sid !in n.manager.sessions || seqNo !in n.manager.sessions[sid].outbox then n
    else
      var s := n.manager.sessions[sid];
      n.(wire := n.wire + [Out(sid, n.connections[sid], MessageFrame(seqNo, s.outbox[seqNo].payload))],
         manager := With(n.manager, sid, Retried(s, seqNo, now)))
  }

  /** already_in_room: the session is loaded and in the room it asks for. */
  predicate InRoomAlready(n: Node, sid: Sid, room: Room) {
    sid in n.manager.sessions && n.manager.sessions[sid].room == room
  }

  datatype NodeEvent =
    | Hello(sid: Sid, room: Room, conn: Conn, found: Option<Snapshot>)
    | Login(sid: Sid, username: string, conn: Conn, found: Option<Snapshot>)
    | MessageIn(sid: Sid, conn: Conn, msg: Inbound, now: real)
    | AckIn(sid: Sid, seqNo: int)
    | Join(sid: Sid, room: Room)
    | RelayIn(room: Room, text: string, fromName: string, sentAt: Option<real>, now: real)
    | Resend(sid: Sid, seqNo: int, now: real)
    | Drop(sid: Sid, conn: Conn)
    | WriterTurn(due: bool)

  function NodeStep(n: Node, e: NodeEvent): Node {
    match e
    case Hello(sid, room, conn, found) => Connect(Asked(n, sid, found), sid, room, conn, false)
    case Login(sid, user, conn, found) =>
      Connect(Asked(n.(usernames := n.usernames[sid := user]), sid, found), sid, "general", conn, true)
    case MessageIn(sid, conn, msg, now) => HandleInbound(n, sid, conn, msg, now)
    case AckIn(sid, k) =>
      n.(manager := Perform(n.manager, sid, AckEffect(sid, SessionOf(n.manager, sid, "general"), k)))
    case Join(sid, room) =>
      if InRoomAlready(n, sid, room) then n
      else n.(manager := Perform(n.manager, sid, RoomEffect(sid, SessionOf(n.manager, sid, "general"), room)))
    case RelayIn(room, text, from, at, now) => BroadcastedLocally(n, room, Chat(text, from, room, at), from, now)
    case Resend(sid, k, now) => RetryOne(n, sid, k, now)
    case Drop(sid, conn) =>
      if sid in n.connections && n.connections[sid] == conn then n.(connections := n.connections - {sid}) else n
    case WriterTurn(due) => n.(manager := n.manager.(store := LoopTurn(n.manager.store, due)))
  }

  function NodeRun(l: Life, es: seq<NodeEvent>): Node {
    if es == [] then StartNode(l) else NodeStep(NodeRun(l, es[..|es| - 1]), es[|es| - 1])
  }

  // ---- What one broadcast does to each session -------------------------------------------------------

  /** The dict of sessions and its order agree. */
  ghost predicate Coherent(m: Manager) {
    Distinct(m.order) && forall sid :: sid in m.order <==> sid in m.sessions
  }

  /** Everything but the sessions, the write queue and the wire stays. */
  ghost predicate SameFrame(n: Node, n': Node) {
    && n'.connections == n.connections && n'.usernames == n.usernames && n'.relays == n.relays && n'.meshed == n.meshed
    && n'.manager.order == n.manager.order && n'.manager.sessions.Keys == n.manager.sessions.Keys
    && n'.manager.store.db == n.manager.store.db
  }

  function SentIf(hit: bool, s: Session, payload: Payload, now: real): Session {
    if hit then Prepared(s, payload, now) else s
  }

  lemma DeliverOneFrame(n: Node, sid: Sid, from: string, payload: Payload, now: real)
    requires sid in n.manager.sessions
    ensures SameFrame(n, DeliverOne(n, sid, from, payload, now))
  {
    EnqueueAllAppliesLast(n.manager.store, SendEffect(sid, n.manager.sessions[sid], payload, now).ops);
  }

  lemma DeliverOneEffect(n: Node, sid: Sid, from: string, payload: Payload, now: real, other: Sid)
    requires sid in n.manager.sessions && other in n.manager.sessions
    ensures var n' := DeliverOne(n, sid, from, payload, now);
      && other in n'.manager.sessions
      && n'.manager.sessions[other] == SentIf(other == sid && sid != from, n.manager.sessions[other], payload, now)
  {
  }

  lemma {:induction false} DeliverAllFrame(n: Node, sids: seq<Sid>, from: string, payload: Payload, now: real)
    requires forall sid :: sid in sids ==> sid in n.manager.sessions
    ensures SameFrame(n, DeliverAll(n, sids, from, payload, now))
  {
    if sids != [] {
      var k := |sids| - 1;
      SplitLast(sids);
      assert forall sid :: sid in sids[..k] ==> sid in sids;
      DeliverAllFrame(n, sids[..k], from, payload, now);
      assert sids[k] in sids;
      DeliverOneFrame(DeliverAll(n, sids[..k], from, payload, now), sids[k], from, payload, now);
    }
  }

  lemma {:induction false} DeliverAllEffect(n: Node, sids: seq<Sid>, from: string, payload: Payload, now: real,
                                            sid: Sid)
    requires Distinct(sids) && (forall s :: s in sids ==> s in n.manager.sessions) && sid in n.manager.sessions
    ensures var n' := DeliverAll(n, sids, from, payload, now);
      && sid in n'.manager.sessions
      && n'.manager.sessions[sid] == SentIf(sid in sids && sid != from, n.manager.sessions[sid], payload, now)
  {
    if sids != [] {
      var k := |sids| - 1;
      SplitLast(sids);
      assert forall s :: s in sids[..k] ==> s in sids;
      assert sids[k] in sids && sids[k] !in sids[..k];
      DeliverAllEffect(n, sids[..k], from, payload, now, sid);
      DeliverAllFrame(n, sids[..k], from, payload, now);
      DeliverOneEffect(DeliverAll(n, sids[..k], from, payload, now), sids[k], from, payload, now, sid);
    }
  }

  /** A broadcast sends once to every session in the room but its maker, and changes no other. */
  lemma BroadcastEffect(n: Node, room: Room, payload: Payload, from: string, now: real)
    requires Coherent(n.manager)
    ensures var n' := BroadcastedLocally(n, room, payload, from, now);
      && SameFrame(n, n')
      && forall sid :: sid in n.manager.sessions ==>
           n'.manager.sessions[sid] ==
             SentIf(n.manager.sessions[sid].room == room && sid != from, n.manager.sessions[sid], payload, now)
  {
    var sids := InRoom(n.manager, room);
    DeliverAllFrame(n, sids, from, payload, now);
    forall sid | sid in n.manager.sessions
      ensures BroadcastedLocally(n, room, payload, from, now).manager.sessions[sid] ==
              SentIf(n.manager.sessions[sid].room == room && sid != from, n.manager.sessions[sid], payload, now)
    {
      DeliverAllEffect(n, sids, from, payload, now, sid);
    }
  }

  // ---- Coming back to a node -----------------------------------------------------------------------------

  /** A client that comes back to a node from another finds there what the other node had if and only if
      the node has no record of it; else it finds the node's own copy, however old.  So numbers go on
      from where they were if and only if there is no such copy or it has numbered as many. */
  lemma ReturnNumbersOnIff(a: Manager, b: Manager, sid: Sid, room: Room)
    requires sid in b.sessions && Sound(b.sessions[sid])
    ensures var s := SessionOf(Found(a, true, sid, SnapshotOf(b, sid)), sid, room);
      && (sid in a.sessions ==> s == a.sessions[sid])
      && (sid !in a.sessions && sid in a.store.db.sessions ==> s == Recover(a.store.db, sid, room))
      && (sid !in a.sessions && sid !in a.store.db.sessions ==> s == b.sessions[sid].(seen := {}))
      && (s.nextSend >= b.sessions[sid].nextSend <==>
          if sid in a.sessions then a.sessions[sid].nextSend >= b.sessions[sid].nextSend
          else sid in a.store.db.sessions ==> a.store.db.sessions[sid].nextSend >= b.sessions[sid].nextSend)
  {
    LoadedListed(b.sessions[sid].outbox);
  }

  /** A node keeps its copy of a session that moved away, and numbers what it sends it as the other node
      does: when the client is back, seq k stands for one message here and stood for another there. */
  lemma MigrationBackReusesSeqs(a: Manager, b: Manager, sid: Sid, p: Payload, q: Payload, now: real)
    requires sid in a.sessions && Sound(a.sessions[sid])
    ensures var k := a.sessions[sid].nextSend; var moved := Migrated(a, b, sid);
      && sid in moved.sessions
      && var b' := Perform(moved, sid, SendEffect(sid, moved.sessions[sid], p, now));
         var a' := Perform(a, sid, SendEffect(sid, a.sessions[sid], q, now));
         var back := Found(a', true, sid, SnapshotOf(b', sid));
         && k in b'.sessions[sid].outbox && b'.sessions[sid].outbox[k].payload == p
         && back == a' && k in back.sessions[sid].outbox && back.sessions[sid].outbox[k].payload == q
  {
    MigrationPreserves(a, b, sid);
  }
}
