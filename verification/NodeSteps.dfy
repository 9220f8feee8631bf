/** What one event of a node does to each of its sessions, to its connections and to its names. */
module NodeSteps {
  import opened Base
  import opened SessionStates
  import opened SessionManagers
  import opened NodeBroadcast

  // ---- Inbound frames --------------------------------------------------------------------------------

  /** After the frame was taken in, before any broadcast. */
  lemma ReceivedEffect(n: Node, sid: Sid, conn: Conn, msg: Inbound, now: real)
    requires Coherent(n.manager)
    ensures var got := Received(n, sid, conn, msg, now); var s := SessionOf(n.manager, sid, "general");
      && Coherent(got.manager) && got.connections == n.connections && got.usernames == n.usernames
      && got.relays == n.relays && got.meshed == n.meshed
      && got.manager.sessions == n.manager.sessions[sid := SessionStep(s, SessionEvent.Inbound(msg.seqNo))]
  {
  }

  lemma LoggedEffect(n: Node, sid: Sid, conn: Conn, msg: Inbound, now: real)
    requires Coherent(n.manager) && ShouldProcess(SessionOf(n.manager, sid, "general"), msg.seqNo)
    ensures var s := SessionOf(n.manager, sid, "general");
            var l := Logged(Received(n, sid, conn, msg, now), sid, s.room, msg, now);
      && Coherent(l.manager) && l.connections == n.connections && l.usernames == n.usernames
      && l.relays == n.relays && l.meshed == n.meshed
      && l.wire == n.wire + [Out(sid, conn, AckFrame(msg.seqNo))]
      && l.manager.sessions == n.manager.sessions[sid := Marked(s, msg.seqNo)]
      && Marked(s, msg.seqNo).room == s.room && Marked(s, msg.seqNo).nextSend == s.nextSend
  {
    ReceivedEffect(n, sid, conn, msg, now);
  }

  /** The node that an admitted frame is broadcast from. */
  function ReadyToBroadcast(n: Node, sid: Sid, conn: Conn, msg: Inbound, now: real): Node {
    Logged(Received(n, sid, conn, msg, now), sid, SessionOf(n.manager, sid, "general").room, msg, now)
  }

  lemma InboundIsBroadcast(n: Node, sid: Sid, conn: Conn, msg: Inbound, now: real)
    requires Coherent(n.manager) && ShouldProcess(SessionOf(n.manager, sid, "general"), msg.seqNo)
    ensures var n' := HandleInbound(n, sid, conn, msg, now); var s := SessionOf(n.manager, sid, "general");
            var ready := ReadyToBroadcast(n, sid, conn, msg, now);
            var local := BroadcastedLocally(ready, s.room, ChatPayload(n, sid, s.room, msg, now), sid, now);
      && Coherent(ready.manager) && SameFrame(ready, local)
      && n'.manager == local.manager && n'.wire == local.wire
      && n'.connections == n.connections && n'.usernames == n.usernames && n'.meshed == n.meshed
      && n'.relays == n.relays + (if n.meshed then [Relay(s.room, msg.text, NameOf(n, sid), SentAt(msg, now))] else [])
  {
    var s := SessionOf(n.manager, sid, "general");
    LoggedEffect(n, sid, conn, msg, now);
    BroadcastEffect(ReadyToBroadcast(n, sid, conn, msg, now), s.room, ChatPayload(n, sid, s.room, msg, now), sid, now);
  }

  lemma InboundEffect(n: Node, sid: Sid, conn: Conn, msg: Inbound, now: real)
    requires Coherent(n.manager) && ShouldProcess(SessionOf(n.manager, sid, "general"), msg.seqNo)
    ensures var m' := HandleInbound(n, sid, conn, msg, now).manager; var s := SessionOf(n.manager, sid, "general");
      && Coherent(m') && m'.sessions.Keys == n.manager.sessions.Keys + {sid}
      && m'.sessions[sid] == Marked(s, msg.seqNo)
      && forall other :: other in n.manager.sessions && other != sid ==>
           m'.sessions[other] == SentIf(n.manager.sessions[other].room == s.room, n.manager.sessions[other],
                                        ChatPayload(n, sid, s.room, msg, now), now)
  {
    var s := SessionOf(n.manager, sid, "general");
    LoggedEffect(n, sid, conn, msg, now);
    InboundIsBroadcast(n, sid, conn, msg, now);
    BroadcastEffect(ReadyToBroadcast(n, sid, conn, msg, now), s.room, ChatPayload(n, sid, s.room, msg, now), sid, now);
  }

  // ---- Sessions ------------------------------------------------------------------------------------------

  /** What an event makes of a session the node has not loaded: read back from disk, adopted from a
      peer, or new. */
  function FirstAs(n: Node, e: NodeEvent, sid: Sid): Option<Session> {
    match e
    case Hello(s, room, _, found) =>
      if s == sid then Some(SessionOf(Found(n.manager, n.meshed, sid, found), sid, room)) else None
    case Login(s, _, _, found) =>
      if s == sid then Some(SessionOf(Found(n.manager, n.meshed, sid, found), sid, "general")) else None
    case MessageIn(s, _, _, _) => if s == sid then Some(SessionOf(n.manager, sid, "general")) else None
    case AckIn(s, _) => if s == sid then Some(SessionOf(n.manager, sid, "general")) else None
    case Join(s, _) => if s == sid then Some(SessionOf(n.manager, sid, "general")) else None
    case _ => None
  }

  /** The session an event works on: the loaded one, or the one it loads. */
  function Worked(n: Node, e: NodeEvent, sid: Sid): Option<Session> {
    if sid in n.manager.sessions then Some(n.manager.sessions[sid]) else FirstAs(n, e, sid)
  }

  /** A broadcast: who made it, where, and what the recipients see. */
  datatype Broadcast = Broadcast(from: string, room: Room, payload: Payload, at: real)

  /** The broadcast an event causes: an admitted MESSAGE frame does, and a relayed message. */
  function BroadcastBy(n: Node, e: NodeEvent): Option<Broadcast> {
    match e
    case MessageIn(sid, _, msg, now) =>
      var s := SessionOf(n.manager, sid, "general");
      if ShouldProcess(s, msg.seqNo) then Some(Broadcast(sid, s.room, ChatPayload(n, sid, s.room, msg, now), now))
      else None
    case RelayIn(room, text, from, at, now) => Some(Broadcast(from, room, Chat(text, from, room, at), now))
    case _ => None
  }

  /** The session gets the broadcast: it is in the room, and not its maker. */
  predicate Gets(n: Node, b: Broadcast, sid: Sid) {
    sid in n.manager.sessions && n.manager.sessions[sid].room == b.room && sid != b.from
  }

  /** The event as the session sees it. */
  function Deed(n: Node, e: NodeEvent, sid: Sid): seq<SessionEvent> {
    var b := BroadcastBy(n, e);
    if b.Some? && Gets(n, b.value, sid) then [Send(b.value.payload, b.value.at)]
    else
      match e
      case Hello(s, _, _, _) => if s == sid then [NewConnection] else []
      case Login(s, _, _, _) => if s == sid then [NewConnection] else []
      case MessageIn(s, _, msg, _) => if s == sid then [SessionEvent.Inbound(msg.seqNo)] else []
      case AckIn(s, k) => if s == sid then [Ack(k)] else []
      case Resend(s, k, now) =>
        if s == sid && sid in n.connections && sid in n.manager.sessions then [Retry(k, now)] else []
      case _ => []
  }

  function Extended(s: Session, c: seq<SessionEvent>): Session {
    if c == [] then s else SessionStep(s, c[0])
  }

  /** The room the event leaves the session in. */
  function RoomAfter(s: Session, e: NodeEvent, sid: Sid): Room {
    if e.Join? && e.sid == sid then e.room else s.room
  }

  /** The whole effect of an event on a session. */
  ghost predicate Effects(n: Node, e: NodeEvent, sid: Sid) {
    EffectsOn(n, e, sid, NodeStep(n, e).manager)
  }

  ghost predicate EffectsOn(n: Node, e: NodeEvent, sid: Sid, m: Manager) {
    match Worked(n, e, sid)
    case None => sid !in m.sessions
    case Some(s) =>
      && sid in m.sessions
      && m.sessions[sid] == Extended(s, Deed(n, e, sid)).(room := RoomAfter(s, e, sid))
  }

  lemma FoundEffect(m: Manager, meshed: bool, sid: Sid, found: Option<Snapshot>)
    requires Coherent(m)
    ensures var m' := Found(m, meshed, sid, found);
      && Coherent(m')
      && (sid in m.sessions ==> m' == m)
      && (m' == m || m'.sessions == m.sessions[sid := HydrateEffect(sid, found.value).session])
  {
  }

  lemma WithEffect(m: Manager, sid: Sid, s: Session)
    requires Coherent(m)
    ensures Coherent(With(m, sid, s)) && With(m, sid, s).sessions == m.sessions[sid := s]
  {
  }

  /** The manager after a handshake. */
  function Greeted(n: Node, sid: Sid, room: Room, found: Option<Snapshot>): Manager {
    var m := Found(n.manager, n.meshed, sid, found);
    With(m, sid, Reset(SessionOf(m, sid, room)))
  }

  lemma HandshakeManager(n: Node, e: NodeEvent)
    requires e.Hello? || e.Login?
    ensures NodeStep(n, e).manager == Greeted(n, e.sid, if e.Hello? then e.room else "general", e.found)
  {
  }

  lemma GreetedSessions(n: Node, sid: Sid, room: Room, found: Option<Snapshot>)
    requires Coherent(n.manager)
    ensures var m := Found(n.manager, n.meshed, sid, found);
      && Coherent(Greeted(n, sid, room, found))
      && sid in Greeted(n, sid, room, found).sessions
      && Greeted(n, sid, room, found).sessions[sid] == Reset(SessionOf(m, sid, room))
      && forall other :: other != sid ==>
           (other in Greeted(n, sid, room, found).sessions <==> other in n.manager.sessions)
           && (other in n.manager.sessions ==>
               Greeted(n, sid, room, found).sessions[other] == n.manager.sessions[other])
  {
    var m := Found(n.manager, n.meshed, sid, found);
    FoundEffect(n.manager, n.meshed, sid, found);
    WithEffect(m, sid, Reset(SessionOf(m, sid, room)));
  }

  lemma GreetedOther(n: Node, e: NodeEvent, sid: Sid)
    requires Coherent(n.manager) && (e.Hello? || e.Login?) && sid != e.sid
    ensures EffectsOn(n, e, sid, Greeted(n, e.sid, if e.Hello? then e.room else "general", e.found))
  {
    GreetedSessions(n, e.sid, if e.Hello? then e.room else "general", e.found);
    assert Worked(n, e, sid) == if sid in n.manager.sessions then Some(n.manager.sessions[sid]) else None;
    assert Deed(n, e, sid) == [];
  }

  lemma OwnIsReset(n: Node, e: NodeEvent, s: Session, m: Manager)
    requires (e.Hello? || e.Login?) && Worked(n, e, e.sid) == Some(s)
    requires e.sid in m.sessions && m.sessions[e.sid] == Reset(s)
    ensures EffectsOn(n, e, e.sid, m)
  {
    assert Deed(n, e, e.sid) == [NewConnection] && RoomAfter(s, e, e.sid) == s.room;
  }

  lemma GreetedOwn(n: Node, e: NodeEvent)
    requires Coherent(n.manager) && (e.Hello? || e.Login?)
    ensures EffectsOn(n, e, e.sid, Greeted(n, e.sid, if e.Hello? then e.room else "general", e.found))
  {
    var room := if e.Hello? then e.room else "general";
    GreetedSessions(n, e.sid, room, e.found);
    GreetedWorks(n, e);
    var was := SessionOf(Found(n.manager, n.meshed, e.sid, e.found), e.sid, room);
    OwnIsReset(n, e, was, Greeted(n, e.sid, room, e.found));
  }

  lemma GreetedEffects(n: Node, e: NodeEvent, sid: Sid)
    requires Coherent(n.manager) && (e.Hello? || e.Login?)
    ensures EffectsOn(n, e, sid, Greeted(n, e.sid, if e.Hello? then e.room else "general", e.found))
  {
    if sid == e.sid {
      GreetedOwn(n, e);
    } else {
      GreetedOther(n, e, sid);
    }
  }

  lemma GreetedWorks(n: Node, e: NodeEvent)
    requires Coherent(n.manager) && (e.Hello? || e.Login?)
    ensures var room := if e.Hello? then e.room else "general";
      Worked(n, e, e.sid) == Some(SessionOf(Found(n.manager, n.meshed, e.sid, e.found), e.sid, room))
  {
    FoundEffect(n.manager, n.meshed, e.sid, e.found);
  }

  lemma SenderWorks(n: Node, e: NodeEvent)
    requires e.MessageIn?
    ensures Worked(n, e, e.sid) == Some(SessionOf(n.manager, e.sid, "general"))
    ensures Deed(n, e, e.sid) == [SessionEvent.Inbound(e.msg.seqNo)]
  {
  }

  lemma SenderIsMarked(n: Node, e: NodeEvent, s: Session, m: Manager)
    requires e.MessageIn? && s == SessionOf(n.manager, e.sid, "general") && ShouldProcess(s, e.msg.seqNo)
    requires e.sid in m.sessions && m.sessions[e.sid] == Marked(s, e.msg.seqNo)
    ensures EffectsOn(n, e, e.sid, m)
  {
    SenderWorks(n, e);
  }

  lemma AdmittedSenderEffects(n: Node, e: NodeEvent)
    requires Coherent(n.manager) && e.MessageIn? && ShouldProcess(SessionOf(n.manager, e.sid, "general"), e.msg.seqNo)
    ensures EffectsOn(n, e, e.sid, HandleInbound(n, e.sid, e.conn, e.msg, e.now).manager)
  {
    InboundEffect(n, e.sid, e.conn, e.msg, e.now);
    SenderIsMarked(n, e, SessionOf(n.manager, e.sid, "general"), HandleInbound(n, e.sid, e.conn, e.msg, e.now).manager);
  }

  lemma DuplicateSenderEffects(n: Node, e: NodeEvent)
    requires Coherent(n.manager) && e.MessageIn? && !ShouldProcess(SessionOf(n.manager, e.sid, "general"), e.msg.seqNo)
    ensures EffectsOn(n, e, e.sid, Received(n, e.sid, e.conn, e.msg, e.now).manager)
  {
    SenderWorks(n, e);
    ReceivedEffect(n, e.sid, e.conn, e.msg, e.now);
  }

  lemma SenderEffects(n: Node, e: NodeEvent)
    requires Coherent(n.manager) && e.MessageIn?
    ensures Effects(n, e, e.sid)
  {
    if ShouldProcess(SessionOf(n.manager, e.sid, "general"), e.msg.seqNo) {
      AdmittedSenderEffects(n, e);
    } else {
      DuplicateSenderEffects(n, e);
    }
  }

  lemma RecipientEffects(n: Node, e: NodeEvent, sid: Sid)
    requires Coherent(n.manager) && e.MessageIn? && sid != e.sid
    ensures Effects(n, e, sid)
  {
    if ShouldProcess(SessionOf(n.manager, e.sid, "general"), e.msg.seqNo) {
      InboundEffect(n, e.sid, e.conn, e.msg, e.now);
      assert Worked(n, e, sid).Some? <==> sid in n.manager.sessions;
    } else {
      ReceivedEffect(n, e.sid, e.conn, e.msg, e.now);
    }
  }

  lemma RelayEffects(n: Node, e: NodeEvent, sid: Sid)
    requires Coherent(n.manager) && e.RelayIn?
    ensures Effects(n, e, sid)
  {
    BroadcastEffect(n, e.room, Chat(e.text, e.fromName, e.room, e.sentAt), e.fromName, e.now);
  }

  /** Joining the room a session is in already changes nothing. */
  lemma JoinEffects(n: Node, e: NodeEvent, sid: Sid)
    requires Coherent(n.manager) && e.Join?
    ensures Effects(n, e, sid)
  {
    assert Deed(n, e, sid) == [];
    if !InRoomAlready(n, e.sid, e.room) {
      assert NodeStep(n, e).manager.sessions
          == n.manager.sessions[e.sid := SessionOf(n.manager, e.sid, "general").(room := e.room)];
    }
  }

  /** Every event does to every session exactly what its deed says. */
  lemma StepEffects(n: Node, e: NodeEvent, sid: Sid)
    requires Coherent(n.manager)
    ensures Effects(n, e, sid)
  {
    match e {
      case Hello(_, _, _, _) => HandshakeManager(n, e); GreetedEffects(n, e, sid);
      case Login(_, _, _, _) => HandshakeManager(n, e); GreetedEffects(n, e, sid);
      case MessageIn(_, _, _, _) => if sid == e.sid { SenderEffects(n, e); } else { RecipientEffects(n, e, sid); }
      case RelayIn(_, _, _, _, _) => RelayEffects(n, e, sid);
      case Join(_, _) => JoinEffects(n, e, sid);
      case _ =>
    }
  }

  /** A session that is in the room already joins it again without any change. */
  lemma JoinAgain(n: Node, sid: Sid, room: Room)
    requires sid in n.manager.sessions && n.manager.sessions[sid].room == room
    ensures NodeStep(n, Join(sid, room)) == n
  {
  }

  // ---- Everything else -------------------------------------------------------------------------------------

  /** Only handshakes and cleanups change connections, and only logins change names. */
  ghost predicate Links(n: Node, e: NodeEvent, n': Node) {
    && Coherent(n'.manager) && n'.meshed == n.meshed
    && n'.usernames == (if e.Login? then n.usernames[e.sid := e.username] else n.usernames)
    && n'.connections ==
         match e
         case Hello(s, _, conn, _) => n.connections[s := conn]
         case Login(s, _, conn, _) => n.connections[s := conn]
         case Drop(s, conn) =>
           if s in n.connections && n.connections[s] == conn then n.connections - {s} else n.connections
         case _ => n.connections
  }

  lemma HandshakeLinks(n: Node, e: NodeEvent)
    requires Coherent(n.manager) && (e.Hello? || e.Login?)
    ensures Links(n, e, NodeStep(n, e))
  {
    HandshakeManager(n, e);
    GreetedSessions(n, e.sid, if e.Hello? then e.room else "general", e.found);
  }

  lemma MessageLinks(n: Node, e: NodeEvent)
    requires Coherent(n.manager) && e.MessageIn?
    ensures Links(n, e, NodeStep(n, e))
  {
    ReceivedEffect(n, e.sid, e.conn, e.msg, e.now);
    if ShouldProcess(SessionOf(n.manager, e.sid, "general"), e.msg.seqNo) {
      InboundIsBroadcast(n, e.sid, e.conn, e.msg, e.now);
    }
  }

  lemma RelayLinks(n: Node, e: NodeEvent)
    requires Coherent(n.manager) && e.RelayIn?
    ensures Links(n, e, NodeStep(n, e))
  {
    BroadcastEffect(n, e.room, Chat(e.text, e.fromName, e.room, e.sentAt), e.fromName, e.now);
  }

  /** ACKs and joins keep the order of the dict. */
  lemma OwnEventLinks(n: Node, e: NodeEvent, sid: Sid, effect: Effect)
    requires Coherent(n.manager) && (e.AckIn? || e.Join?)
    ensures Links(n, e, n.(manager := Perform(n.manager, sid, effect)))
  {
    WithEffect(n.manager, sid, effect.session);
  }

  lemma QuietLinks(n: Node, e: NodeEvent)
    requires Coherent(n.manager) && (e.Resend? || e.Drop? || e.WriterTurn?)
    ensures Links(n, e, NodeStep(n, e))
  {
  }

  lemma StepLinks(n: Node, e: NodeEvent)
    requires Coherent(n.manager)
    ensures Links(n, e, NodeStep(n, e))
  {
    if e.Hello? || e.Login? {
      HandshakeLinks(n, e);
    } else if e.MessageIn? {
      MessageLinks(n, e);
    } else if e.RelayIn? {
      RelayLinks(n, e);
    } else if e.AckIn? {
      OwnEventLinks(n, e, e.sid, AckEffect(e.sid, SessionOf(n.manager, e.sid, "general"), e.seqNo));
    } else if e.Join? {
      OwnEventLinks(n, e, e.sid, RoomEffect(e.sid, SessionOf(n.manager, e.sid, "general"), e.room));
    } else {
      QuietLinks(n, e);
    }
  }

  lemma {:induction false} RunIsCoherent(l: Life, es: seq<NodeEvent>)
    ensures Coherent(NodeRun(l, es).manager) && NodeRun(l, es).meshed == l.meshed
  {
    if es != [] {
      RunIsCoherent(l, es[..|es| - 1]);
      StepLinks(NodeRun(l, es[..|es| - 1]), es[|es| - 1]);
    }
  }

  lemma FoundKeepsOrder(m: Manager, meshed: bool, sid: Sid, found: Option<Snapshot>)
    ensures m.order <= Found(m, meshed, sid, found).order
  {
  }

  /** Sessions stay in the order they were loaded in; a new one comes last. */
  lemma OrderIsByLoading(n: Node, e: NodeEvent)
    requires Coherent(n.manager)
    ensures n.manager.order <= NodeStep(n, e).manager.order
  {
    match e {
      case Hello(sid, _, _, found) => HandshakeManager(n, e); FoundKeepsOrder(n.manager, n.meshed, sid, found);
      case Login(sid, _, _, found) => HandshakeManager(n, e); FoundKeepsOrder(n.manager, n.meshed, sid, found);
      case MessageIn(sid, conn, msg, now) =>
        if ShouldProcess(SessionOf(n.manager, sid, "general"), msg.seqNo) {
          InboundIsBroadcast(n, sid, conn, msg, now);
        }
      case RelayIn(room, text, from, at, now) => BroadcastEffect(n, room, Chat(text, from, room, at), from, now);
      case _ =>
    }
  }
}
