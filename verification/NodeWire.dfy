/** The frames a chat node writes, in every life of the node: one ACK per MESSAGE frame, and no
    MESSAGE frame but the entries of the recipients' logs. */
module NodeWire {
  import opened Base
  import opened SessionStates
  import opened SessionManagers
  import opened NodeBroadcast
  import opened NodeSteps
  import opened NodeRuns
  import opened NodeGuarantees

  /** The ACKs written to a session's connections, in order. */
  function Acks(wire: seq<Out>, sid: Sid): seq<(Conn, int)> {
    if wire == [] then []
    else
      var o := wire[|wire| - 1];
      Acks(wire[..|wire| - 1], sid) + (if o.sid == sid && o.frame.AckFrame? then [(o.conn, o.frame.seqNo)] else [])
  }

  /** The MESSAGE frames that came in from a session, in order. */
  function Frames(es: seq<NodeEvent>, sid: Sid): seq<(Conn, int)> {
    if es == [] then []
    else
      var e := es[|es| - 1];
      Frames(es[..|es| - 1], sid) + (if e.MessageIn? && e.sid == sid then [(e.conn, e.msg.seqNo)] else [])
  }

  ghost predicate NoAcks(wire: seq<Out>) {
    forall i :: 0 <= i < |wire| ==> !wire[i].frame.AckFrame?
  }

  lemma {:induction false} AcksConcat(a: seq<Out>, b: seq<Out>, sid: Sid)
    ensures Acks(a + b, sid) == Acks(a, sid) + Acks(b, sid)
    ensures NoAcks(b) ==> Acks(b, sid) == []
  {
    if b == [] {
      assert a + b == a;
    } else {
      var k := |b| - 1;
      assert (a + b)[..|a| + k] == a + b[..k];
      AcksConcat(a, b[..k], sid);
    }
  }

  // ---- One broadcast ---------------------------------------------------------------------------------

  /** The frame a session gets in a broadcast, if it is connected: under the number it has next. */
  function FrameFor(n: Node, sid: Sid, from: string, payload: Payload): seq<Out>
    requires sid in n.manager.sessions
  {
    if sid != from && sid in n.connections
    then [Out(sid, n.connections[sid], MessageFrame(n.manager.sessions[sid].nextSend, payload))] else []
  }

  /** What a broadcast writes: its frame to each of these sessions, and nothing else. */
  ghost predicate Writes(n: Node, extra: seq<Out>, sids: seq<Sid>, from: string, payload: Payload) {
    && (forall o :: o in extra ==>
        o.sid in n.manager.sessions && o.sid in sids && o in FrameFor(n, o.sid, from, payload))
    && (forall sid :: sid in sids && sid in n.manager.sessions ==>
          forall o :: o in FrameFor(n, sid, from, payload) ==> o in extra)
  }

  lemma WritesAppend(n: Node, extra: seq<Out>, sids: seq<Sid>, from: string, payload: Payload, sid: Sid)
    requires Writes(n, extra, sids, from, payload) && sid in n.manager.sessions
    ensures Writes(n, extra + FrameFor(n, sid, from, payload), sids + [sid], from, payload)
  {
  }

  lemma DeliverOneWrites(n: Node, mid: Node, sid: Sid, from: string, payload: Payload, now: real)
    requires sid in n.manager.sessions && SameFrame(n, mid) && mid.manager.sessions[sid] == n.manager.sessions[sid]
    ensures DeliverOne(mid, sid, from, payload, now).wire == mid.wire + FrameFor(n, sid, from, payload)
  {
  }

  lemma {:induction false} DeliverAllWrites(n: Node, sids: seq<Sid>, from: string, payload: Payload, now: real)
    returns (extra: seq<Out>)
    requires Distinct(sids) && forall sid :: sid in sids ==> sid in n.manager.sessions
    ensures DeliverAll(n, sids, from, payload, now).wire == n.wire + extra
    ensures Writes(n, extra, sids, from, payload)
  {
    if sids == [] {
      extra := [];
    } else {
      SplitLast(sids);
      var init, last := sids[..|sids| - 1], sids[|sids| - 1];
      assert last in sids && last !in init && forall sid :: sid in init ==> sid in sids;
      var mid := DeliverAll(n, init, from, payload, now);
      var before := DeliverAllWrites(n, init, from, payload, now);
      DeliverAllFrame(n, init, from, payload, now);
      DeliverAllEffect(n, init, from, payload, now, last);
      DeliverOneWrites(n, mid, last, from, payload, now);
      WritesAppend(n, before, init, from, payload, last);
      ConcatAssociates(n.wire, before, FrameFor(n, last, from, payload));
      extra := before + FrameFor(n, last, from, payload);
    }
  }

  // ---- The wire over whole runs ---------------------------------------------------------------------

  /** The MESSAGE frame is the entry of its number, of the session's base or its log. */
  ghost predicate Carried(l: Life, es: seq<NodeEvent>, o: Out)
    requires o.frame.MessageFrame?
  {
    var base := BaseOf(l, es, o.sid);
    base.Some? && Entry(base.value, MeantLog(l, es, o.sid), o.frame.seqNo) == Some(o.frame.payload)
  }

  /** Every MESSAGE frame ever written to a session carries the entry of its number. */
  ghost predicate Faithful(wire: seq<Out>, l: Life, es: seq<NodeEvent>) {
    forall o :: o in wire && o.frame.MessageFrame? ==> Carried(l, es, o)
  }

  lemma LogGrows(l: Life, es: seq<NodeEvent>, e: NodeEvent, sid: Sid)
    ensures MeantLog(l, es, sid) <= MeantLog(l, es + [e], sid)
    ensures BaseOf(l, es, sid).Some? ==> BaseOf(l, es + [e], sid) == BaseOf(l, es, sid)
  {
    assert (es + [e])[..|es|] == es;
  }

  lemma EntryGrows(base: Session, log: seq<Payload>, log': seq<Payload>, k: int)
    requires log <= log' && Entry(base, log, k).Some?
    ensures Entry(base, log', k) == Entry(base, log, k)
  {
  }

  lemma CarriedGrows(l: Life, es: seq<NodeEvent>, e: NodeEvent, o: Out)
    requires o.frame.MessageFrame? && Carried(l, es, o)
    ensures Carried(l, es + [e], o)
  {
    LogGrows(l, es, e, o.sid);
    EntryGrows(BaseOf(l, es, o.sid).value, MeantLog(l, es, o.sid), MeantLog(l, es + [e], o.sid), o.frame.seqNo);
  }

  lemma FaithfulGrows(wire: seq<Out>, l: Life, es: seq<NodeEvent>, e: NodeEvent)
    requires Faithful(wire, l, es)
    ensures Faithful(wire, l, es + [e])
  {
    forall o | o in wire && o.frame.MessageFrame? ensures Carried(l, es + [e], o) {
      CarriedGrows(l, es, e, o);
    }
  }

  /** Every session was sound when the node first had it. */
  ghost predicate SoundBases(l: Life, es: seq<NodeEvent>) {
    forall sid :: BaseOf(l, es, sid).Some? ==> Sound(BaseOf(l, es, sid).value)
  }

  lemma SoundBefore(l: Life, es: seq<NodeEvent>, e: NodeEvent)
    requires SoundBases(l, es + [e])
    ensures SoundBases(l, es)
  {
    assert (es + [e])[..|es|] == es;
    forall sid | BaseOf(l, es, sid).Some? ensures Sound(BaseOf(l, es, sid).value) {
      assert BaseOf(l, es + [e], sid) == BaseOf(l, es, sid);
    }
  }

  /** Every connected session the event's broadcast is meant for is written its frame at once, under
      the number the message has in its log. */
  ghost predicate ReachesConnected(l: Life, es: seq<NodeEvent>, e: NodeEvent, extra: seq<Out>) {
    var n, b := NodeRun(l, es), BroadcastOf(l, es, e);
    b.Some? ==> forall sid :: MeantFor(l, es, b.value, sid) && sid in n.connections ==>
      sid in n.manager.sessions
      && Out(sid, n.connections[sid], MessageFrame(n.manager.sessions[sid].nextSend, b.value.payload)) in extra
  }

  /** A node that a broadcast is made from: the run's, but perhaps for the maker's own session. */
  ghost predicate SameForOthers(n: Node, m: Node, from: string) {
    && Coherent(m.manager) && m.connections == n.connections
    && (forall sid :: sid != from ==> (sid in m.manager.sessions <==> sid in n.manager.sessions))
    && (forall sid :: sid != from && sid in n.manager.sessions ==> m.manager.sessions[sid] == n.manager.sessions[sid])
  }

  lemma LogAfter(l: Life, es: seq<NodeEvent>, e: NodeEvent, b: Broadcast, sid: Sid)
    requires BroadcastOf(l, es, e) == Some(b) && MeantFor(l, es, b, sid) && BaseOf(l, es, sid).Some?
    ensures MeantLog(l, es + [e], sid) == MeantLog(l, es, sid) + [b.payload]
    ensures BaseOf(l, es + [e], sid) == BaseOf(l, es, sid)
  {
    assert (es + [e])[..|es|] == es;
  }

  lemma NextEntry(base: Session, log: seq<Payload>, payload: Payload)
    ensures Entry(base, log + [payload], base.nextSend + |log|) == Some(payload)
  {
  }

  lemma NextNumber(l: Life, es: seq<NodeEvent>, sid: Sid)
    requires sid in NodeRun(l, es).manager.sessions
    ensures BaseOf(l, es, sid).Some?
    ensures NodeRun(l, es).manager.sessions[sid].nextSend == BaseOf(l, es, sid).value.nextSend + |MeantLog(l, es, sid)|
  {
    PerRecipientLog(l, es, sid);
  }

  lemma NextIsCarried(l: Life, es: seq<NodeEvent>, e: NodeEvent, b: Broadcast, sid: Sid, o: Out)
    requires BroadcastOf(l, es, e) == Some(b) && sid in NodeRun(l, es).manager.sessions && Gets(NodeRun(l, es), b, sid)
    requires o.sid == sid && o.frame == MessageFrame(NodeRun(l, es).manager.sessions[sid].nextSend, b.payload)
    ensures Carried(l, es + [e], o)
  {
    SessionsFollowTheirHistory(l, es, sid);
    MeantIsGiven(l, es, b, sid);
    NextNumber(l, es, sid);
    LogAfter(l, es, e, b, sid);
    NextEntry(BaseOf(l, es, sid).value, MeantLog(l, es, sid), b.payload);
  }

  /** A broadcast reaches every connected recipient at once, under the number it has in its log. */
  lemma BroadcastWrites(l: Life, es: seq<NodeEvent>, e: NodeEvent, b: Broadcast, m: Node) returns (extra: seq<Out>)
    requires BroadcastOf(l, es, e) == Some(b) && SameForOthers(NodeRun(l, es), m, b.from)
    ensures BroadcastedLocally(m, b.room, b.payload, b.from, b.at).wire == m.wire + extra
    ensures NoAcks(extra) && Faithful(extra, l, es + [e]) && ReachesConnected(l, es, e, extra)
  {
    var n := NodeRun(l, es);
    var sids := InRoom(m.manager, b.room);
    extra := DeliverAllWrites(m, sids, b.from, b.payload, b.at);
    forall o | o in extra ensures !o.frame.AckFrame? && (o.frame.MessageFrame? ==> Carried(l, es + [e], o)) {
      NextIsCarried(l, es, e, b, o.sid, o);
    }
    forall sid | MeantFor(l, es, b, sid) && sid in n.connections
      ensures sid in n.manager.sessions
      ensures Out(sid, n.connections[sid], MessageFrame(n.manager.sessions[sid].nextSend, b.payload)) in extra
    {
      SessionsFollowTheirHistory(l, es, sid);
      MeantIsGiven(l, es, b, sid);
      assert Out(sid, n.connections[sid], MessageFrame(n.manager.sessions[sid].nextSend, b.payload))
          in FrameFor(m, sid, b.from, b.payload);
    }
  }

  // ---- Each kind of event ---------------------------------------------------------------------------------

  lemma {:induction false} ReplayFramesAre(sid: Sid, conn: Conn, msgs: seq<OutboundMessage>, o: Out)
    requires o in ReplayFrames(sid, conn, msgs)
    ensures o.sid == sid && o.frame.MessageFrame?
    ensures exists m :: m in msgs && o.frame == MessageFrame(m.seqNo, m.payload)
  {
    var k := |msgs| - 1;
    SplitLast(msgs);
    if o in ReplayFrames(sid, conn, msgs[..k]) {
      ReplayFramesAre(sid, conn, msgs[..k], o);
    } else {
      assert msgs[k] in msgs;
    }
  }

  lemma ReplayHasNoAcks(sid: Sid, conn: Conn, msgs: seq<OutboundMessage>)
    ensures NoAcks(ReplayFrames(sid, conn, msgs))
  {
    var frames := ReplayFrames(sid, conn, msgs);
    forall i | 0 <= i < |frames| ensures !frames[i].frame.AckFrame? {
      ReplayFramesAre(sid, conn, msgs, frames[i]);
    }
  }

  lemma ConnectWrites(n: Node, sid: Sid, room: Room, conn: Conn, login: bool) returns (greeting: Out)
    ensures var s := Reset(SessionOf(n.manager, sid, room));
      Connect(n, sid, room, conn, login).wire == n.wire + ([greeting] + ReplayFrames(sid, conn, Replay(s, 0)))
    ensures !greeting.frame.AckFrame? && !greeting.frame.MessageFrame?
  {
    var was := SessionOf(n.manager, sid, room);
    var s := Reset(was);
    greeting := Out(sid, conn, if login then LoginAck(sid, was.room, was.last) else HelloAck(sid, s.room, s.last));
    ConcatAssociates(n.wire, [greeting], ReplayFrames(sid, conn, Replay(s, 0)));
  }

  /** The session as a handshake leaves it. */
  function AtHandshake(n: Node, e: NodeEvent): Session
    requires e.Hello? || e.Login?
  {
    Reset(SessionOf(Found(n.manager, n.meshed, e.sid, e.found), e.sid, if e.Hello? then e.room else "general"))
  }

  lemma HandshakeWire(n: Node, e: NodeEvent) returns (greeting: Out)
    requires e.Hello? || e.Login?
    ensures NodeStep(n, e).wire == n.wire + ([greeting] + ReplayFrames(e.sid, e.conn, Replay(AtHandshake(n, e), 0)))
    ensures !greeting.frame.AckFrame? && !greeting.frame.MessageFrame?
  {
    var n0 := if e.Login? then n.(usernames := n.usernames[e.sid := e.username]) else n;
    var room := if e.Hello? then e.room else "general";
    greeting := ConnectWrites(Asked(n0, e.sid, e.found), e.sid, room, e.conn, e.Login?);
  }

  lemma HandshakeWrites(l: Life, es: seq<NodeEvent>, e: NodeEvent) returns (extra: seq<Out>)
    requires e.Hello? || e.Login?
    ensures NodeStep(NodeRun(l, es), e).wire == NodeRun(l, es).wire + extra
    ensures NoAcks(extra) && (SoundBases(l, es + [e]) ==> Faithful(extra, l, es + [e]))
  {
    var greeting := HandshakeWire(NodeRun(l, es), e);
    var s := AtHandshake(NodeRun(l, es), e);
    var frames := ReplayFrames(e.sid, e.conn, Replay(s, 0));
    ReplayHasNoAcks(e.sid, e.conn, Replay(s, 0));
    extra := [greeting] + frames;
    if SoundBases(l, es + [e]) {
      ReplayIsCarried(l, es, e, s);
    }
    GreetingFirst(greeting, frames, l, es + [e]);
  }

  /** A greeting is neither an ACK nor a MESSAGE. */
  lemma GreetingFirst(greeting: Out, frames: seq<Out>, l: Life, es: seq<NodeEvent>)
    requires !greeting.frame.AckFrame? && !greeting.frame.MessageFrame?
    ensures NoAcks(frames) ==> NoAcks([greeting] + frames)
    ensures Faithful(frames, l, es) ==> Faithful([greeting] + frames, l, es)
  {
  }

  lemma ReplayIsCarried(l: Life, es: seq<NodeEvent>, e: NodeEvent, s: Session)
    requires (e.Hello? || e.Login?) && SoundBases(l, es + [e])
    requires s == AtHandshake(NodeRun(l, es), e)
    ensures Faithful(ReplayFrames(e.sid, e.conn, Replay(s, 0)), l, es + [e])
  {
    assert (es + [e])[..|es|] == es;
    RunIsCoherent(l, es);
    HandshakeManager(NodeRun(l, es), e);
    GreetedSessions(NodeRun(l, es), e.sid, if e.Hello? then e.room else "general", e.found);
    ReconnectReplaysUnacked(l, es + [e], e.sid);
    SessionsFollowTheirHistory(l, es + [e], e.sid);
    forall o | o in ReplayFrames(e.sid, e.conn, Replay(s, 0)) && o.frame.MessageFrame? ensures Carried(l, es + [e], o) {
      ReplayFramesAre(e.sid, e.conn, Replay(s, 0), o);
    }
  }

  lemma MessageWrites(l: Life, es: seq<NodeEvent>, e: NodeEvent) returns (extra: seq<Out>)
    requires e.MessageIn?
    ensures NodeStep(NodeRun(l, es), e).wire
        == NodeRun(l, es).wire + [Out(e.sid, e.conn, AckFrame(e.msg.seqNo))] + extra
    ensures NoAcks(extra) && Faithful(extra, l, es + [e]) && ReachesConnected(l, es, e, extra)
  {
    var n := NodeRun(l, es);
    RunIsCoherent(l, es);
    SessionsFollowTheirHistory(l, es, e.sid);
    BroadcastIsMade(l, es, e);
    extra := [];
    var b := BroadcastOf(l, es, e);
    if b.Some? {
      LoggedEffect(n, e.sid, e.conn, e.msg, e.now);
      InboundIsBroadcast(n, e.sid, e.conn, e.msg, e.now);
      extra := BroadcastWrites(l, es, e, b.value, ReadyToBroadcast(n, e.sid, e.conn, e.msg, e.now));
    }
  }

  lemma RelayWrites(l: Life, es: seq<NodeEvent>, e: NodeEvent) returns (extra: seq<Out>)
    requires e.RelayIn?
    ensures NodeStep(NodeRun(l, es), e).wire == NodeRun(l, es).wire + extra
    ensures NoAcks(extra) && Faithful(extra, l, es + [e]) && ReachesConnected(l, es, e, extra)
  {
    RunIsCoherent(l, es);
    extra := BroadcastWrites(l, es, e, BroadcastOf(l, es, e).value, NodeRun(l, es));
  }

  /** What a resend writes: the buffered message, under its number, on the session's connection; nothing
      if it is not buffered or nobody is connected. */
  ghost predicate Resends(l: Life, es: seq<NodeEvent>, e: NodeEvent, extra: seq<Out>)
    requires e.Resend?
  {
    var sessions, conn := NodeRun(l, es).manager.sessions, ConnOf(es, e.sid);
    extra == if conn.Some? && e.sid in sessions && e.seqNo in sessions[e.sid].outbox
             then [Out(e.sid, conn.value, MessageFrame(e.seqNo, sessions[e.sid].outbox[e.seqNo].payload))] else []
  }

  lemma ResentIsCarried(l: Life, es: seq<NodeEvent>, sid: Sid, k: int, conn: Conn)
    requires sid in NodeRun(l, es).manager.sessions && k in NodeRun(l, es).manager.sessions[sid].outbox
    requires SoundBases(l, es)
    ensures Carried(l, es, Out(sid, conn, MessageFrame(k, NodeRun(l, es).manager.sessions[sid].outbox[k].payload)))
  {
    PerRecipientLog(l, es, sid);
  }

  lemma ResendFrames(l: Life, es: seq<NodeEvent>, e: NodeEvent) returns (extra: seq<Out>)
    requires e.Resend?
    ensures NodeStep(NodeRun(l, es), e).wire == NodeRun(l, es).wire + extra
    ensures Resends(l, es, e, extra)
  {
    var n := NodeRun(l, es);
    extra := [];
    SessionsFollowTheirHistory(l, es, e.sid);
    if e.sid in n.connections && e.sid in n.manager.sessions && e.seqNo in n.manager.sessions[e.sid].outbox {
      var m := n.manager.sessions[e.sid].outbox[e.seqNo];
      extra := [Out(e.sid, n.connections[e.sid], MessageFrame(e.seqNo, m.payload))];
    }
  }

  lemma ResendWrites(l: Life, es: seq<NodeEvent>, e: NodeEvent) returns (extra: seq<Out>)
    requires e.Resend?
    ensures NodeStep(NodeRun(l, es), e).wire == NodeRun(l, es).wire + extra
    ensures NoAcks(extra) && Resends(l, es, e, extra) && (SoundBases(l, es) ==> Faithful(extra, l, es))
  {
    extra := ResendFrames(l, es, e);
    if extra != [] && SoundBases(l, es) {
      ResentIsCarried(l, es, e.sid, e.seqNo, extra[0].conn);
    }
  }

  /** In terms of the session's log: a resend writes the entry of its number if and only if the session is
      connected and the entry was not acknowledged. */
  lemma ResendIsOfUnacked(l: Life, es: seq<NodeEvent>, e: NodeEvent, base: Session) returns (extra: seq<Out>)
    requires e.Resend? && BaseOf(l, es, e.sid) == Some(base) && Sound(base)
    ensures NodeStep(NodeRun(l, es), e).wire == NodeRun(l, es).wire + extra
    ensures var entry, conn := Entry(base, MeantLog(l, es, e.sid), e.seqNo), ConnOf(es, e.sid);
      extra == if conn.Some? && entry.Some? && !Acknowledged(l, es, e.sid, base.nextSend, e.seqNo)
               then [Out(e.sid, conn.value, MessageFrame(e.seqNo, entry.value))] else []
  {
    extra := ResendWrites(l, es, e);
    PerRecipientLog(l, es, e.sid);
  }

  /** What one event writes: an ACK for a MESSAGE frame, and otherwise only entries of the
      recipients' logs; a broadcast is written to all its connected recipients. */
  lemma StepWrites(l: Life, es: seq<NodeEvent>, e: NodeEvent) returns (ack: seq<Out>, extra: seq<Out>)
    ensures NodeStep(NodeRun(l, es), e).wire == NodeRun(l, es).wire + ack + extra
    ensures ack == if e.MessageIn? then [Out(e.sid, e.conn, AckFrame(e.msg.seqNo))] else []
    ensures NoAcks(extra) && ReachesConnected(l, es, e, extra) && (e.Resend? ==> Resends(l, es, e, extra))
    ensures SoundBases(l, es + [e]) ==> Faithful(extra, l, es + [e])
  {
    var n := NodeRun(l, es);
    ack, extra := [], [];
    match e {
      case Hello(_, _, _, _) => extra := HandshakeWrites(l, es, e);
      case Login(_, _, _, _) => extra := HandshakeWrites(l, es, e);
      case MessageIn(sid, conn, msg, now) =>
        ack := [Out(sid, conn, AckFrame(msg.seqNo))];
        extra := MessageWrites(l, es, e);
      case RelayIn(_, _, _, _, _) => extra := RelayWrites(l, es, e);
      case Resend(_, _, _) =>
        extra := ResendWrites(l, es, e);
        if SoundBases(l, es + [e]) {
          SoundBefore(l, es, e);
          FaithfulGrows(extra, l, es, e);
        }
      case _ =>
    }
    assert ack == [] ==> n.wire + ack == n.wire;
    assert extra == [] ==> n.wire + ack + extra == n.wire + ack;
  }

  /** The wire, in every life: every MESSAGE frame of a session is ACKed exactly once, in order, on
      the connection it came in on; and, if the sessions were sound when the node first had them,
      every MESSAGE frame written to a session, first time, replayed or resent, carries the entry of
      its number. */
  lemma {:induction false} WireGuarantee(l: Life, es: seq<NodeEvent>)
    ensures SoundBases(l, es) ==> Faithful(NodeRun(l, es).wire, l, es)
    ensures forall sid :: Acks(NodeRun(l, es).wire, sid) == Frames(es, sid)
  {
    if es != [] {
      var init, e := es[..|es| - 1], es[|es| - 1];
      var wire := NodeRun(l, init).wire;
      WireGuarantee(l, init);
      var ack, extra := StepWrites(l, init, e);
      SplitLast(es);
      if SoundBases(l, es) {
        SoundBefore(l, init, e);
        FaithfulGrows(wire, l, init, e);
      }
      forall sid ensures Acks(NodeRun(l, es).wire, sid) == Frames(es, sid) {
        AcksConcat(wire + ack, extra, sid);
        AcksConcat(wire, ack, sid);
      }
    }
  }

  // ---- Relays --------------------------------------------------------------------------------------------

  /** The relays owed to the mesh: one per broadcast made here. */
  function RelaysOwed(l: Life, es: seq<NodeEvent>): seq<Relay> {
    if es == [] then []
    else
      var init, e := es[..|es| - 1], es[|es| - 1];
      RelaysOwed(l, init) +
        if e.MessageIn? && BroadcastOf(l, init, e).Some?
        then [Relay(RoomOrFirst(l, init, e.sid), e.msg.text, Name(init, e.sid), SentAt(e.msg, e.now))] else []
  }

  lemma StepRelays(n: Node, e: NodeEvent)
    requires Coherent(n.manager)
    ensures NodeStep(n, e).relays == n.relays +
      (if e.MessageIn? && n.meshed && ShouldProcess(SessionOf(n.manager, e.sid, "general"), e.msg.seqNo)
       then [Relay(SessionOf(n.manager, e.sid, "general").room, e.msg.text, NameOf(n, e.sid), SentAt(e.msg, e.now))]
       else [])
  {
    match e
    case MessageIn(sid, conn, msg, now) =>
      ReceivedEffect(n, sid, conn, msg, now);
      if ShouldProcess(SessionOf(n.manager, sid, "general"), msg.seqNo) {
        InboundIsBroadcast(n, sid, conn, msg, now);
      }
    case RelayIn(room, text, from, at, now) => BroadcastEffect(n, room, Chat(text, from, room, at), from, now);
    case _ =>
  }

  /** A meshed node relays each admitted message exactly once, in order; relayed deliveries and
      duplicates are never relayed again by this layer. */
  lemma {:induction false} RelaysExactlyOnce(l: Life, es: seq<NodeEvent>)
    requires l.meshed
    ensures NodeRun(l, es).relays == RelaysOwed(l, es)
  {
    if es != [] {
      var init, e := es[..|es| - 1], es[|es| - 1];
      RelaysExactlyOnce(l, init);
      RunIsCoherent(l, init);
      StepRelays(NodeRun(l, init), e);
      if e.MessageIn? {
        SessionsFollowTheirHistory(l, init, e.sid);
        AdmissionFollows(l, init, e.sid, e.msg.seqNo);
      }
    }
  }

  /** A node without a mesh relays nothing. */
  lemma {:induction false} UnmeshedRelaysNothing(l: Life, es: seq<NodeEvent>)
    requires !l.meshed
    ensures NodeRun(l, es).relays == []
  {
    if es != [] {
      var init := es[..|es| - 1];
      UnmeshedRelaysNothing(l, init);
      RunIsCoherent(l, init);
      StepRelays(NodeRun(l, init), es[|es| - 1]);
    }
  }
}
