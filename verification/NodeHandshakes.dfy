/** What a handshake does, in every life of a node: which session the client gets, how it is greeted and
    what it is replayed. */
module NodeHandshakes {
  import opened Base
  import opened SessionStates
  import opened SessionManagers
  import opened NodeBroadcast
  import opened NodeSteps
  import opened NodeRuns
  import opened NodeGuarantees
  import opened NodeWire

  /** The room a handshake asks for. */
  function RoomAsked(e: NodeEvent): Room
    requires e.Hello? || e.Login?
  {
    if e.Hello? then e.room else "general"
  }

  // ---- Which session ---------------------------------------------------------------------------------------

  /** After a handshake the session is the loaded one; else what the node's disk recovers; else, if the
      node has a mesh and a peer knows it, the peer's; else a new one in the room asked for.  Its inbound
      side is clear in any case. */
  lemma HandshakeGives(n: Node, e: NodeEvent)
    requires e.Hello? || e.Login?
    ensures var sid, m, m' := e.sid, n.manager, NodeStep(n, e).manager;
      && sid in m'.sessions
      && (sid in m.sessions ==> m'.sessions[sid] == m.sessions[sid].(last := 0, seen := {}))
      && (sid !in m.sessions && sid in m.store.db.sessions ==>
            m'.sessions[sid] == Recover(m.store.db, sid, RoomAsked(e)).(last := 0, seen := {}))
      && (sid !in m.sessions && sid !in m.store.db.sessions && n.meshed && e.found.Some? ==>
            && m'.sessions[sid].nextSend == e.found.value.nextSend && m'.sessions[sid].room == e.found.value.room
            && m'.sessions[sid].outbox == Loaded(map[], e.found.value.outbox)
            && m'.sessions[sid].last == 0 && m'.sessions[sid].seen == {})
      && (sid !in m.sessions && sid !in m.store.db.sessions && (!n.meshed || e.found.None?) ==>
            m'.sessions[sid] == FreshSession(RoomAsked(e)))
  {
    HandshakeManager(n, e);
  }

  /** So a session that neither the memory nor the disk of a meshed node knows, and that a peer has, goes on
      with the peer's counter, room and unacked messages. */
  lemma HandshakeAdopts(n: Node, e: NodeEvent, peer: Manager)
    requires (e.Hello? || e.Login?) && n.meshed
    requires e.sid !in n.manager.sessions && e.sid !in n.manager.store.db.sessions
    requires e.sid in peer.sessions && Sound(peer.sessions[e.sid]) && e.found == SnapshotOf(peer, e.sid)
    ensures var m' := NodeStep(n, e).manager;
      && e.sid in m'.sessions
      && m'.sessions[e.sid].nextSend == peer.sessions[e.sid].nextSend
      && m'.sessions[e.sid].room == peer.sessions[e.sid].room
      && m'.sessions[e.sid].outbox == peer.sessions[e.sid].outbox
      && NumbersOn(m'.sessions[e.sid])
  {
    HandshakeGives(n, e);
    LoadedListed(peer.sessions[e.sid].outbox);
    SoundNumbersOn(NodeStep(n, e).manager.sessions[e.sid]);
  }

  // ---- How it is greeted and replayed to -----------------------------------------------------------------------

  /** The frames are those of the messages, one by one, on the connection. */
  ghost predicate Shows(frames: seq<Out>, sid: Sid, conn: Conn, msgs: seq<OutboundMessage>) {
    && |frames| == |msgs|
    && forall i :: 0 <= i < |msgs| ==> frames[i] == Out(sid, conn, MessageFrame(msgs[i].seqNo, msgs[i].payload))
  }

  lemma {:induction false} ReplayShows(sid: Sid, conn: Conn, msgs: seq<OutboundMessage>)
    ensures Shows(ReplayFrames(sid, conn, msgs), sid, conn, msgs)
  {
    if msgs != [] {
      ReplayShows(sid, conn, msgs[..|msgs| - 1]);
    }
  }

  lemma GreetingIs(n: Node, e: NodeEvent)
    requires e.Hello? || e.Login?
    ensures var m := Found(n.manager, n.meshed, e.sid, e.found); var was := SessionOf(m, e.sid, RoomAsked(e));
      NodeStep(n, e).wire == n.wire
        + ([Out(e.sid, e.conn, if e.Hello? then HelloAck(e.sid, was.room, 0) else LoginAck(e.sid, was.room, was.last))]
           + ReplayFrames(e.sid, e.conn, Replay(was.(last := 0, seen := {}), 0)))
  {
    var m := Found(n.manager, n.meshed, e.sid, e.found);
    var was := SessionOf(m, e.sid, RoomAsked(e));
    var ack := if e.Hello? then HelloAck(e.sid, was.room, 0) else LoginAck(e.sid, was.room, was.last);
    ConcatAssociates(n.wire, [Out(e.sid, e.conn, ack)], ReplayFrames(e.sid, e.conn, Replay(Reset(was), 0)));
  }

  /** The session just before its handshake: the run of its history, from what the node first has of it. */
  lemma BeforeHandshake(l: Life, es: seq<NodeEvent>, e: NodeEvent)
    requires e.Hello? || e.Login?
    ensures var n := NodeRun(l, es); var base := BaseOf(l, es + [e], e.sid);
      && base.Some? && RoomOf(l, es + [e], e.sid).Some?
      && var was := SessionOf(Found(n.manager, n.meshed, e.sid, e.found), e.sid, RoomAsked(e));
         was == SessionRun(base.value, HistoryOf(l, es, e.sid)).(room := RoomOf(l, es + [e], e.sid).value)
  {
    assert (es + [e])[..|es|] == es;
    SessionsFollowTheirHistory(l, es, e.sid);
    RunIsCoherent(l, es);
    FoundEffect(NodeRun(l, es).manager, l.meshed, e.sid, e.found);
  }

  /** The watermark of a LOGIN_ACK counts the frames since the session's handshake before, if there was one. */
  ghost predicate CountsFrames(frames: seq<(Conn, int)>, watermark: int) {
    && watermark >= 0 && watermark + 1 !in Seqs(frames)
    && forall k :: 1 <= k <= watermark ==> k in Seqs(frames)
  }

  lemma WatermarkIsCount(frames: seq<(Conn, int)>, last: int, seen: set<int>)
    requires Watermark(Positive(Seqs(frames)), last, seen)
    ensures CountsFrames(frames, last)
  {
    assert last + 1 in Seqs(frames) ==> last + 1 in Positive(Seqs(frames));
    forall k | 1 <= k <= last ensures k in Seqs(frames) {
      assert k in Positive(Seqs(frames));
    }
  }

  lemma WatermarkCounts(l: Life, es: seq<NodeEvent>, sid: Sid, base: Session)
    requires BaseOf(l, es, sid) == Some(base) && Shaken(es, sid)
    ensures CountsFrames(FramesSince(es, sid), SessionRun(base, HistoryOf(l, es, sid)).last)
  {
    HistoryFrames(l, es, sid);
    InboundIsExact(base, HistoryOf(l, es, sid), 1);
    var s := SessionRun(base, HistoryOf(l, es, sid));
    WatermarkIsCount(FramesSince(es, sid), s.last, s.seen);
  }

  /** The acknowledgement of a handshake. */
  ghost predicate Greets(l: Life, es: seq<NodeEvent>, e: NodeEvent, base: Session, ack: Frame)
    requires (e.Hello? || e.Login?) && RoomOf(l, es + [e], e.sid).Some?
  {
    var room := RoomOf(l, es + [e], e.sid).value;
    if e.Hello? then ack == HelloAck(e.sid, room, 0)
    else
      && ack.LoginAck? && ack.sid == e.sid && ack.room == room
      && ack.lastProcessed == SessionRun(base, HistoryOf(l, es, e.sid)).last
      && (Shaken(es, e.sid) ==> CountsFrames(FramesSince(es, e.sid), ack.lastProcessed))
  }

  lemma ShakenIsKnown(l: Life, es: seq<NodeEvent>, e: NodeEvent)
    requires (e.Hello? || e.Login?) && Shaken(es, e.sid)
    ensures BaseOf(l, es, e.sid).Some? && BaseOf(l, es + [e], e.sid) == BaseOf(l, es, e.sid)
  {
    assert (es + [e])[..|es|] == es;
    WatermarkIsExact(l, es, e.sid);
    SessionsFollowTheirHistory(l, es, e.sid);
  }

  lemma HandshakeGreets(l: Life, es: seq<NodeEvent>, e: NodeEvent) returns (ack: Frame, was: Session)
    requires e.Hello? || e.Login?
    ensures var base := BaseOf(l, es + [e], e.sid);
      base.Some? && RoomOf(l, es + [e], e.sid).Some? && Greets(l, es, e, base.value, ack)
    ensures NodeStep(NodeRun(l, es), e).wire == NodeRun(l, es).wire
        + ([Out(e.sid, e.conn, ack)] + ReplayFrames(e.sid, e.conn, Replay(was.(last := 0, seen := {}), 0)))
    ensures e.sid in NodeRun(l, es + [e]).manager.sessions
    ensures NodeRun(l, es + [e]).manager.sessions[e.sid] == was.(last := 0, seen := {})
  {
    var n := NodeRun(l, es);
    was := SessionOf(Found(n.manager, n.meshed, e.sid, e.found), e.sid, RoomAsked(e));
    ack := if e.Hello? then HelloAck(e.sid, was.room, 0) else LoginAck(e.sid, was.room, was.last);
    GreetingIs(n, e);
    BeforeHandshake(l, es, e);
    if e.Login? && Shaken(es, e.sid) {
      ShakenIsKnown(l, es, e);
      WatermarkCounts(l, es, e.sid, BaseOf(l, es, e.sid).value);
    }
    assert (es + [e])[..|es|] == es;
    HandshakeManager(n, e);
  }

  /** In every life a handshake writes its acknowledgement and then a MESSAGE frame for each message of the
      session, in the order of their numbers: exactly those not acknowledged, if the session was sound when
      the node first had it.  A HELLO_ACK carries the session's room and watermark 0, a LOGIN_ACK its room
      and the watermark from before. */
  lemma HandshakeReplays(l: Life, es: seq<NodeEvent>, e: NodeEvent)
    returns (ack: Frame, frames: seq<Out>, msgs: seq<OutboundMessage>)
    requires e.Hello? || e.Login?
    ensures NodeRun(l, es + [e]).wire == NodeRun(l, es).wire + ([Out(e.sid, e.conn, ack)] + frames)
    ensures Shows(frames, e.sid, e.conn, msgs)
    ensures var base := BaseOf(l, es + [e], e.sid);
      && base.Some? && RoomOf(l, es + [e], e.sid).Some?
      && Greets(l, es, e, base.value, ack)
      && (Sound(base.value) ==> ReplaysUnacked(l, es + [e], e.sid, base.value, msgs))
  {
    var was;
    ack, was := HandshakeGreets(l, es, e);
    msgs := Replay(was.(last := 0, seen := {}), 0);
    frames := ReplayFrames(e.sid, e.conn, msgs);
    ReplayShows(e.sid, e.conn, msgs);
    ReconnectReplaysUnacked(l, es + [e], e.sid);
    assert (es + [e])[..|es|] == es;
  }
}
