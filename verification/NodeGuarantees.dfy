/** What the clients of a chat node can rely on, in every life of the node, from any disk: gap-free
    per-recipient logs, exactly-once processing of their messages, one ACK per frame, and a wire
    that never carries anything but the log. */
module NodeGuarantees {
  import opened Base
  import opened SessionStates
  import opened Persistence
  import opened NodeBroadcast
  import opened NodeSteps
  import opened NodeRuns

  // ---- Per-recipient logs -------------------------------------------------------------------------

  /** The broadcasts made by others into the room a session was in at the time, in order. */
  function MeantLog(l: Life, es: seq<NodeEvent>, sid: Sid): seq<Payload> {
    if es == [] then []
    else
      var init := es[..|es| - 1];
      var b := BroadcastOf(l, init, es[|es| - 1]);
      MeantLog(l, init, sid) + (if b.Some? && MeantFor(l, init, b.value, sid) then [b.value.payload] else [])
  }

  /** The client acknowledged message k when it had been numbered; `first` is the counter of the
      session's base. */
  ghost predicate Acknowledged(l: Life, es: seq<NodeEvent>, sid: Sid, first: int, k: int) {
    es != [] &&
    (var init := es[..|es| - 1];
     Acknowledged(l, init, sid, first, k)
     || (es[|es| - 1] == AckIn(sid, k) && k < first + |MeantLog(l, init, sid)|))
  }

  /** Message k of a session: of its base, or of this life's log after it. */
  function Entry(base: Session, log: seq<Payload>, k: int): Option<Payload> {
    if k < base.nextSend then if k in base.outbox then Some(base.outbox[k].payload) else None
    else if k - base.nextSend < |log| then Some(log[k - base.nextSend]) else None
  }

  /** What an event sends to a session is the broadcast meant for it. */
  lemma ContributionSends(l: Life, init: seq<NodeEvent>, e: NodeEvent, sid: Sid)
    ensures var b := BroadcastOf(l, init, e); var c := Contribution(l, init, e, sid);
      && |c| <= 1
      && (if c != [] && c[0].Send? then [c[0].payload] else [])
         == (if b.Some? && MeantFor(l, init, b.value, sid) then [b.value.payload] else [])
  {
  }

  lemma {:induction false} HistorySends(l: Life, es: seq<NodeEvent>, sid: Sid)
    ensures Sends(HistoryOf(l, es, sid)) == MeantLog(l, es, sid)
  {
    if es != [] {
      var init := es[..|es| - 1];
      HistorySends(l, init, sid);
      ContributionSends(l, init, es[|es| - 1], sid);
      SendsStep(HistoryOf(l, init, sid), Contribution(l, init, es[|es| - 1], sid));
    }
  }

  lemma SendsStep(h: seq<SessionEvent>, c: seq<SessionEvent>)
    requires |c| <= 1
    ensures Sends(h + c) == Sends(h) + if c != [] && c[0].Send? then [c[0].payload] else []
  {
    if c == [] {
      assert h + c == h;
    } else {
      assert (h + c)[..|h|] == h;
    }
  }

  lemma AckedStep(base: Session, h: seq<SessionEvent>, c: seq<SessionEvent>, k: int)
    requires |c| <= 1
    ensures AckedIn(base, h + c, k) <==> AckedIn(base, h, k) || (c == [Ack(k)] && k < base.nextSend + |Sends(h)|)
  {
    if c == [] {
      assert h + c == h;
    } else {
      assert c == [c[0]];
      AckedInSnoc(base, h, c[0], k);
    }
  }

  lemma {:induction false} HistoryAcks(l: Life, es: seq<NodeEvent>, sid: Sid, base: Session, k: int)
    ensures AckedIn(base, HistoryOf(l, es, sid), k) <==> Acknowledged(l, es, sid, base.nextSend, k)
  {
    if es != [] {
      var init, e := es[..|es| - 1], es[|es| - 1];
      HistoryAcks(l, init, sid, base, k);
      HistorySends(l, init, sid);
      ContributionKind(l, init, e, sid);
      AckedStep(base, HistoryOf(l, init, sid), Contribution(l, init, e, sid), k);
      assert Contribution(l, init, e, sid) == [Ack(k)] <==> e == AckIn(sid, k);
    }
  }

  /** The outbox a session has after logging `log` on top of its base. */
  ghost predicate LogFollows(l: Life, es: seq<NodeEvent>, sid: Sid, base: Session, s: Session) {
    var log := MeantLog(l, es, sid);
    && s.nextSend == base.nextSend + |log|
    && (forall k :: k in s.outbox <==>
          (k in base.outbox || base.nextSend <= k < s.nextSend) && !Acknowledged(l, es, sid, base.nextSend, k))
    && (forall k :: k in s.outbox ==> s.outbox[k].seqNo == k && Entry(base, log, k) == Some(s.outbox[k].payload))
  }

  lemma LogFollowsHistory(l: Life, es: seq<NodeEvent>, sid: Sid, base: Session)
    requires Sound(base)
    ensures LogFollows(l, es, sid, base, SessionRun(base, HistoryOf(l, es, sid)))
  {
    OutboxIsSentMinusAcked(base, HistoryOf(l, es, sid));
    HistorySends(l, es, sid);
    forall k ensures AckedIn(base, HistoryOf(l, es, sid), k) <==> Acknowledged(l, es, sid, base.nextSend, k) {
      HistoryAcks(l, es, sid, base, k);
    }
  }

  /** Per-recipient log: for every session of the node, whatever it first had of it (nothing, rows of
      its disk, or a peer's snapshot), seq base + i carries the i-th broadcast since made into its
      current room by someone else, without gaps and in order, across any run of handshakes, joins,
      messages, relayed deliveries and resends; what is buffered is exactly the base's messages and
      the log, less what was acknowledged. */
  lemma PerRecipientLog(l: Life, es: seq<NodeEvent>, sid: Sid)
    ensures match BaseOf(l, es, sid)
            case None => sid !in NodeRun(l, es).manager.sessions && MeantLog(l, es, sid) == []
            case Some(base) =>
              && sid in NodeRun(l, es).manager.sessions
              && NodeRun(l, es).manager.sessions[sid].nextSend == base.nextSend + |MeantLog(l, es, sid)|
              && (Sound(base) ==> LogFollows(l, es, sid, base, NodeRun(l, es).manager.sessions[sid]))
  {
    SessionsFollowTheirHistory(l, es, sid);
    HistorySends(l, es, sid);
    match BaseOf(l, es, sid) {
      case None =>
      case Some(base) =>
        CounterCountsSends(base, HistoryOf(l, es, sid));
        if Sound(base) {
          LogFollowsHistory(l, es, sid, base);
        }
    }
  }

  /** What a reconnecting client is sent: exactly the unacknowledged messages of base and log, in order. */
  ghost predicate ReplaysUnacked(l: Life, es: seq<NodeEvent>, sid: Sid, base: Session, r: seq<OutboundMessage>) {
    var log := MeantLog(l, es, sid);
    && InOrder(r)
    && (forall k :: Carries(r, k) <==>
          k > 0 && Entry(base, log, k).Some? && !Acknowledged(l, es, sid, base.nextSend, k))
    && (forall m :: m in r ==> Entry(base, log, m.seqNo) == Some(m.payload))
  }

  lemma ReplayOfLog(l: Life, es: seq<NodeEvent>, sid: Sid, base: Session, s: Session)
    requires Sound(base) && LogFollows(l, es, sid, base, s)
    ensures ReplaysUnacked(l, es, sid, base, Replay(s, 0))
  {
    assert WellKeyed(s.outbox);
    ReplayIsOrdered(s, 0);
    forall k ensures Carries(Replay(s, 0), k) <==>
                     k > 0 && Entry(base, MeantLog(l, es, sid), k).Some? && !Acknowledged(l, es, sid, base.nextSend, k)
    {
      ReplayCarries(s, 0, k);
    }
    forall m | m in Replay(s, 0) ensures Entry(base, MeantLog(l, es, sid), m.seqNo) == Some(m.payload) {
      assert Files(s.outbox, m);
    }
  }

  lemma ReconnectReplaysUnacked(l: Life, es: seq<NodeEvent>, sid: Sid)
    ensures var base := BaseOf(l, es, sid);
      base.Some? && Sound(base.value) ==>
        && sid in NodeRun(l, es).manager.sessions
        && ReplaysUnacked(l, es, sid, base.value, Replay(NodeRun(l, es).manager.sessions[sid], 0))
  {
    PerRecipientLog(l, es, sid);
    var base := BaseOf(l, es, sid);
    if base.Some? && Sound(base.value) {
      ReplayOfLog(l, es, sid, base.value, NodeRun(l, es).manager.sessions[sid]);
    }
  }

  // ---- Exactly-once processing --------------------------------------------------------------------

  /** The broadcasts the node really made for frame k of one connection since the session's last
      handshake. */
  function TimesBroadcast(l: Life, es: seq<NodeEvent>, sid: Sid, conn: Conn, k: int): nat {
    if es == [] then 0
    else
      var init, e := es[..|es| - 1], es[|es| - 1];
      if IsHandshake(e, sid) then 0
      else
        TimesBroadcast(l, init, sid, conn, k)
        + if e.MessageIn? && e.sid == sid && e.conn == conn && e.msg.seqNo == k
             && BroadcastBy(NodeRun(l, init), e).Some?
          then 1 else 0
  }

  /** The connection a seq first arrived on. */
  function FirstOn(frames: seq<(Conn, int)>, k: int): Option<Conn> {
    if frames == [] then None
    else
      var n := |frames| - 1;
      var before := FirstOn(frames[..n], k);
      if before.Some? then before else if frames[n].1 == k then Some(frames[n].0) else None
  }

  lemma {:induction false} FirstIfArrived(frames: seq<(Conn, int)>, k: int)
    ensures FirstOn(frames, k).Some? <==> k in Seqs(frames)
  {
    if frames != [] {
      FirstIfArrived(frames[..|frames| - 1], k);
    }
  }

  lemma FirstAppend(frames: seq<(Conn, int)>, f: (Conn, int), k: int)
    ensures FirstOn(frames + [f], k) ==
            if FirstOn(frames, k).Some? then FirstOn(frames, k) else if f.1 == k then Some(f.0) else None
  {
    assert (frames + [f])[..|frames|] == frames;
  }

  /** After a session's handshake, however its frames are duplicated and reordered and whatever else
      the node does in between: frame k of a connection is broadcast once if it is positive and no
      frame of the session with that seq arrived earlier on another connection (one that was
      superseded and is still being read), and never otherwise. */
  lemma {:induction false} ExactlyOnce(l: Life, es: seq<NodeEvent>, sid: Sid, conn: Conn, k: int)
    requires Shaken(es, sid)
    ensures TimesBroadcast(l, es, sid, conn, k) ==
        if k >= 1 && FirstOn(FramesSince(es, sid), k) == Some(conn) then 1 else 0
  {
    var init, e := es[..|es| - 1], es[|es| - 1];
    if !IsHandshake(e, sid) {
      ExactlyOnce(l, init, sid, conn, k);
      if e.MessageIn? && e.sid == sid {
        var frames := FramesSince(init, sid);
        SessionsFollowTheirHistory(l, init, sid);
        AdmissionFollows(l, init, sid, e.msg.seqNo);
        FirstAppend(frames, (e.conn, e.msg.seqNo), k);
        FirstIfArrived(frames, k);
      } else {
        assert FramesSince(es, sid) == FramesSince(init, sid);
      }
    }
  }

  /** The seq arrived on this connection since the handshake. */
  ghost predicate ArrivedOn(frames: seq<(Conn, int)>, conn: Conn, k: int) {
    (conn, k) in frames
  }

  /** Another connection of the session had the seq taken before it first arrived on this one. */
  ghost predicate TakenFirst(frames: seq<(Conn, int)>, conn: Conn, k: int) {
    exists i :: 0 <= i < |frames| && frames[i].0 != conn && frames[i].1 == k && (conn, k) !in frames[..i]
  }

  lemma {:induction false} TakenIff(frames: seq<(Conn, int)>, conn: Conn, k: int)
    requires ArrivedOn(frames, conn, k)
    ensures FirstOn(frames, k) == Some(conn) <==> !TakenFirst(frames, conn, k)
  {
    var n := |frames| - 1;
    var init := frames[..n];
    SplitLast(frames);
    FirstIfArrived(init, k);
    if ArrivedOn(init, conn, k) {
      TakenIff(init, conn, k);
      InSeqs(init, (conn, k));
      TakenGrows(init, frames[n], conn, k);
    } else {
      assert frames[n] == (conn, k);
      if FirstOn(init, k).Some? {
        FirstIsThere(init, k);
        var i :| 0 <= i < |init| && init[i] == (FirstOn(init, k).value, k);
        assert frames[i] == init[i] && (conn, k) !in frames[..i];
      } else if TakenFirst(frames, conn, k) {
        var i :| 0 <= i < |frames| && frames[i].0 != conn && frames[i].1 == k && (conn, k) !in frames[..i];
        assert init[i] == frames[i];
        InSeqs(init, frames[i]);
      }
    }
  }

  lemma {:induction false} InSeqs(frames: seq<(Conn, int)>, f: (Conn, int))
    requires f in frames
    ensures f.1 in Seqs(frames)
  {
    if frames[|frames| - 1] != f {
      SplitLast(frames);
      InSeqs(frames[..|frames| - 1], f);
    }
  }

  lemma {:induction false} FirstIsThere(frames: seq<(Conn, int)>, k: int)
    requires FirstOn(frames, k).Some?
    ensures (FirstOn(frames, k).value, k) in frames
  {
    var n := |frames| - 1;
    if FirstOn(frames[..n], k).Some? {
      FirstIsThere(frames[..n], k);
    } else {
      assert frames[n] == (frames[n].0, k);
    }
  }

  lemma TakenGrows(frames: seq<(Conn, int)>, f: (Conn, int), conn: Conn, k: int)
    requires ArrivedOn(frames, conn, k)
    ensures TakenFirst(frames + [f], conn, k) <==> TakenFirst(frames, conn, k)
  {
    var all := frames + [f];
    assert all[..|frames|] == frames && forall i :: 0 <= i <= |frames| ==> all[..i] == frames[..i];
    if TakenFirst(frames, conn, k) {
      var i :| 0 <= i < |frames| && frames[i].0 != conn && frames[i].1 == k && (conn, k) !in frames[..i];
      assert all[i] == frames[i];
    }
  }

  /** On the connection of the session's last handshake each distinct positive seq is broadcast
      exactly once if and only if no other connection of the session had that seq taken between the
      handshake and its first arrival. */
  lemma ExactlyOnceOnConnection(l: Life, es: seq<NodeEvent>, sid: Sid, conn: Conn, k: int)
    requires Shaken(es, sid) && k >= 1 && ArrivedOn(FramesSince(es, sid), conn, k)
    ensures TimesBroadcast(l, es, sid, conn, k) <= 1
    ensures TimesBroadcast(l, es, sid, conn, k) == 1 <==> !TakenFirst(FramesSince(es, sid), conn, k)
  {
    ExactlyOnce(l, es, sid, conn, k);
    TakenIff(FramesSince(es, sid), conn, k);
  }

  /** The watermark the node keeps is the largest w such that 1..w all arrived since the session's
      last handshake, and the sparse set is exactly what arrived above it. */
  lemma WatermarkIsExact(l: Life, es: seq<NodeEvent>, sid: Sid)
    requires Shaken(es, sid)
    ensures sid in NodeRun(l, es).manager.sessions
    ensures var s := NodeRun(l, es).manager.sessions[sid];
      Watermark(Positive(Seqs(FramesSince(es, sid))), s.last, s.seen)
  {
    SessionsFollowTheirHistory(l, es, sid);
    HistoryFrames(l, es, sid);
    InboundIsExact(BaseOf(l, es, sid).value, HistoryOf(l, es, sid), 1);
  }

  /** A superseded connection is still read: its frame takes the seq, and the first frame with that
      seq on the new connection is acknowledged and lost. */
  lemma EvictedConnectionTakesSeq(l: Life, sid: Sid, room: Room, msg: Inbound, now: real)
    requires msg.seqNo >= 1
    ensures var es := [Hello(sid, room, 1, None), Hello(sid, room, 2, None), MessageIn(sid, 1, msg, now)];
            var e := MessageIn(sid, 2, msg, now);
      && BroadcastBy(NodeRun(l, es), e).None?
      && NodeStep(NodeRun(l, es), e).wire == NodeRun(l, es).wire + [Out(sid, 2, AckFrame(msg.seqNo))]
  {
    var h1, h2, m := Hello(sid, room, 1, None), Hello(sid, room, 2, None), MessageIn(sid, 1, msg, now);
    var es := [h1, h2, m];
    assert es[..2] == [h1, h2] && [h1, h2][..1] == [h1];
    assert FramesSince([h1, h2], sid) == [];
    assert FramesSince(es, sid) == [(1, msg.seqNo)];
    SeqsAppend([], (1, msg.seqNo));
    assert [] + [(1, msg.seqNo)] == [(1, msg.seqNo)];
    SessionsFollowTheirHistory(l, es, sid);
    assert Shaken([h1, h2], sid);
    AdmissionFollows(l, es, sid, msg.seqNo);
  }

  /** Around a handshake the same frame of the older connection is broadcast twice. */
  lemma FrameIsBroadcastAgainAfterHandshake(l: Life, sid: Sid, room: Room, msg: Inbound, now: real)
    requires msg.seqNo >= 1
    ensures var h1, h2, m := Hello(sid, room, 1, None), Hello(sid, room, 2, None), MessageIn(sid, 1, msg, now);
      && BroadcastBy(NodeRun(l, [h1]), m).Some?
      && BroadcastBy(NodeRun(l, [h1, m, h2]), m).Some?
  {
    var h1, h2, m := Hello(sid, room, 1, None), Hello(sid, room, 2, None), MessageIn(sid, 1, msg, now);
    SessionsFollowTheirHistory(l, [h1], sid);
    SessionsFollowTheirHistory(l, [h1, m, h2], sid);
    AdmissionFollows(l, [h1], sid, msg.seqNo);
    AdmissionFollows(l, [h1, m, h2], sid, msg.seqNo);
  }

  // ---- Relayed messages and names -------------------------------------------------------------------

  /** A relayed message enters the log of every session in its room but the one called like its author. */
  lemma RelayEntersLogs(l: Life, es: seq<NodeEvent>, room: Room, text: string, name: string, at: Option<real>,
                        now: real, sid: Sid)
    ensures MeantLog(l, es + [RelayIn(room, text, name, at, now)], sid) ==
            MeantLog(l, es, sid)
            + if RoomOf(l, es, sid) == Some(room) && sid != name then [Chat(text, name, room, at)] else []
  {
    assert (es + [RelayIn(room, text, name, at, now)])[..|es|] == es;
  }

  /** The node does not know the session, in memory or on disk. */
  ghost predicate Unmet(l: Life, es: seq<NodeEvent>, sid: Sid) {
    && sid !in NodeRun(l, es).manager.sessions && sid !in NodeRun(l, es).manager.store.db.sessions
    && BaseOf(l, es, sid).None? && RoomOf(l, es, sid).None? && MeantLog(l, es, sid) == []
  }

  /** A session's first handshake puts it in the room it asks for, and does nothing to the others. */
  lemma FirstHello(l: Life, es: seq<NodeEvent>, sid: Sid, room: Room, conn: Conn, other: Sid)
    requires Unmet(l, es, sid) && other != sid
    ensures var es' := es + [Hello(sid, room, conn, None)];
      && RoomOf(l, es', sid) == Some(room) && MeantLog(l, es', sid) == []
      && RoomOf(l, es', other) == RoomOf(l, es, other) && MeantLog(l, es', other) == MeantLog(l, es, other)
      && (Unmet(l, es, other) ==> Unmet(l, es', other))
  {
    var e := Hello(sid, room, conn, None);
    assert (es + [e])[..|es|] == es;
    SessionsFollowTheirHistory(l, es, other);
    assert FirstAs(NodeRun(l, es), e, sid) == Some(FreshSession(room));
  }

  lemma GreetedInRoom(l: Life, name: Sid, other: Sid, room: Room)
    requires l.db == EmptyTables && name != other
    ensures var es := [Hello(name, room, 1, None)] + [Hello(other, room, 2, None)];
      && RoomOf(l, es, name) == Some(room) && RoomOf(l, es, other) == Some(room)
      && MeantLog(l, es, name) == [] && MeantLog(l, es, other) == []
  {
    assert [] + [Hello(name, room, 1, None)] == [Hello(name, room, 1, None)];
    FirstHello(l, [], name, room, 1, other);
    FirstHello(l, [Hello(name, room, 1, None)], other, room, 2, name);
  }

  /** So on another node than its author's a message is lost to a session that happens to be called like
      the author, while anyone else in the room gets it, a copy of the author's own session included. */
  lemma NamesakeMissesRelay(l: Life, name: Sid, other: Sid, room: Room, text: string, at: Option<real>, now: real)
    requires l.db == EmptyTables && name != other
    ensures var es := [Hello(name, room, 1, None)] + [Hello(other, room, 2, None)]
                      + [RelayIn(room, text, name, at, now)];
      && RoomOf(l, es, name) == Some(room) && RoomOf(l, es, other) == Some(room)
      && MeantLog(l, es, name) == [] && MeantLog(l, es, other) == [Chat(text, name, room, at)]
  {
    var es := [Hello(name, room, 1, None)] + [Hello(other, room, 2, None)];
    GreetedInRoom(l, name, other, room);
    RelayEntersLogs(l, es, room, text, name, at, now, name);
    RelayEntersLogs(l, es, room, text, name, at, now, other);
    assert (es + [RelayIn(room, text, name, at, now)])[..|es|] == es;
  }
}
