/** Whole lives of one chat node, from any disk: every session is the run of its own event history,
    read off the node's events, from what the node first had of it. */
module NodeRuns {
  import opened Base
  import opened SessionStates
  import opened SessionManagers
  import opened NodeBroadcast
  import opened NodeSteps

  // ---- What the events say -------------------------------------------------------------------------

  /** What the node first had of a session in this life: read back from its disk when the session
      was first touched, adopted from a peer, or new. */
  function BaseOf(l: Life, es: seq<NodeEvent>, sid: Sid): Option<Session> {
    if es == [] then None
    else
      var init := es[..|es| - 1];
      var before := BaseOf(l, init, sid);
      if before.Some? then before else FirstAs(NodeRun(l, init), es[|es| - 1], sid)
  }

  /** The room a session is in, once it is known to the node: the last one joined, else its first. */
  function RoomOf(l: Life, es: seq<NodeEvent>, sid: Sid): Option<Room> {
    if es == [] then None
    else
      var before, e := RoomOf(l, es[..|es| - 1], sid), es[|es| - 1];
      if e.Join? && e.sid == sid then Some(e.room)
      else if before.Some? then before
      else match BaseOf(l, es, sid) case Some(b) => Some(b.room) case None => None
  }

  /** The author name shown for a session: the user of its last login, else its id. */
  function Name(es: seq<NodeEvent>, sid: Sid): string {
    if es == [] then sid
    else
      var e := es[|es| - 1];
      if e.Login? && e.sid == sid then e.username else Name(es[..|es| - 1], sid)
  }

  /** The newest connection of a session, while it is open. */
  function ConnOf(es: seq<NodeEvent>, sid: Sid): Option<Conn> {
    if es == [] then None
    else
      var before := ConnOf(es[..|es| - 1], sid);
      match es[|es| - 1]
      case Hello(s, _, conn, _) => if s == sid then Some(conn) else before
      case Login(s, _, conn, _) => if s == sid then Some(conn) else before
      case Drop(s, conn) => if s == sid && before == Some(conn) then None else before
      case _ => before
  }

  predicate IsHandshake(e: NodeEvent, sid: Sid) {
    (e.Hello? || e.Login?) && e.sid == sid
  }

  /** The session shook hands in this life; a connection's frames are only read after it did. */
  predicate Shaken(es: seq<NodeEvent>, sid: Sid) {
    es != [] && (IsHandshake(es[|es| - 1], sid) || Shaken(es[..|es| - 1], sid))
  }

  /** The MESSAGE frames of a session since its last handshake, from whatever connection: an evicted
      connection is still read until it is closed. */
  function FramesSince(es: seq<NodeEvent>, sid: Sid): seq<(Conn, int)> {
    if es == [] then []
    else
      var e := es[|es| - 1];
      if IsHandshake(e, sid) then []
      else FramesSince(es[..|es| - 1], sid) + if e.MessageIn? && e.sid == sid then [(e.conn, e.msg.seqNo)] else []
  }

  function Seqs(frames: seq<(Conn, int)>): seq<int> {
    if frames == [] then [] else Seqs(frames[..|frames| - 1]) + [frames[|frames| - 1].1]
  }

  /** A frame is admitted exactly if its seq is positive and new since the session's last handshake;
      before any handshake, as the session's bookkeeping has it. */
  predicate Admits(l: Life, es: seq<NodeEvent>, sid: Sid, k: int) {
    if Shaken(es, sid) then k >= 1 && k !in Seqs(FramesSince(es, sid))
    else ShouldProcess(SessionOf(NodeRun(l, es).manager, sid, "general"), k)
  }

  function RoomOrFirst(l: Life, es: seq<NodeEvent>, sid: Sid): Room {
    match RoomOf(l, es, sid)
    case Some(r) => r
    case None => SessionOf(NodeRun(l, es).manager, sid, "general").room
  }

  /** The broadcast an event causes after the events `es`. */
  function BroadcastOf(l: Life, es: seq<NodeEvent>, e: NodeEvent): Option<Broadcast> {
    match e
    case MessageIn(sid, _, msg, now) =>
      if Admits(l, es, sid, msg.seqNo) then
        var room := RoomOrFirst(l, es, sid);
        Some(Broadcast(sid, room, Chat(msg.text, Name(es, sid), room, Some(SentAt(msg, now))), now))
      else None
    case RelayIn(room, text, from, at, now) => Some(Broadcast(from, room, Chat(text, from, room, at), now))
    case _ => None
  }

  /** A broadcast is meant for everyone known to be in its room but its maker. */
  predicate MeantFor(l: Life, es: seq<NodeEvent>, b: Broadcast, sid: Sid) {
    RoomOf(l, es, sid) == Some(b.room) && sid != b.from
  }

  /** The events of one session. */
  function HistoryOf(l: Life, es: seq<NodeEvent>, sid: Sid): seq<SessionEvent> {
    if es == [] then []
    else
      var init := es[..|es| - 1];
      HistoryOf(l, init, sid) + Contribution(l, init, es[|es| - 1], sid)
  }

  function Contribution(l: Life, init: seq<NodeEvent>, e: NodeEvent, sid: Sid): seq<SessionEvent> {
    var b := BroadcastOf(l, init, e);
    if b.Some? && MeantFor(l, init, b.value, sid) then [Send(b.value.payload, b.value.at)]
    else if IsHandshake(e, sid) then [NewConnection]
    else
      match e
      case MessageIn(s, _, msg, _) => if s == sid then [SessionEvent.Inbound(msg.seqNo)] else []
      case AckIn(s, k) => if s == sid then [Ack(k)] else []
      case Resend(s, k, now) => if s == sid && ConnOf(init, sid).Some? then [Retry(k, now)] else []
      case _ => []
  }

  // ---- The node runs every session by its history -------------------------------------------------------

  /** The session is the run of its history from its base, in its room. */
  ghost predicate Follows(l: Life, es: seq<NodeEvent>, sid: Sid) {
    var m := NodeRun(l, es).manager;
    match BaseOf(l, es, sid)
    case None => sid !in m.sessions && RoomOf(l, es, sid).None? && HistoryOf(l, es, sid) == [] && ConnOf(es, sid).None?
    case Some(base) =>
      && sid in m.sessions && RoomOf(l, es, sid).Some?
      && m.sessions[sid] == SessionRun(base, HistoryOf(l, es, sid)).(room := RoomOf(l, es, sid).value)
  }

  /** Its connection and its name are those the events say. */
  ghost predicate Linked(l: Life, es: seq<NodeEvent>, sid: Sid) {
    var n := NodeRun(l, es);
    && NameOf(n, sid) == Name(es, sid)
    && ConnOf(es, sid) == if sid in n.connections then Some(n.connections[sid]) else None
  }

  lemma SeqsAppend(a: seq<(Conn, int)>, f: (Conn, int))
    ensures Seqs(a + [f]) == Seqs(a) + [f.1]
  {
    assert (a + [f])[..|a|] == a;
  }

  function Arrivals(ns: seq<int>, c: seq<SessionEvent>): seq<int> {
    if c == [] then ns
    else match c[0]
      case Inbound(k) => ns + [k]
      case NewConnection => []
      case _ => ns
  }

  lemma InboundAppend(h: seq<SessionEvent>, c: seq<SessionEvent>)
    requires |c| <= 1
    ensures InboundOnConnection(h + c) == Arrivals(InboundOnConnection(h), c)
    ensures NewConnection in h + c <==> NewConnection in h || c == [NewConnection]
  {
    if c == [] {
      assert h + c == h;
    } else {
      assert (h + c)[..|h|] == h && (h + c)[|h|] == c[0];
    }
  }

  lemma ContributionKind(l: Life, init: seq<NodeEvent>, e: NodeEvent, sid: Sid)
    ensures var c := Contribution(l, init, e, sid);
      && |c| <= 1
      && (IsHandshake(e, sid) ==> c == [NewConnection])
      && (e.MessageIn? && e.sid == sid ==> c == [SessionEvent.Inbound(e.msg.seqNo)])
      && (!IsHandshake(e, sid) && !(e.MessageIn? && e.sid == sid) && c != [] ==> !c[0].Inbound? && !c[0].NewConnection?)
  {
  }

  /** The inbound part of a history is the frames since the last handshake. */
  lemma {:induction false} HistoryFrames(l: Life, es: seq<NodeEvent>, sid: Sid)
    ensures InboundOnConnection(HistoryOf(l, es, sid)) == Seqs(FramesSince(es, sid))
    ensures Shaken(es, sid) <==> NewConnection in HistoryOf(l, es, sid)
  {
    if es != [] {
      var init, e := es[..|es| - 1], es[|es| - 1];
      HistoryFrames(l, init, sid);
      ContributionKind(l, init, e, sid);
      InboundAppend(HistoryOf(l, init, sid), Contribution(l, init, e, sid));
      if e.MessageIn? && e.sid == sid {
        SeqsAppend(FramesSince(init, sid), (e.conn, e.msg.seqNo));
      } else {
        assert IsHandshake(e, sid) || FramesSince(es, sid) == FramesSince(init, sid);
      }
    }
  }

  /** The node admits a frame exactly when the events say it is new. */
  lemma AdmissionFollows(l: Life, es: seq<NodeEvent>, sid: Sid, k: int)
    requires Follows(l, es, sid)
    ensures ShouldProcess(SessionOf(NodeRun(l, es).manager, sid, "general"), k) <==> Admits(l, es, sid, k)
  {
    if Shaken(es, sid) {
      HistoryFrames(l, es, sid);
      InboundIsExact(BaseOf(l, es, sid).value, HistoryOf(l, es, sid), k);
    }
  }

  /** The events say what the node broadcasts, and to whom. */
  lemma BroadcastIsMade(l: Life, es: seq<NodeEvent>, e: NodeEvent)
    requires e.MessageIn? ==> Follows(l, es, e.sid) && Linked(l, es, e.sid)
    ensures BroadcastBy(NodeRun(l, es), e) == BroadcastOf(l, es, e)
  {
    if e.MessageIn? {
      AdmissionFollows(l, es, e.sid, e.msg.seqNo);
    }
  }

  lemma MeantIsGiven(l: Life, es: seq<NodeEvent>, b: Broadcast, sid: Sid)
    requires Follows(l, es, sid)
    ensures MeantFor(l, es, b, sid) <==> Gets(NodeRun(l, es), b, sid)
  {
  }

  lemma ContributionIsDeed(l: Life, es: seq<NodeEvent>, e: NodeEvent, sid: Sid)
    requires Follows(l, es, sid) && Linked(l, es, sid)
    requires e.MessageIn? ==> Follows(l, es, e.sid) && Linked(l, es, e.sid)
    ensures Contribution(l, es, e, sid) == Deed(NodeRun(l, es), e, sid)
  {
    var b := BroadcastOf(l, es, e);
    BroadcastIsMade(l, es, e);
    if b.Some? {
      MeantIsGiven(l, es, b.value, sid);
    }
  }

  lemma RunSnoc(base: Session, h: seq<SessionEvent>, c: seq<SessionEvent>, room: Room)
    requires |c| <= 1
    ensures SessionRun(base, h + c).(room := room) == Extended(SessionRun(base, h), c).(room := room)
    ensures Extended(SessionRun(base, h).(room := room), c) == Extended(SessionRun(base, h), c).(room := room)
  {
    if c == [] {
      assert h + c == h;
    } else {
      assert (h + c)[..|h|] == h && (h + c)[|h|] == c[0];
    }
  }

  lemma RoomStep(l: Life, es: seq<NodeEvent>, e: NodeEvent, sid: Sid)
    requires Follows(l, es, sid)
    ensures RoomOf(l, es + [e], sid) ==
            match Worked(NodeRun(l, es), e, sid) case Some(s) => Some(RoomAfter(s, e, sid)) case None => None
  {
    assert (es + [e])[..|es|] == es;
  }

  lemma KnownFollows(l: Life, es: seq<NodeEvent>, e: NodeEvent, sid: Sid, s: Session)
    requires Follows(l, es, sid) && Effects(NodeRun(l, es), e, sid)
    requires Worked(NodeRun(l, es), e, sid) == Some(s)
    requires HistoryOf(l, es + [e], sid) == HistoryOf(l, es, sid) + Deed(NodeRun(l, es), e, sid)
    requires RoomOf(l, es + [e], sid) == Some(RoomAfter(s, e, sid))
    ensures Follows(l, es + [e], sid)
  {
    assert (es + [e])[..|es|] == es;
    var base := BaseOf(l, es + [e], sid).value;
    RunSnoc(base, HistoryOf(l, es, sid), Deed(NodeRun(l, es), e, sid), RoomAfter(s, e, sid));
  }

  lemma FollowsStep(l: Life, es: seq<NodeEvent>, e: NodeEvent, sid: Sid)
    requires Coherent(NodeRun(l, es).manager) && Follows(l, es, sid) && Linked(l, es, sid)
    requires e.MessageIn? ==> Follows(l, es, e.sid) && Linked(l, es, e.sid)
    ensures Follows(l, es + [e], sid)
  {
    var n := NodeRun(l, es);
    assert (es + [e])[..|es|] == es;
    StepEffects(n, e, sid);
    ContributionIsDeed(l, es, e, sid);
    RoomStep(l, es, e, sid);
    match Worked(n, e, sid) {
      case None =>
      case Some(s) => KnownFollows(l, es, e, sid, s);
    }
  }

  lemma LinkedStep(l: Life, es: seq<NodeEvent>, e: NodeEvent, sid: Sid)
    requires Coherent(NodeRun(l, es).manager) && Linked(l, es, sid)
    ensures Linked(l, es + [e], sid)
  {
    assert (es + [e])[..|es|] == es;
    StepLinks(NodeRun(l, es), e);
  }

  /** The projection: in every life, from any disk, every session is the run of its own history from
      its base, in its room, under its name, on its connection. */
  lemma {:induction false} SessionsFollowTheirHistory(l: Life, es: seq<NodeEvent>, sid: Sid)
    ensures Follows(l, es, sid) && Linked(l, es, sid)
  {
    if es != [] {
      var init, e := es[..|es| - 1], es[|es| - 1];
      SplitLast(es);
      RunIsCoherent(l, init);
      SessionsFollowTheirHistory(l, init, sid);
      if e.MessageIn? {
        SessionsFollowTheirHistory(l, init, e.sid);
      }
      FollowsStep(l, init, e, sid);
      LinkedStep(l, init, e, sid);
    }
  }
}
