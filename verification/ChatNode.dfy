/** The chat node object (node/server.py, ChatNode): handshake bookkeeping, inbound messages,
    local broadcast and connection cleanup, each doing exactly its NodeBroadcast step. */
module ChatNodes {
  import opened Base
  import opened SessionStates
  import opened Persistence
  import opened SessionManagers
  import opened NodeBroadcast

  lemma WithTwice(m: Manager, sid: Sid, s: Session, s': Session)
    ensures With(With(m, sid, s), sid, s') == With(m, sid, s')
  {
    assert m.sessions[sid := s][sid := s'] == m.sessions[sid := s'];
  }

  lemma ReplayOneMore(before: seq<Out>, sid: Sid, conn: Conn, msgs: seq<OutboundMessage>, i: nat)
    requires i < |msgs|
    ensures before + ReplayFrames(sid, conn, msgs[..i + 1]) ==
            before + ReplayFrames(sid, conn, msgs[..i]) + [Out(sid, conn, MessageFrame(msgs[i].seqNo, msgs[i].payload))]
  {
    assert msgs[..i + 1][..i] == msgs[..i];
  }

  lemma DeliverOneMore(n: Node, sids: seq<Sid>, i: nat, from: string, payload: Payload, now: real)
    requires i < |sids|
    ensures DeliverAll(n, sids[..i + 1], from, payload, now)
         == DeliverOne(DeliverAll(n, sids[..i], from, payload, now), sids[i], from, payload, now)
  {
    assert sids[..i + 1][..i] == sids[..i];
  }

  lemma ReceivedKeepsRoom(n: Node, sid: Sid, conn: Conn, msg: Inbound, now: real)
    ensures var m := Received(n, sid, conn, msg, now).manager;
      sid in m.sessions && m.sessions[sid].room == SessionOf(n.manager, sid, "general").room
  {
  }

  /** The greeting of a handshake. */
  function Greeting(m: Manager, sid: Sid, room: Room, login: bool): Frame {
    var was := SessionOf(m, sid, room);
    if login then LoginAck(sid, was.room, was.last) else HelloAck(sid, Reset(was).room, Reset(was).last)
  }

  lemma IsConnect(n: Node, n': Node, sid: Sid, room: Room, conn: Conn, login: bool)
    requires var s := Reset(SessionOf(n.manager, sid, room));
      && n'.manager == With(n.manager, sid, s) && n'.connections == n.connections[sid := conn]
      && n'.wire == n.wire + [Out(sid, conn, Greeting(n.manager, sid, room, login))]
                    + ReplayFrames(sid, conn, Replay(s, 0))
      && n'.usernames == n.usernames && n'.relays == n.relays && n'.meshed == n.meshed
    ensures n' == Connect(n, sid, room, conn, login)
  {
  }

  class ChatNode {
    const manager: SessionManager
    const meshed: bool
    var connections: map<Sid, Conn>
    var usernames: map<Sid, string>
    var wire: seq<Out>
    var relays: seq<Relay>

    function View(): Node
      reads this, manager, manager.sessions.Values, manager.store
    {
      Node(manager.View(), connections, usernames, wire, relays, meshed)
    }

    constructor (manager: SessionManager, meshed: bool)
      ensures this.manager == manager && View() == Node(manager.View(), map[], map[], [], [], meshed)
    {
      this.manager, this.meshed := manager, meshed;
      connections, usernames, wire, relays := map[], map[], [], [];
    }

    method WriteFrame(sid: Sid, conn: Conn, frame: Frame)
      modifies `wire
      ensures wire == old(wire) + [Out(sid, conn, frame)]
    {
      wire := wire + [Out(sid, conn, frame)];
    }

    /** One recipient of a broadcast: number and buffer, then write if connected. */
    method DeliverTo(sid: Sid, payload: Payload, from: string, now: real)
      requires manager.Valid()
      modifies `wire, manager, manager.store, manager.sessions.Values
      ensures manager.Valid() && View() == DeliverOne(old(View()), sid, from, payload, now)
      ensures forall s :: s in manager.sessions.Values ==> s in old(manager.sessions.Values) || fresh(s)
    {
      if sid == from {
        return;
      }
      var seqNo := manager.SendMessage(sid, payload, now);
      if sid in connections {
        WriteFrame(sid, connections[sid], MessageFrame(seqNo, payload));
      }
    }

    method BroadcastLocal(room: Room, payload: Payload, from: string, now: real)
      requires manager.Valid()
      modifies `wire, manager, manager.store, manager.sessions.Values
      ensures manager.Valid() && View() == BroadcastedLocally(old(View()), room, payload, from, now)
    {
      var sids := manager.SessionIdsInRoom(room);
      ghost var start := View();
      var i := 0;
      while i < |sids|
        invariant 0 <= i <= |sids| && manager.Valid()
        invariant View() == DeliverAll(start, sids[..i], from, payload, now)
        invariant forall s :: s in manager.sessions.Values ==> s in old(manager.sessions.Values) || fresh(s)
      {
        DeliverOneMore(start, sids, i, from, payload, now);
        DeliverTo(sids[i], payload, from, now);
        i := i + 1;
      }
      assert sids[..i] == sids;
    }

    method DeliverRelayedMessage(room: Room, text: string, fromSession: string, sentAt: Option<real>, now: real)
      requires manager.Valid()
      modifies `wire, manager, manager.store, manager.sessions.Values
      ensures manager.Valid() && View() == NodeStep(old(View()), RelayIn(room, text, fromSession, sentAt, now))
    {
      BroadcastLocal(room, Chat(text, fromSession, room, sentAt), fromSession, now);
    }

    /** MESSAGE from a client: always ACK, and broadcast a first arrival. */
    method HandleInboundMessage(sid: Sid, conn: Conn, msg: Inbound, now: real)
      requires manager.Valid()
      modifies `wire, `relays, manager, manager.store, manager.sessions.Values
      ensures manager.Valid() && View() == HandleInbound(old(View()), sid, conn, msg, now)
    {
      ReceivedKeepsRoom(View(), sid, conn, msg, now);
      var process := AcknowledgeAndRecord(sid, conn, msg, now);
      if process {
        var room := RoomIdOf(sid);
        BroadcastAdmitted(sid, room, msg, now);
      }
    }

    method AcknowledgeAndRecord(sid: Sid, conn: Conn, msg: Inbound, now: real) returns (process: bool)
      requires manager.Valid()
      modifies `wire, manager, manager.store, manager.sessions.Values
      ensures manager.Valid() && View() == Received(old(View()), sid, conn, msg, now)
      ensures process <==> ShouldProcess(SessionOf(old(View()).manager, sid, "general"), msg.seqNo)
      ensures forall s :: s in manager.sessions.Values ==> s in old(manager.sessions.Values) || fresh(s)
    {
      WriteFrame(sid, conn, AckFrame(msg.seqNo));
      process := manager.ReceiveMessage(sid, msg.seqNo, msg.raw, now);
    }

    method RoomIdOf(sid: Sid) returns (room: Room)
      requires manager.Valid() && sid in View().manager.sessions
      ensures room == View().manager.sessions[sid].room
    {
      room := manager.sessions[sid].roomId;
    }

    method LogAdmitted(sid: Sid, room: Room, msg: Inbound, now: real, payload: Payload, sentAt: real)
      requires manager.Valid() && payload == ChatPayload(View(), sid, room, msg, now) && sentAt == SentAt(msg, now)
      modifies manager.store
      ensures manager.Valid() && View() == Logged(old(View()), sid, room, msg, now)
    {
      manager.store.Put(SaveMessageLog("room:" + room, msg.seqNo, payload, sentAt));
    }

    /** The admitted half: room log, local broadcast, relay. */
    method BroadcastAdmitted(sid: Sid, room: Room, msg: Inbound, now: real)
      requires manager.Valid()
      modifies `wire, `relays, manager, manager.store, manager.sessions.Values
      ensures manager.Valid() && View() == Admitted(old(View()), sid, room, msg, now)
    {
      var name := if sid in usernames then usernames[sid] else sid;
      var sentAt := if msg.sentAt.Some? && msg.sentAt.value != 0.0 then msg.sentAt.value else now;
      LogAndBroadcast(sid, room, msg, now, name, sentAt);
      if meshed {
        relays := relays + [Relay(room, msg.text, name, sentAt)];
      }
    }

    method LogAndBroadcast(sid: Sid, room: Room, msg: Inbound, now: real, name: string, sentAt: real)
      requires manager.Valid() && name == NameOf(View(), sid) && sentAt == SentAt(msg, now)
      modifies `wire, manager, manager.store, manager.sessions.Values
      ensures manager.Valid()
      ensures View() == BroadcastedLocally(Logged(old(View()), sid, room, msg, now), room,
                                           ChatPayload(old(View()), sid, room, msg, now), sid, now)
    {
      var payload := Chat(msg.text, name, room, Some(sentAt));
      LogAdmitted(sid, room, msg, now, payload, sentAt);
      BroadcastLocal(room, payload, sid, now);
    }

    /** Everything in seq order that the client has not acknowledged. */
    method ReplayUnacked(sid: Sid, conn: Conn, session: SessionState)
      modifies `wire
      ensures wire == old(wire) + ReplayFrames(sid, conn, Replay(session.View(), 0))
    {
      var before := wire;
      var msgs := session.ReplayFrom(0);
      var i := 0;
      assert before + ReplayFrames(sid, conn, msgs[..0]) == before;
      while i < |msgs|
        invariant 0 <= i <= |msgs|
        invariant wire == before + ReplayFrames(sid, conn, msgs[..i])
      {
        ReplayOneMore(before, sid, conn, msgs, i);
        WriteFrame(sid, conn, MessageFrame(msgs[i].seqNo, msgs[i].payload));
        i := i + 1;
      }
      assert msgs[..i] == msgs;
    }

    /** get_or_create, then reset_inbound. */
    method OpenSession(sid: Sid, room: Room) returns (session: SessionState)
      requires manager.Valid()
      modifies manager, manager.sessions.Values
      ensures manager.Valid() && sid in manager.sessions && session == manager.sessions[sid]
      ensures session.View() == Reset(SessionOf(old(manager.View()), sid, room))
      ensures manager.View() == With(old(manager.View()), sid, session.View())
    {
      session := manager.GetOrCreate(sid, room);
      ResetOf(session);
      WithTwice(old(manager.View()), sid, SessionOf(old(manager.View()), sid, room), session.View());
    }

    method ResetOf(session: SessionState)
      requires manager.Valid()
      requires session.sessionId in manager.sessions && manager.sessions[session.sessionId] == session
      modifies session
      ensures manager.Valid() && session.View() == Reset(old(session.View()))
      ensures manager.View() == With(old(manager.View()), session.sessionId, session.View())
    {
      session.ResetInbound();
      assert manager.Views() == old(manager.Views())[session.sessionId := session.View()];
    }

    method AdoptFound(sid: Sid, snap: Snapshot)
      requires manager.Valid()
      modifies manager, manager.store
      ensures manager.Valid()
      ensures var was := old(View()); View() == was.(manager := Perform(was.manager, sid, HydrateEffect(sid, snap)))
      ensures forall s :: s in manager.sessions.Values ==> s in old(manager.sessions.Values) || fresh(s)
    {
      var _ := manager.HydrateFromSnapshot(sid, snap);
    }

    /** Asks the mesh for a session the node does not know, and adopts what it finds. */
    method AskMesh(sid: Sid, found: Option<Snapshot>)
      requires manager.Valid()
      modifies manager, manager.store
      ensures manager.Valid() && View() == Asked(old(View()), sid, found)
      ensures forall s :: s in manager.sessions.Values ==> s in old(manager.sessions.Values) || fresh(s)
    {
      if meshed {
        var known := manager.HasLocalRecord(sid);
        if !known && found.Some? {
          AdoptFound(sid, found.value);
        }
      }
    }

    /** The greeting, then the replay. */
    method Greet(sid: Sid, conn: Conn, ack: Frame, session: SessionState, ghost s: Session)
      requires session.View() == s
      modifies `wire
      ensures wire == old(wire) + [Out(sid, conn, ack)] + ReplayFrames(sid, conn, Replay(s, 0))
    {
      WriteFrame(sid, conn, ack);
      ReplayUnacked(sid, conn, session);
    }

    /** The second half of a handshake: the connection takes over, is greeted and replayed to. */
    method Serve(sid: Sid, room: Room, conn: Conn, ack: Frame, session: SessionState, ghost was: Node,
                 ghost login: bool)
      requires manager.Valid() && session.View() == Reset(SessionOf(was.manager, sid, room))
      requires View() == was.(manager := With(was.manager, sid, session.View()))
      requires ack == Greeting(was.manager, sid, room, login)
      modifies `wire, `connections
      ensures manager.Valid() && View() == Connect(was, sid, room, conn, login)
    {
      ghost var s, m := session.View(), manager.View();
      connections := connections[sid := conn];
      Greet(sid, conn, ack, session, s);
      assert manager.View() == m;
      IsConnect(was, View(), sid, room, conn, login);
    }

    /** HELLO: the new connection takes over, inbound tracking restarts, and what is unacknowledged is
        replayed. */
    method HandleHello(sid: Sid, room: Room, conn: Conn, found: Option<Snapshot>)
      requires manager.Valid()
      modifies `wire, `connections, manager, manager.store, manager.sessions.Values
      ensures manager.Valid() && View() == NodeStep(old(View()), Hello(sid, room, conn, found))
    {
      AskMesh(sid, found);
      ConnectHello(sid, room, conn);
    }

    method ConnectHello(sid: Sid, room: Room, conn: Conn)
      requires manager.Valid()
      modifies `wire, `connections, manager, manager.sessions.Values
      ensures manager.Valid() && View() == Connect(old(View()), sid, room, conn, false)
    {
      var session := OpenSession(sid, room);
      var ack := HelloAck(sid, session.roomId, session.lastProcessedSeq);
      Serve(sid, room, conn, ack, session, old(View()), false);
    }

    /** A successful LOGIN: as HELLO, but its acknowledgement precedes the reset of the inbound side. */
    method HandleLogin(sid: Sid, username: string, conn: Conn, found: Option<Snapshot>)
      requires manager.Valid()
      modifies `wire, `connections, `usernames, manager, manager.store, manager.sessions.Values
      ensures manager.Valid() && View() == NodeStep(old(View()), Login(sid, username, conn, found))
    {
      SetUsername(sid, username);
      AskMesh(sid, found);
      ConnectLogin(sid, conn);
    }

    method SetUsername(sid: Sid, username: string)
      requires manager.Valid()
      modifies `usernames
      ensures manager.Valid() && View() == old(View()).(usernames := old(View()).usernames[sid := username])
    {
      usernames := usernames[sid := username];
    }

    method ConnectLogin(sid: Sid, conn: Conn)
      requires manager.Valid()
      modifies `wire, `connections, manager, manager.sessions.Values
      ensures manager.Valid() && View() == Connect(old(View()), sid, "general", conn, true)
    {
      var session, ack := OpenForLogin(sid);
      Serve(sid, "general", conn, ack, session, old(View()), true);
    }

    /** get_or_create, note what to acknowledge, then reset_inbound. */
    method OpenForLogin(sid: Sid) returns (session: SessionState, ack: Frame)
      requires manager.Valid()
      modifies manager, manager.sessions.Values
      ensures manager.Valid() && sid in manager.sessions && session == manager.sessions[sid]
      ensures ack == Greeting(old(manager.View()), sid, "general", true)
      ensures session.View() == Reset(SessionOf(old(manager.View()), sid, "general"))
      ensures manager.View() == With(old(manager.View()), sid, session.View())
    {
      session := manager.GetOrCreate(sid);
      ack := LoginAck(sid, session.roomId, session.lastProcessedSeq);
      ResetOf(session);
      WithTwice(old(manager.View()), sid, SessionOf(old(manager.View()), sid, "general"), session.View());
    }

    /** _cleanup_connection: only the connection still on file is removed. */
    method CleanupConnection(sid: Sid, conn: Conn)
      modifies `connections
      ensures View() == NodeStep(old(View()), Drop(sid, conn))
    {
      if sid in connections && connections[sid] == conn {
        connections := connections - {sid};
      }
    }

    /** A client's ACK frame. */
    method HandleAckFrame(sid: Sid, seqNo: int)
      requires manager.Valid()
      modifies manager, manager.store, manager.sessions.Values
      ensures manager.Valid() && View() == NodeStep(old(View()), AckIn(sid, seqNo))
    {
      manager.HandleAck(sid, seqNo);
    }

    /** already_in_room */
    method IsIn(sid: Sid, room: Room) returns (r: bool)
      requires manager.Valid()
      ensures r == InRoomAlready(View(), sid, room)
    {
      r := sid in manager.sessions && manager.sessions[sid].roomId == room;
    }

    method Move(sid: Sid, room: Room)
      requires manager.Valid()
      modifies manager, manager.store, manager.sessions.Values
      ensures manager.Valid()
      ensures var was := old(View());
        var e := RoomEffect(sid, SessionOf(was.manager, sid, "general"), room);
        View() == was.(manager := Perform(was.manager, sid, e))
    {
      var _ := manager.SetRoom(sid, room);
    }

    /** JOIN_ROOM where capacity allows it: a session already in the room stays as it is. */
    method JoinRoom(sid: Sid, room: Room)
      requires manager.Valid()
      modifies manager, manager.store, manager.sessions.Values
      ensures manager.Valid() && View() == NodeStep(old(View()), Join(sid, room))
    {
      var already := IsIn(sid, room);
      if !already {
        Move(sid, room);
      }
    }
  }
}
