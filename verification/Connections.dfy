/** Which socket a session's frames go to (node/server.py): the registry of connections over whole
    runs of a node. */
module Connections {
  import opened Base
  import opened SessionStates
  import opened NodeBroadcast
  import opened NodeSteps
  import Registry = OwnerRegistry

  function LinkOf(e: NodeEvent): Option<Registry.Event<Sid, Conn>> {
    match e
    case Hello(sid, _, conn, _) => Some(Registry.Open(sid, conn))
    case Login(sid, _, conn, _) => Some(Registry.Open(sid, conn))
    case Drop(sid, conn) => Some(Registry.Close(sid, conn))
    case _ => None
  }

  /** Handshakes and cleanups as links being opened and closed. */
  function Links(es: seq<NodeEvent>): seq<Registry.Event<Sid, Conn>> {
    if es == [] then []
    else Links(es[..|es| - 1]) + if LinkOf(es[|es| - 1]).Some? then [LinkOf(es[|es| - 1]).value] else []
  }

  lemma StepIsRegistryStep(n: Node, e: NodeEvent)
    requires Coherent(n.manager)
    ensures NodeStep(n, e).connections ==
            if LinkOf(e).None? then n.connections else Registry.Step(n.connections, LinkOf(e).value)
  {
    StepLinks(n, e);
  }

  lemma LinksSnoc(init: seq<NodeEvent>, e: NodeEvent)
    ensures Registry.Run(Links(init + [e])) ==
            if LinkOf(e).None? then Registry.Run(Links(init))
            else Registry.Step(Registry.Run(Links(init)), LinkOf(e).value)
  {
    assert (init + [e])[..|init|] == init;
    if LinkOf(e).Some? {
      assert (Links(init) + [LinkOf(e).value])[..|Links(init)|] == Links(init);
    } else {
      assert Links(init + [e]) == Links(init);
    }
  }

  lemma {:induction false} ConnectionsAreARegistry(l: Life, es: seq<NodeEvent>)
    ensures NodeRun(l, es).connections == Registry.Run(Links(es))
  {
    if es != [] {
      var init, e := es[..|es| - 1], es[|es| - 1];
      ConnectionsAreARegistry(l, init);
      RunIsCoherent(l, init);
      StepIsRegistryStep(NodeRun(l, init), e);
      SplitLast(es);
      LinksSnoc(init, e);
    }
  }

  /** In every run a session's frames go to connection `conn` exactly while that is the connection
      of its last handshake and has not been cleaned up: the late cleanup of an evicted connection
      never cuts off the newer one. */
  lemma NewestConnectionIsServed(l: Life, es: seq<NodeEvent>, sid: Sid, conn: Conn)
    ensures sid in NodeRun(l, es).connections && NodeRun(l, es).connections[sid] == conn
       <==> Registry.NewestIsOpen(Links(es), sid, conn)
  {
    ConnectionsAreARegistry(l, es);
    Registry.NewestOwnerLaw(Links(es), sid, conn);
  }
}
