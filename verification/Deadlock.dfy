/**
 Deadlock freedom. When every node of an acyclic run waits through `recv_any`, through `recv` on its only
 input, or through `send`, every reachable state has some unfinished node whose next poll completes.
 */
module Deadlock {
  import opened Types
  import opened Graph
  import opened Topology
  import opened Kahn
  import opened CycleSearch
  import opened Edges
  import opened Wiring
  import opened Network
  import opened NetworkLaws

  /** The operation an unfinished node is suspended in: `recv_any`, `recv` on a port, or `send`. */
  datatype Wait = OnAnyInput | OnInput(port: PortId) | OnOutput(port: PortId)

  /** Whether the next poll of that operation returns instead of suspending again. */
  predicate PollCompletes(run: Run, net: Net, node: NodeId, wait: Wait)
    requires Shape(run, net)
  {
    match wait
    case OnAnyInput => net.cancelled || PollAny(InputPolls(run, net, node)) != AnyPending
    case OnInput(port) => net.cancelled || PollPort(PortEdges(run, net, Input, Endpoint(node, port))) != PortPending
    case OnOutput(port) => net.cancelled || PortOutcome(PortEdges(run, net, Output, Endpoint(node, port))) != Full
  }

  /** A send completes at the poll of `reserve` that does not yield, and a receive at once after a cancellation. */
  lemma CompletesIff(run: Run, net: Net, n: NodeId, port: PortId)
    requires Shape(run, net)
    ensures PollCompletes(run, net, n, OnOutput(port)) <==>
      PollReserve(net.cancelled, PortOutcome(PortEdges(run, net, Output, Endpoint(n, port)))) != ReserveYields
    ensures net.cancelled ==> PollCompletes(run, net, n, OnAnyInput) && PollCompletes(run, net, n, OnInput(port))
  {
  }

  /** Unfinished nodes hold no permit while they wait. */
  ghost predicate Unencumbered(run: Run, net: Net) {
    forall at: Endpoint | Active(run, net, at.node) :: Permits(net, at) == 0
  }

  /** A snapshot between polls: unfinished nodes wait in `recv_any`, in `recv` on their only input, or in `send`. */
  ghost predicate Suspended(run: Run, net: Net, waits: map<NodeId, Wait>) {
    && Unencumbered(run, net)
    && forall n | Active(run, net, n) ::
         n in waits && (waits[n].OnInput? ==> InputsOf(run.w.nodes, n) == [waits[n].port])
  }

  /** The same with every receive in `recv_any`. */
  ghost predicate Merged(run: Run, net: Net, waits: map<NodeId, Wait>) {
    Unencumbered(run, net) && forall n | Active(run, net, n) :: n in waits && !waits[n].OnInput?
  }

  /** On a node with one input, `recv` and `recv_any` complete together. */
  lemma OnlyInput(run: Run, net: Net, n: NodeId, port: PortId)
    requires Shape(run, net) && InputsOf(run.w.nodes, n) == [port]
    ensures PollCompletes(run, net, n, OnInput(port)) <==> PollCompletes(run, net, n, OnAnyInput)
  {
    PollAnyMeaning(InputPolls(run, net, n), 0);
    assert InputPolls(run, net, n) == [PollPort(PortEdges(run, net, Input, Endpoint(n, port)))];
  }

  ghost predicate Ordered(run: Run, order: seq<NodeId>) {
    Valid(run.w) && TopologicalOrder(run.w.nodes, run.w.edges, order)
  }

  lemma PositionOf(run: Run, order: seq<NodeId>, n: NodeId) returns (k: nat)
    requires Ordered(run, order) && Declared(run.w.nodes, n)
    ensures k < |order| && order[k] == n
  {
    assert n in NodeIds(run.w.nodes);
    assert n in Elements(order);
    k :| 0 <= k < |order| && order[k] == n;
  }

  lemma EndsDeclared(w: Workflow, i: nat)
    requires Valid(w) && i < |w.edges|
    ensures Declared(w.nodes, w.edges[i].source.node) && Declared(w.nodes, w.edges[i].target.node)
  {
    assert EdgeDeclared(w.nodes, w.edges[i]);
  }

  /** A blocked sender faces a full edge, hence a queued packet and a live, unfinished receiver. */
  lemma BlockedSender(run: Run, net: Net, at: Endpoint) returns (i: nat)
    requires Inv(run, net) && Permits(net, at) == 0
    requires PortOutcome(PortEdges(run, net, Output, at)) == Full
    ensures i < |net.edges| && run.w.edges[i].source == at
    ensures net.edges[i].queue != [] && run.w.edges[i].target.node !in net.finished
  {
    var es, idx := PortEdges(run, net, Output, at), Incident(run.w.edges, Output, at);
    PortOutcomeIsFirstRefusal(es);
    var k :| 0 <= k < |es| && es[k].ReserveOutcome() == Full;
    IncidentMeaning(run.w.edges, Output, at, |run.w.edges|);
    i := idx[k];
    assert i in idx;
    assert EdgeInvAt(run, net, i);
  }

  /** A queued packet makes the receiver's `recv_any` ready. */
  lemma QueuedWakesReceiver(run: Run, net: Net, i: nat)
    requires Valid(run.w) && Shape(run, net) && i < |net.edges| && net.edges[i].queue != []
    ensures PollAny(InputPolls(run, net, run.w.edges[i].target.node)).AnyReady?
  {
    var at := run.w.edges[i].target;
    var p, k := EdgeIsPolled(run.w, i);
    var es, polls := PortEdges(run, net, Input, at), InputPolls(run, net, at.node);
    PollFromMeaning(es, 0);
    assert es[k] == net.edges[i];
    PollAnyMeaning(polls, 0);
    assert polls[p] == PollPort(es);
  }

  /** A blocked receiver has an edge that is empty but still has an unfinished upstream node. */
  lemma BlockedReceiver(run: Run, net: Net, node: NodeId) returns (i: nat)
    requires Inv(run, net) && PollAny(InputPolls(run, net, node)) == AnyPending
    ensures i < |net.edges| && run.w.edges[i].target.node == node
    ensures run.w.edges[i].source.node !in net.finished
  {
    var polls, ports := InputPolls(run, net, node), InputsOf(run.w.nodes, node);
    PollAnyMeaning(polls, 0);
    var p :| 0 <= p < |polls| && polls[p] != PortClosed;
    var at := Endpoint(node, ports[p]);
    var es, idx := PortEdges(run, net, Input, at), Incident(run.w.edges, Input, at);
    assert polls[p] == PollPort(es) && !polls[p].PortReady?;
    PollFromMeaning(es, 0);
    var k :| 0 <= k < |es| && !es[k].Drained();
    IncidentMeaning(run.w.edges, Input, at, |run.w.edges|);
    i := idx[k];
    assert i in idx;
    assert EdgeInvAt(run, net, i);
  }

  /** Downstream from a blocked sender, some node can go on. */
  lemma {:induction false} FollowDown(run: Run, net: Net, waits: map<NodeId, Wait>, order: seq<NodeId>, k: nat)
    returns (m: NodeId)
    requires Ordered(run, order) && Inv(run, net) && Merged(run, net, waits)
    requires k < |order| && Active(run, net, order[k]) && !waits[order[k]].OnAnyInput?
    ensures Active(run, net, m) && PollCompletes(run, net, m, waits[m])
    decreases |order| - k
  {
    var n := order[k];
    if PollCompletes(run, net, n, waits[n]) {
      m := n;
    } else {
      var i := BlockedSender(run, net, Endpoint(n, waits[n].port));
      EndsDeclared(run.w, i);
      var t := run.w.edges[i].target.node;
      var j := PositionOf(run, order, t);
      assert run.w.edges[i] in run.w.edges;
      if waits[t].OnAnyInput? {
        QueuedWakesReceiver(run, net, i);
        m := t;
      } else {
        m := FollowDown(run, net, waits, order, j);
      }
    }
  }

  /** Upstream from a blocked receiver, some node can go on. */
  lemma {:induction false} FollowUp(run: Run, net: Net, waits: map<NodeId, Wait>, order: seq<NodeId>, k: nat)
    returns (m: NodeId)
    requires Ordered(run, order) && Inv(run, net) && Merged(run, net, waits)
    requires k < |order| && Active(run, net, order[k])
    ensures Active(run, net, m) && PollCompletes(run, net, m, waits[m])
    decreases k
  {
    var n := order[k];
    if PollCompletes(run, net, n, waits[n]) {
      m := n;
    } else if waits[n].OnAnyInput? {
      var i := BlockedReceiver(run, net, n);
      EndsDeclared(run.w, i);
      var j := PositionOf(run, order, run.w.edges[i].source.node);
      assert run.w.edges[i] in run.w.edges;
      m := FollowUp(run, net, waits, order, j);
    } else {
      m := FollowDown(run, net, waits, order, k);
    }
  }

  lemma AcyclicRunIsOrdered(run: Run) returns (order: seq<NodeId>)
    requires Valid(run.w) && !Cyclic(run.w.edges)
    ensures Ordered(run, order)
  {
    var edges := run.w.edges;
    assert DeclaredUpTo(run.w.nodes, edges, |edges|);
    order := AcyclicHasOrder(run.w.nodes, edges, []);
  }

  /** No global deadlock in any reachable state of an acyclic run. */
  lemma NoGlobalDeadlock(run: Run, steps: seq<Step>, waits: map<NodeId, Wait>, n: NodeId)
    requires Valid(run.w) && !Cyclic(run.w.edges)
    requires Suspended(run, Exec(run, steps), waits) && Active(run, Exec(run, steps), n)
    ensures exists m :: Active(run, Exec(run, steps), m) && PollCompletes(run, Exec(run, steps), m, waits[m])
  {
    ReachableInv(run, steps);
    var net := Exec(run, steps);
    var order := AcyclicRunIsOrdered(run);
    var k := PositionOf(run, order, n);
    var merged := map a | a in waits :: if waits[a].OnInput? then OnAnyInput else waits[a];
    var m := FollowUp(run, net, merged, order, k);
    if waits[m].OnInput? {
      OnlyInput(run, net, m, waits[m].port);
    }
  }

  // ---- All three restrictions are needed ------------------------------------------

  /** Every unfinished node is suspended in an operation whose next poll suspends again. */
  ghost predicate Stuck(run: Run, net: Net, waits: map<NodeId, Wait>)
    requires Shape(run, net)
  {
    forall n | Active(run, net, n) :: n in waits && !PollCompletes(run, net, n, waits[n])
  }

  lemma PendingInput(run: Run, net: Net, at: Endpoint, i: nat)
    requires Shape(run, net) && i < |net.edges| && Incident(run.w.edges, Input, at) == [i]
    requires net.edges[i].queue == [] && net.edges[i].senderAlive
    ensures PollPort(PortEdges(run, net, Input, at)) == PortPending
  {
    var es := PortEdges(run, net, Input, at);
    assert es == [net.edges[i]];
    PollFromMeaning(es, 0);
    assert !es[0].Drained();
  }

  lemma PendingNode(run: Run, net: Net, at: Endpoint, i: nat)
    requires Shape(run, net) && i < |net.edges| && Incident(run.w.edges, Input, at) == [i]
    requires net.edges[i].queue == [] && net.edges[i].senderAlive
    requires InputsOf(run.w.nodes, at.node) == [at.port]
    ensures PollAny(InputPolls(run, net, at.node)) == AnyPending
  {
    PendingInput(run, net, at, i);
    assert InputPolls(run, net, at.node) == [PortPending];
    PollAnyMeaning([PortPending], 0);
  }

  lemma FullOutput(run: Run, net: Net, at: Endpoint, i: nat)
    requires Shape(run, net) && i < |net.edges| && Incident(run.w.edges, Output, at) == [i]
    requires net.edges[i].ReserveOutcome() == Full
    ensures PortOutcome(PortEdges(run, net, Output, at)) == Full
  {
    assert PortEdges(run, net, Output, at) == [net.edges[i]];
  }

  lemma OnlyIncident(edges: seq<Edge>, side: Side, at: Endpoint, i: nat)
    requires i < |edges| && End(edges[i], side) == at
    requires forall j | 0 <= j < |edges| && j != i :: End(edges[j], side) != at
    ensures Incident(edges, side, at) == [i]
  {
    OnlyIncidentUpTo(edges, side, at, i, |edges|);
  }

  lemma {:induction false} OnlyIncidentUpTo(edges: seq<Edge>, side: Side, at: Endpoint, i: nat, k: nat)
    requires k <= |edges| && i < |edges| && End(edges[i], side) == at
    requires forall j | 0 <= j < |edges| && j != i :: End(edges[j], side) != at
    ensures IncidentUpTo(edges, side, at, k) == if k <= i then [] else [i]
  {
    if k > 0 {
      OnlyIncidentUpTo(edges, side, at, i, k - 1);
    }
  }

  lemma ExecSnoc(run: Run, steps: seq<Step>, step: Step)
    ensures Exec(run, steps + [step]) == Apply(run, Exec(run, steps), step)
  {
    assert (steps + [step])[..|steps|] == steps;
  }

  lemma ReserveOne(run: Run, at: Endpoint, i: nat)
    requires Declared(run.w.nodes, at.node) && i < |run.w.edges| && Incident(run.w.edges, Output, at) == [i]
    requires run.w.edges[i].source == at
    ensures
      var net, start := Exec(run, [Reserve(at)]), Initial(run);
      && net.edges[i] == start.edges[i].Reserve()
      && (forall j | 0 <= j < |net.edges| && run.w.edges[j].source != at :: net.edges[j] == start.edges[j])
      && net.finished == {} && !net.cancelled && net.permits == map[at := 1]
  {
    var start := Initial(run);
    assert PortEdges(run, start, Output, at) == [start.edges[i]];
    assert start.edges[i].ReserveOutcome() == Granted;
    assert PortOutcome([start.edges[i]]) == Granted;
    ExecSnoc(run, [], Reserve(at));
    assert [] + [Reserve(at)] == [Reserve(at)];
    assert Exec(run, []) == start;
  }

  lemma SendOne(run: Run, at: Endpoint, i: nat, p: Packet)
    requires Declared(run.w.nodes, at.node) && i < |run.w.edges| && Incident(run.w.edges, Output, at) == [i]
    requires run.w.edges[i].source == at && run.contracts.None?
    ensures
      var net, start := Exec(run, [Reserve(at), Commit(at, p)]), Initial(run);
      && net.edges[i] == start.edges[i].Reserve().Commit(p)
      && (forall j | 0 <= j < |net.edges| && run.w.edges[j].source != at :: net.edges[j] == start.edges[j])
      && net.finished == {} && !net.cancelled && Unencumbered(run, net)
  {
    ReserveOne(run, at, i);
    ExecSnoc(run, [Reserve(at)], Commit(at, p));
    assert [Reserve(at)] + [Commit(at, p)] == [Reserve(at), Commit(at, p)];
  }

  /** One node feeds another over an edge of one slot. */
  function Pair(): Workflow {
    Workflow("w",
      [Node("a", [], ["x"]), Node("b", ["p"], [])],
      [Edge(Endpoint("a", "x"), Endpoint("b", "p"), Default)])
  }

  lemma PairIsSound()
    ensures Valid(Pair()) && !Cyclic(Pair().edges)
  {
    var w := Pair();
    assert w.nodes[0] in w.nodes && w.nodes[1] in w.nodes;
    OneWayIsAcyclic(w.edges);
  }

  /** A node that keeps a permit while it waits can block itself on a one-slot edge. */
  lemma HeldPermitDeadlocks(execution: Execution)
    ensures
      var run := Run(Pair(), execution, None);
      && Valid(run.w) && !Cyclic(run.w.edges)
      && Stuck(run, Exec(run, [Reserve(Endpoint("a", "x"))]), map["a" := OnOutput("x"), "b" := OnAnyInput])
  {
    PairIsSound();
    HeldPermitBlocks(Run(Pair(), execution, None));
  }

  lemma HeldPermitBlocks(run: Run)
    requires run.w == Pair()
    ensures Stuck(run, Exec(run, [Reserve(Endpoint("a", "x"))]), map["a" := OnOutput("x"), "b" := OnAnyInput])
  {
    var from, to := Endpoint("a", "x"), Endpoint("b", "p");
    assert run.w.nodes[0] in run.w.nodes;
    OnlyIncident(run.w.edges, Output, from, 0);
    OnlyIncident(run.w.edges, Input, to, 0);
    ReserveOne(run, from, 0);
    var net := Exec(run, [Reserve(from)]);
    FullOutput(run, net, from, 0);
    assert InputsOf(run.w.nodes, "b") == ["p"];
    PendingNode(run, net, to, 0);
  }

  /** Two nodes that feed each other wait for each other from the start. */
  lemma CycleDeadlocks(execution: Execution)
    ensures
      var a, b := Node("a", ["p"], ["x"]), Node("b", ["q"], ["y"]);
      var edges := [
        Edge(Endpoint("a", "x"), Endpoint("b", "q"), Default),
        Edge(Endpoint("b", "y"), Endpoint("a", "p"), Default)];
      var run := Run(Workflow("w", [a, b], edges), execution, None);
      var waits := map["a" := OnAnyInput, "b" := OnAnyInput];
      Valid(run.w) && Suspended(run, Initial(run), waits) && Stuck(run, Initial(run), waits)
  {
    var a, b := Node("a", ["p"], ["x"]), Node("b", ["q"], ["y"]);
    var edges := [
      Edge(Endpoint("a", "x"), Endpoint("b", "q"), Default),
      Edge(Endpoint("b", "y"), Endpoint("a", "p"), Default)];
    var run := Run(Workflow("w", [a, b], edges), execution, None);
    assert a in run.w.nodes && b in run.w.nodes;
    OnlyIncident(edges, Input, Endpoint("b", "q"), 0);
    OnlyIncident(edges, Input, Endpoint("a", "p"), 1);
    assert InputsOf([a, b], "a") == ["p"] && InputsOf([a, b], "b") == ["q"];
    PendingNode(run, Initial(run), Endpoint("b", "q"), 0);
    PendingNode(run, Initial(run), Endpoint("a", "p"), 1);
  }

  /** `a` feeds `b` directly and through `c`; every edge holds one packet. */
  function Diamond(): Workflow {
    Workflow("w",
      [Node("a", [], ["x", "y"]), Node("b", ["p", "q"], []), Node("c", ["i"], ["o"])],
      [Edge(Endpoint("a", "x"), Endpoint("b", "p"), Default),
       Edge(Endpoint("a", "y"), Endpoint("c", "i"), Default),
       Edge(Endpoint("c", "o"), Endpoint("b", "q"), Default)])
  }

  lemma DiamondPorts()
    ensures
      var w := Diamond();
      && Incident(w.edges, Output, Endpoint("a", "x")) == [0]
      && Incident(w.edges, Input, Endpoint("c", "i")) == [1]
      && Incident(w.edges, Input, Endpoint("b", "q")) == [2]
      && Declared(w.nodes, "a") && InputsOf(w.nodes, "c") == ["i"]
  {
    var w := Diamond();
    OnlyIncident(w.edges, Output, Endpoint("a", "x"), 0);
    OnlyIncident(w.edges, Input, Endpoint("c", "i"), 1);
    OnlyIncident(w.edges, Input, Endpoint("b", "q"), 2);
    assert w.nodes[0] in w.nodes;
  }

  lemma OnlyThree(n: NodeId)
    requires Declared(Diamond().nodes, n)
    ensures n == "a" || n == "b" || n == "c"
  {
  }

  lemma DiamondIsValid()
    ensures Valid(Diamond())
  {
    var w := Diamond();
    assert w.nodes[0] in w.nodes && w.nodes[1] in w.nodes && w.nodes[2] in w.nodes;
  }

  lemma DiamondIsAcyclic()
    ensures !Cyclic(Diamond().edges)
  {
    DiamondIsValid();
    var w, order := Diamond(), ["a", "c", "b"];
    forall j | 0 <= j < |order| ensures Predecessors(w.edges, order[j]) <= Elements(order[..j]) {
      forall e | e in w.edges && e.target.node == order[j] ensures e.source.node in order[..j] {
        DiamondEdge(e);
        assert j > 0 ==> order[..j][0] == "a";
        assert j == 2 ==> order[..j][1] == "c";
      }
    }
    assert Elements(order) == NodeIds(w.nodes) by {
      assert w.nodes[0] in w.nodes && w.nodes[1] in w.nodes && w.nodes[2] in w.nodes;
      assert order[0] in order && order[1] in order && order[2] in order;
    }
    GroundedIsAcyclic(w.nodes, w.edges, order);
  }

  lemma DiamondEdge(e: Edge)
    requires e in Diamond().edges
    ensures (e.source.node, e.target.node) in {("a", "b"), ("a", "c"), ("c", "b")}
  {
  }

  /** Waiting on one named port of several instead of `recv_any` deadlocks an acyclic graph. */
  lemma PortwiseReceiveDeadlocks(execution: Execution, p: Packet)
    ensures
      var run := Run(Diamond(), execution, None);
      var at := Endpoint("a", "x");
      var net := Exec(run, [Reserve(at), Commit(at, p)]);
      && Valid(run.w) && !Cyclic(run.w.edges) && Unencumbered(run, net)
      && Stuck(run, net, map["a" := OnOutput("x"), "b" := OnInput("q"), "c" := OnAnyInput])
  {
    var run := Run(Diamond(), execution, None);
    DiamondIsValid();
    DiamondIsAcyclic();
    DiamondPorts();
    SendOne(run, Endpoint("a", "x"), 0, p);
    DiamondBlocks(run, Exec(run, [Reserve(Endpoint("a", "x")), Commit(Endpoint("a", "x"), p)]));
  }

  lemma DiamondBlocks(run: Run, net: Net)
    requires run.w == Diamond() && Shape(run, net) && !net.cancelled
    requires net.edges[0].ReserveOutcome() == Full
    requires net.edges[1].queue == [] && net.edges[1].senderAlive
    requires net.edges[2].queue == [] && net.edges[2].senderAlive
    ensures Stuck(run, net, map["a" := OnOutput("x"), "b" := OnInput("q"), "c" := OnAnyInput])
  {
    DiamondPorts();
    FullOutput(run, net, Endpoint("a", "x"), 0);
    PendingInput(run, net, Endpoint("b", "q"), 2);
    PendingNode(run, net, Endpoint("c", "i"), 1);
    forall n | Active(run, net, n) ensures n == "a" || n == "b" || n == "c" {
      OnlyThree(n);
    }
  }
}
