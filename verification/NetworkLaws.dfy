/** What every reachable state of a run guarantees to its users. */
module NetworkLaws {
  import opened Types
  import opened Graph
  import opened Edges
  import opened Validation
  import opened Wiring
  import opened Network

  /**
   Fan-out is atomic: two edges of one output port whose receivers live have carried the same packets,
   a dead one a prefix of them; no edge exceeds its bound; a port without permits holds no slot.
   */
  lemma FanOutAgrees(run: Run, steps: seq<Step>, i: nat, j: nat)
    requires i < |run.w.edges| && j < |run.w.edges| && run.w.edges[i].source == run.w.edges[j].source
    ensures
      var net := Exec(run, steps);
      var e, f := net.edges[i], net.edges[j];
      && |e.queue| + e.reserved <= e.capacity
      && (e.receiverAlive && f.receiverAlive ==> e.committed == f.committed)
      && (e.receiverAlive ==> f.committed <= e.committed)
      && e.reserved == f.reserved == Permits(net, run.w.edges[i].source)
  {
    ReachableInv(run, steps);
    assert EdgeInvAt(run, Exec(run, steps), i) && EdgeInvAt(run, Exec(run, steps), j);
  }

  /** Conservation: what a live edge delivered, then what it still queues, is what its port sent. */
  lemma EdgeConservation(run: Run, steps: seq<Step>, i: nat)
    requires i < |run.w.edges|
    ensures
      var net := Exec(run, steps);
      var e := net.edges[i];
      && e.received + e.queue == e.committed
      && (e.receiverAlive ==> e.committed == Sent(net, run.w.edges[i].source))
  {
    ReachableInv(run, steps);
    assert EdgeInvAt(run, Exec(run, steps), i);
  }

  // ---- A closed input is a complete input -----------------------------------------

  lemma {:induction false} InputsOfDeclared(nodes: seq<Node>, n: Node)
    requires UniqueIds(nodes) && n in nodes
    ensures InputsOf(nodes, n.id) == n.inputs
  {
    if nodes[0] != n {
      assert n in nodes[1..];
      assert nodes[0].id != n.id by {
        var k :| 0 <= k < |nodes| && nodes[k] == n;
      }
      InputsOfDeclared(nodes[1..], n);
    }
  }

  /** Every edge into a node sits at some position of some declared input port of that node. */
  lemma EdgeIsPolled(w: Workflow, i: nat) returns (p: nat, k: nat)
    requires Valid(w) && i < |w.edges|
    ensures
      var at := w.edges[i].target;
      var ports := InputsOf(w.nodes, at.node);
      && p < |ports| && ports[p] == at.port
      && k < |Incident(w.edges, Input, at)| && Incident(w.edges, Input, at)[k] == i
  {
    var at := w.edges[i].target;
    assert EdgeDeclared(w.nodes, w.edges[i]);
    var n :| n in w.nodes && n.id == at.node && at.port in n.inputs;
    InputsOfDeclared(w.nodes, n);
    p :| 0 <= p < |n.inputs| && n.inputs[p] == at.port;
    IncidentMeaning(w.edges, Input, at, |w.edges|);
    assert i in Incident(w.edges, Input, at);
    k :| 0 <= k < |Incident(w.edges, Input, at)| && Incident(w.edges, Input, at)[k] == i;
  }

  lemma ClosedPollDrainsEdge(run: Run, net: Net, i: nat)
    requires Valid(run.w) && Shape(run, net) && i < |net.edges|
    requires PollAny(InputPolls(run, net, run.w.edges[i].target.node)) == AllClosed
    ensures net.edges[i].Drained()
  {
    var at := run.w.edges[i].target;
    var p, k := EdgeIsPolled(run.w, i);
    var polls := InputPolls(run, net, at.node);
    PollAnyMeaning(polls, 0);
    assert polls[p] == PollPort(PortEdges(run, net, Input, at));
    PollFromMeaning(PortEdges(run, net, Input, at), 0);
    assert PortEdges(run, net, Input, at)[k] == net.edges[i];
  }

  /**
   When `recv_any` reports the end of input to an unfinished node, every upstream node is finished
   and the node has received everything ever sent to each of its edges.
   */
  lemma ClosedMeansComplete(run: Run, steps: seq<Step>, i: nat)
    requires Valid(run.w) && i < |run.w.edges|
    requires run.w.edges[i].target.node !in Exec(run, steps).finished
    requires PollAny(InputPolls(run, Exec(run, steps), run.w.edges[i].target.node)) == AllClosed
    ensures
      var net := Exec(run, steps);
      && run.w.edges[i].source.node in net.finished
      && net.edges[i].received == Sent(net, run.w.edges[i].source)
  {
    var net := Exec(run, steps);
    ReachableInv(run, steps);
    ClosedPollDrainsEdge(run, net, i);
    assert EdgeInvAt(run, net, i);
    assert net.edges[i].received + [] == net.edges[i].received;
  }

  /** A receive takes the head of the lowest-indexed non-empty edge of the first port that has one. */
  lemma ReceiveTakesFirst(run: Run, net: Net, at: Endpoint, k: nat)
    requires Shape(run, net) && PollPort(PortEdges(run, net, Input, at)) == PortReady(k)
    ensures
      var i := Incident(run.w.edges, Input, at)[k];
      && net.edges[i].queue != []
      && DoReceive(run, net, at).edges[i].received == net.edges[i].received + [net.edges[i].queue[0]]
      && (forall j | 0 <= j < |net.edges| && j != i :: DoReceive(run, net, at).edges[j] == net.edges[j])
      && (forall j | 0 <= j < i && run.w.edges[j].target == at :: net.edges[j].queue == [])
  {
    var idx := Incident(run.w.edges, Input, at);
    PollFromMeaning(PortEdges(run, net, Input, at), 0);
    IncidentMeaning(run.w.edges, Input, at, |run.w.edges|);
    forall j | 0 <= j < idx[k] && run.w.edges[j].target == at ensures net.edges[j].queue == [] {
      assert j in idx;
      var l :| 0 <= l < |idx| && idx[l] == j;
      assert l < k;
      assert PortEdges(run, net, Input, at)[l] == net.edges[j];
    }
  }

  // ---- Provenance -----------------------------------------------------------------

  ghost predicate Genuine(run: Run, net: Net) {
    && Shape(run, net)
    && forall i, k | 0 <= i < |net.edges| && 0 <= k < |net.edges[i].committed| ::
         Provenance(run.w.id, run.execution, run.w.edges[i].source, net.edges[i].committed[k])
  }

  lemma StepKeepsGenuine(run: Run, net: Net, step: Step)
    requires run.contracts.Some? && Genuine(run, net)
    ensures Genuine(run, Apply(run, net, step))
  {
    var net' := Apply(run, net, step);
    forall i, k | 0 <= i < |net'.edges| && 0 <= k < |net'.edges[i].committed|
      ensures Provenance(run.w.id, run.execution, run.w.edges[i].source, net'.edges[i].committed[k])
    {
      assert k < |net.edges[i].committed| ==> net'.edges[i].committed[k] == net.edges[i].committed[k];
    }
  }

  lemma {:induction false} ExecKeepsGenuine(run: Run, steps: seq<Step>)
    requires run.contracts.Some?
    ensures Genuine(run, Exec(run, steps))
  {
    if steps != [] {
      ExecKeepsGenuine(run, steps[..|steps| - 1]);
      StepKeepsGenuine(run, Exec(run, steps[..|steps| - 1]), steps[|steps| - 1]);
    }
  }

  /** In a contract-checked run every packet queued or received names the run and its edge's true source. */
  lemma ProvenanceIntegrity(run: Run, steps: seq<Step>, i: nat, p: Packet)
    requires run.contracts.Some? && i < |run.w.edges|
    requires p in Exec(run, steps).edges[i].queue || p in Exec(run, steps).edges[i].received
    ensures Provenance(run.w.id, run.execution, run.w.edges[i].source, p)
  {
    ReachableInv(run, steps);
    ExecKeepsGenuine(run, steps);
    var e := Exec(run, steps).edges[i];
    assert EdgeInvAt(run, Exec(run, steps), i);
    assert p in e.received + e.queue;
    var k :| 0 <= k < |e.committed| && e.committed[k] == p;
  }

  // ---- A disconnected port quiesces -----------------------------------------------

  lemma DisconnectedRefuses(run: Run, net: Net, i: nat)
    requires Shape(run, net) && i < |net.edges| && !net.edges[i].receiverAlive
    ensures PortOutcome(PortEdges(run, net, Output, run.w.edges[i].source)) != Granted
  {
    var at := run.w.edges[i].source;
    if PortOutcome(PortEdges(run, net, Output, at)) == Granted {
      GrantedEdges(run, net, at, i);
    }
  }

  ghost predicate Shrinks(net: Net, net': Net, at: Endpoint) {
    |Sent(net', at)| + Permits(net', at) <= |Sent(net, at)| + Permits(net, at)
  }

  lemma ReceiverStaysDead(run: Run, net: Net, step: Step, i: nat)
    requires Shape(run, net) && i < |net.edges| && !net.edges[i].receiverAlive
    ensures !Apply(run, net, step).edges[i].receiverAlive
  {
  }

  lemma StepShrinks(run: Run, net: Net, step: Step, i: nat)
    requires Shape(run, net) && i < |net.edges| && !net.edges[i].receiverAlive
    ensures Shrinks(net, Apply(run, net, step), run.w.edges[i].source)
  {
    var at := run.w.edges[i].source;
    DisconnectedRefuses(run, net, i);
    match step
    case Reserve(b) =>
    case Commit(b, p) =>
    case Abort(b) =>
    case _ =>
      assert Sent(Apply(run, net, step), at) == Sent(net, at);
      assert Permits(Apply(run, net, step), at) <= Permits(net, at);
  }

  /** Once one receiver of a port is gone, only permits already granted can still be sent through it. */
  lemma {:induction false} DisconnectedPortQuiesces(run: Run, net: Net, steps: seq<Step>, i: nat)
    requires Shape(run, net) && i < |net.edges| && !net.edges[i].receiverAlive
    ensures !ExecFrom(run, net, steps).edges[i].receiverAlive
    ensures Shrinks(net, ExecFrom(run, net, steps), run.w.edges[i].source)
  {
    if steps != [] {
      var init, last := steps[..|steps| - 1], steps[|steps| - 1];
      DisconnectedPortQuiesces(run, net, init, i);
      ReceiverStaysDead(run, ExecFrom(run, net, init), last, i);
      StepShrinks(run, ExecFrom(run, net, init), last, i);
    }
  }
}
