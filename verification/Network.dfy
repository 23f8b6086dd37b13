/**
 A running workflow as a state machine: every interleaving of reservations, commits, aborts,
 receives and node completions over the wired edges. Executors are arbitrary: any node may take
 any step at any time.
 */
module Network {
  import opened Types
  import opened Graph
  import opened Edges
  import opened Validation
  import opened Wiring

  /** One run; `contracts` lists the contracted output ports per node when the run is contract-checked. */
  datatype Run = Run(w: Workflow, execution: Execution, contracts: Option<map<NodeId, set<PortId>>>)

  datatype Net = Net(
    edges: seq<EdgeState>,
    sent: map<Endpoint, seq<Packet>>,
    permits: map<Endpoint, nat>,
    finished: set<NodeId>,
    cancelled: bool)

  datatype Step =
    | Reserve(at: Endpoint)
    | Commit(at: Endpoint, packet: Packet)
    | Abort(at: Endpoint)
    | Receive(at: Endpoint)
    | ReceiveAny(node: NodeId)
    | Finish(node: NodeId)
    | Cancel

  predicate Shape(run: Run, net: Net) {
    |net.edges| == |run.w.edges|
  }

  /** Packets committed through an output port so far. */
  function Sent(net: Net, at: Endpoint): seq<Packet> {
    if at in net.sent then net.sent[at] else []
  }

  /** Permits outstanding on an output port. */
  function Permits(net: Net, at: Endpoint): nat {
    if at in net.permits then net.permits[at] else 0
  }

  function ValidatorFor(run: Run, node: NodeId): Option<Validator> {
    match run.contracts
    case None => None
    case Some(ports) =>
      Some(Validator(run.w.id, node, run.execution, if node in ports then ports[node] else {}))
  }

  predicate Accepted(run: Run, at: Endpoint, p: Packet) {
    match ValidatorFor(run, at.node)
    case None => true
    case Some(v) => Validate(v, at.port, p).None?
  }

  function InputsOf(nodes: seq<Node>, id: NodeId): seq<PortId> {
    if nodes == [] then [] else if nodes[0].id == id then nodes[0].inputs else InputsOf(nodes[1..], id)
  }

  function OutputsOf(nodes: seq<Node>, id: NodeId): seq<PortId> {
    if nodes == [] then [] else if nodes[0].id == id then nodes[0].outputs else OutputsOf(nodes[1..], id)
  }

  predicate Active(run: Run, net: Net, node: NodeId) {
    Declared(run.w.nodes, node) && node !in net.finished
  }

  // ---- Steps ----------------------------------------------------------------------

  function Initial(run: Run): (net: Net)
    ensures Shape(run, net)
  {
    Net(seq(|run.w.edges|, i requires 0 <= i < |run.w.edges| =>
          Fresh(run.w.edges[i].capacity.Resolve(DEFAULT_EDGE_CAPACITY))),
        map[], map[], {}, false)
  }

  datatype Effect = Take | GiveBack | Put(packet: Packet)

  function Affect(e: EdgeState, effect: Effect): EdgeState {
    match effect
    case Take => e.Reserve()
    case GiveBack => e.Release()
    case Put(p) => e.Commit(p)
  }

  /** Apply an effect to every edge of one output port. */
  function FanOut(run: Run, net: Net, at: Endpoint, effect: Effect): (es: seq<EdgeState>)
    requires Shape(run, net)
    ensures |es| == |net.edges|
  {
    seq(|net.edges|, i requires 0 <= i < |net.edges| =>
      if run.w.edges[i].source == at then Affect(net.edges[i], effect) else net.edges[i])
  }

  /** The edges of one port, as its handle sees them. */
  function PortEdges(run: Run, net: Net, side: Side, at: Endpoint): seq<EdgeState>
    requires Shape(run, net)
  {
    Pick(net.edges, Incident(run.w.edges, side, at))
  }

  function DoReserve(run: Run, net: Net, at: Endpoint): (r: Net)
    requires Shape(run, net)
    ensures Shape(run, r)
  {
    if PortOutcome(PortEdges(run, net, Output, at)) != Granted then net
    else net.(edges := FanOut(run, net, at, Take), permits := net.permits[at := Permits(net, at) + 1])
  }

  function DoAbort(run: Run, net: Net, at: Endpoint): (r: Net)
    requires Shape(run, net)
    ensures Shape(run, r)
  {
    if Permits(net, at) == 0 then net
    else net.(edges := FanOut(run, net, at, GiveBack), permits := net.permits[at := Permits(net, at) - 1])
  }

  function DoCommit(run: Run, net: Net, at: Endpoint, p: Packet): (r: Net)
    requires Shape(run, net)
    ensures Shape(run, r)
  {
    if Permits(net, at) == 0 then net
    else if !Accepted(run, at, p) then DoAbort(run, net, at)
    else net.(
      edges := FanOut(run, net, at, Put(p)),
      sent := net.sent[at := Sent(net, at) + [p]],
      permits := net.permits[at := Permits(net, at) - 1])
  }

  function DoReceive(run: Run, net: Net, at: Endpoint): (r: Net)
    requires Shape(run, net)
    ensures Shape(run, r)
  {
    match PollPort(PortEdges(run, net, Input, at))
    case PortReady(k) =>
      var i := Incident(run.w.edges, Input, at)[k];
      net.(edges := net.edges[i := net.edges[i].Receive()])
    case _ => net
  }

  function InputPolls(run: Run, net: Net, node: NodeId): (ps: seq<PortPoll>)
    requires Shape(run, net)
    ensures |ps| == |InputsOf(run.w.nodes, node)|
  {
    var ports := InputsOf(run.w.nodes, node);
    seq(|ports|, j requires 0 <= j < |ports| => PollPort(PortEdges(run, net, Input, Endpoint(node, ports[j]))))
  }

  function DoReceiveAny(run: Run, net: Net, node: NodeId): (r: Net)
    requires Shape(run, net)
    ensures Shape(run, r)
  {
    match PollAny(InputPolls(run, net, node))
    case AnyReady(port, _) => DoReceive(run, net, Endpoint(node, InputsOf(run.w.nodes, node)[port]))
    case _ => net
  }

  /** The edge after one of its nodes finished: held permits, senders and receivers are dropped. */
  function Detach(run: Run, net: Net, node: NodeId, i: nat): EdgeState
    requires Shape(run, net) && i < |net.edges|
  {
    var e, at := net.edges[i], run.w.edges[i];
    var e' := if at.source.node == node then e.DropSender(Permits(net, at.source)) else e;
    if at.target.node == node then e'.DropReceiver() else e'
  }

  function DoFinish(run: Run, net: Net, node: NodeId): (r: Net)
    requires Shape(run, net)
    ensures Shape(run, r)
  {
    net.(
      edges := seq(|net.edges|, i requires 0 <= i < |net.edges| => Detach(run, net, node, i)),
      permits := map at | at in net.permits && at.node != node :: net.permits[at],
      finished := net.finished + {node})
  }

  function Apply(run: Run, net: Net, step: Step): (r: Net)
    requires Shape(run, net)
    ensures Shape(run, r)
  {
    match step
    case Reserve(at) => if Active(run, net, at.node) then DoReserve(run, net, at) else net
    case Commit(at, p) => if Active(run, net, at.node) then DoCommit(run, net, at, p) else net
    case Abort(at) => if Active(run, net, at.node) then DoAbort(run, net, at) else net
    case Receive(at) => if Active(run, net, at.node) then DoReceive(run, net, at) else net
    case ReceiveAny(node) => if Active(run, net, node) then DoReceiveAny(run, net, node) else net
    case Finish(node) => if Active(run, net, node) then DoFinish(run, net, node) else net
    case Cancel => net.(cancelled := true)
  }

  function ExecFrom(run: Run, net: Net, steps: seq<Step>): (r: Net)
    requires Shape(run, net)
    ensures Shape(run, r)
  {
    if steps == [] then net else Apply(run, ExecFrom(run, net, steps[..|steps| - 1]), steps[|steps| - 1])
  }

  /** The state after any sequence of steps of any nodes. */
  function Exec(run: Run, steps: seq<Step>): (r: Net)
    ensures Shape(run, r)
  {
    ExecFrom(run, Initial(run), steps)
  }

  // ---- The invariant --------------------------------------------------------------

  /**
   What every reachable state says of one edge: its bound, its conservation law, its share of its
   port's history, that each reserved slot belongs to an outstanding permit, and whose ends are alive.
   */
  predicate EdgeInv(e: EdgeState, capacity: nat, sent: seq<Packet>, permits: nat, sourceDone: bool, targetDone: bool) {
    && e.capacity == capacity
    && e.Sound()
    && e.committed <= sent
    && (e.receiverAlive ==> e.committed == sent)
    && e.reserved == permits
    && e.senderAlive == !sourceDone
    && e.receiverAlive == !targetDone
  }

  ghost predicate EdgeInvAt(run: Run, net: Net, i: nat)
    requires Shape(run, net) && i < |net.edges|
  {
    var at := run.w.edges[i];
    EdgeInv(net.edges[i], at.capacity.Resolve(DEFAULT_EDGE_CAPACITY),
            Sent(net, at.source), Permits(net, at.source),
            at.source.node in net.finished, at.target.node in net.finished)
  }

  ghost predicate Inv(run: Run, net: Net) {
    && Shape(run, net)
    && (forall i | 0 <= i < |net.edges| :: EdgeInvAt(run, net, i))
    && (forall at | at in net.permits && at.node in net.finished :: net.permits[at] == 0)
  }

  lemma GrantedEdges(run: Run, net: Net, at: Endpoint, i: nat)
    requires Shape(run, net) && i < |net.edges| && run.w.edges[i].source == at
    requires PortOutcome(PortEdges(run, net, Output, at)) == Granted
    ensures net.edges[i].ReserveOutcome() == Granted
  {
    IncidentMeaning(run.w.edges, Output, at, |run.w.edges|);
    var idx := Incident(run.w.edges, Output, at);
    assert i in idx;
    var j :| 0 <= j < |idx| && idx[j] == i;
    PortOutcomeIsFirstRefusal(PortEdges(run, net, Output, at));
    assert PortEdges(run, net, Output, at)[j] == net.edges[i];
  }

  lemma ReserveKeepsInv(run: Run, net: Net, at: Endpoint)
    requires Inv(run, net) && at.node !in net.finished
    ensures Inv(run, DoReserve(run, net, at))
  {
    var net' := DoReserve(run, net, at);
    if net' != net {
      forall i | 0 <= i < |net'.edges| ensures EdgeInvAt(run, net', i) {
        assert EdgeInvAt(run, net, i);
        if run.w.edges[i].source == at {
          GrantedEdges(run, net, at, i);
        }
      }
    }
  }

  lemma AbortKeepsInv(run: Run, net: Net, at: Endpoint)
    requires Inv(run, net) && at.node !in net.finished
    ensures Inv(run, DoAbort(run, net, at))
  {
    var net' := DoAbort(run, net, at);
    if net' != net {
      forall i | 0 <= i < |net'.edges| ensures EdgeInvAt(run, net', i) {
        assert EdgeInvAt(run, net, i);
      }
    }
  }

  lemma CommitKeepsEdge(
    e: EdgeState, capacity: nat, sent: seq<Packet>, permits: nat, sourceDone: bool, targetDone: bool, p: Packet)
    requires EdgeInv(e, capacity, sent, permits, sourceDone, targetDone) && permits > 0
    ensures EdgeInv(e.Commit(p), capacity, sent + [p], permits - 1, sourceDone, targetDone)
  {
    StepsKeepSound(e, p);
  }

  lemma CommitKeepsInv(run: Run, net: Net, at: Endpoint, p: Packet)
    requires Inv(run, net) && at.node !in net.finished
    ensures Inv(run, DoCommit(run, net, at, p))
  {
    AbortKeepsInv(run, net, at);
    var net' := DoCommit(run, net, at, p);
    if Permits(net, at) > 0 && Accepted(run, at, p) {
      forall i | 0 <= i < |net'.edges| ensures EdgeInvAt(run, net', i) {
        assert EdgeInvAt(run, net, i);
        var d := run.w.edges[i];
        if d.source == at {
          CommitKeepsEdge(net.edges[i], d.capacity.Resolve(DEFAULT_EDGE_CAPACITY), Sent(net, at), Permits(net, at),
                          at.node in net.finished, d.target.node in net.finished, p);
        }
      }
    }
  }

  lemma ReceiveKeepsInv(run: Run, net: Net, at: Endpoint)
    requires Inv(run, net)
    ensures Inv(run, DoReceive(run, net, at))
  {
    var net' := DoReceive(run, net, at);
    forall i | 0 <= i < |net'.edges| ensures EdgeInvAt(run, net', i) {
      assert EdgeInvAt(run, net, i);
      if net.edges[i].queue != [] {
        StepsKeepSound(net.edges[i], net.edges[i].queue[0]);
      }
    }
  }

  lemma FinishKeepsInv(run: Run, net: Net, node: NodeId)
    requires Inv(run, net)
    ensures Inv(run, DoFinish(run, net, node))
  {
    var net' := DoFinish(run, net, node);
    forall i | 0 <= i < |net'.edges| ensures EdgeInvAt(run, net', i) {
      assert EdgeInvAt(run, net, i);
    }
  }

  lemma StepKeepsInv(run: Run, net: Net, step: Step)
    requires Inv(run, net)
    ensures Inv(run, Apply(run, net, step))
  {
    match step
    case Reserve(at) => if Active(run, net, at.node) { ReserveKeepsInv(run, net, at); }
    case Commit(at, p) => if Active(run, net, at.node) { CommitKeepsInv(run, net, at, p); }
    case Abort(at) => if Active(run, net, at.node) { AbortKeepsInv(run, net, at); }
    case Receive(at) => ReceiveKeepsInv(run, net, at);
    case ReceiveAny(node) =>
      var poll := PollAny(InputPolls(run, net, node));
      if poll.AnyReady? {
        ReceiveKeepsInv(run, net, Endpoint(node, InputsOf(run.w.nodes, node)[poll.port]));
      }
    case Finish(node) => FinishKeepsInv(run, net, node);
    case Cancel =>
      forall i | 0 <= i < |net.edges| ensures EdgeInvAt(run, net.(cancelled := true), i) {
        assert EdgeInvAt(run, net, i);
      }
  }

  lemma {:induction false} ExecKeepsInv(run: Run, net: Net, steps: seq<Step>)
    requires Inv(run, net)
    ensures Inv(run, ExecFrom(run, net, steps))
  {
    if steps != [] {
      ExecKeepsInv(run, net, steps[..|steps| - 1]);
      StepKeepsInv(run, ExecFrom(run, net, steps[..|steps| - 1]), steps[|steps| - 1]);
    }
  }

  /** Safety of every interleaving. */
  lemma ReachableInv(run: Run, steps: seq<Step>)
    ensures Inv(run, Exec(run, steps))
  {
    assert Inv(run, Initial(run)) by {
      forall i | 0 <= i < |run.w.edges| ensures EdgeInvAt(run, Initial(run), i) {}
    }
    ExecKeepsInv(run, Initial(run), steps);
  }
}
