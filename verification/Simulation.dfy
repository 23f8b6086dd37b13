/** Whole runs on real channels: wiring a workflow and taking any steps in place follows the state machine. */
module Simulation {
  import opened Types
  import opened Graph
  import opened Kahn
  import opened Edges
  import opened Ports
  import opened Wiring
  import opened Refinement
  import opened NetworkLaws
  import Network

  // ---- The start ------------------------------------------------------------------

  /** Freshly wired channels hold the initial state of a run. */
  lemma WiredHolds(run: Network.Run, channels: seq<Channel>)
    requires |channels| == |run.w.edges| && Distinct(channels)
    requires forall i | 0 <= i < |channels| ::
      channels[i].View() == Fresh(run.w.edges[i].capacity.Resolve(DEFAULT_EDGE_CAPACITY))
    ensures Holds(run, Network.Initial(run), channels)
  {
  }

  /** The handles of every node, as the wiring hands them out. */
  datatype Wires = Wires(ins: seq<seq<Handle>>, outs: seq<seq<Handle>>)

  ghost predicate Wired(run: Network.Run, channels: seq<Channel>, wires: Wires) {
    && |channels| == |run.w.edges| && |wires.ins| == |wires.outs| == |run.w.nodes|
    && forall n | 0 <= n < |run.w.nodes| :: NodeWired(run.w, channels, n, wires.ins[n], wires.outs[n])
  }

  /** The handles given to a node. */
  function Given(nodes: seq<Node>, handles: seq<seq<Handle>>, id: NodeId): seq<Handle>
    requires |nodes| == |handles|
  {
    if nodes == [] then [] else if nodes[0].id == id then handles[0] else Given(nodes[1..], handles[1..], id)
  }

  function ForPort(hs: seq<Handle>, port: PortId): Handle {
    if hs == [] then Handle(port, []) else if hs[0].port == port then hs[0] else ForPort(hs[1..], port)
  }

  lemma WiredHandles(run: Network.Run, channels: seq<Channel>, n: nat, ins: seq<Handle>, outs: seq<Handle>)
    requires |channels| == |run.w.edges| && n < |run.w.nodes| && NodeWired(run.w, channels, n, ins, outs)
    ensures
      var node := run.w.nodes[n];
      && ins == HandlesAt(run, channels, Input, node.id, node.inputs)
      && outs == HandlesAt(run, channels, Output, node.id, node.outputs)
  {
    var node := run.w.nodes[n];
    var ins', outs' := HandlesAt(run, channels, Input, node.id, node.inputs),
      HandlesAt(run, channels, Output, node.id, node.outputs);
    assert forall i | 0 <= i < |ins| :: ins[i] == ins'[i];
    assert forall i | 0 <= i < |outs| :: outs[i] == outs'[i];
  }

  lemma {:induction false} GivenFrom(
    run: Network.Run, channels: seq<Channel>, nodes: seq<Node>, ins: seq<seq<Handle>>, outs: seq<seq<Handle>>,
    id: NodeId)
    requires |channels| == |run.w.edges| && |nodes| == |ins| == |outs|
    requires forall n | 0 <= n < |nodes| ::
      && ins[n] == HandlesAt(run, channels, Input, nodes[n].id, nodes[n].inputs)
      && outs[n] == HandlesAt(run, channels, Output, nodes[n].id, nodes[n].outputs)
    ensures Given(nodes, ins, id) == HandlesAt(run, channels, Input, id, Network.InputsOf(nodes, id))
    ensures Given(nodes, outs, id) == HandlesAt(run, channels, Output, id, Network.OutputsOf(nodes, id))
  {
    if nodes != [] && nodes[0].id != id {
      GivenFrom(run, channels, nodes[1..], ins[1..], outs[1..], id);
    }
  }

  /** What a node is given for its ports are exactly the channels of their edges. */
  lemma GivenHandles(run: Network.Run, channels: seq<Channel>, wires: Wires, id: NodeId)
    requires Wired(run, channels, wires)
    ensures
      var nodes := run.w.nodes;
      && Given(nodes, wires.ins, id) == HandlesAt(run, channels, Input, id, Network.InputsOf(nodes, id))
      && Given(nodes, wires.outs, id) == HandlesAt(run, channels, Output, id, Network.OutputsOf(nodes, id))
  {
    forall n | 0 <= n < |run.w.nodes|
      ensures wires.ins[n] == HandlesAt(run, channels, Input, run.w.nodes[n].id, run.w.nodes[n].inputs)
      ensures wires.outs[n] == HandlesAt(run, channels, Output, run.w.nodes[n].id, run.w.nodes[n].outputs)
    {
      WiredHandles(run, channels, n, wires.ins[n], wires.outs[n]);
    }
    GivenFrom(run, channels, run.w.nodes, wires.ins, wires.outs, id);
  }

  lemma {:induction false} ForPortOf(
    run: Network.Run, channels: seq<Channel>, side: Side, at: Endpoint, ports: seq<PortId>)
    requires |channels| == |run.w.edges|
    ensures ForPort(HandlesAt(run, channels, side, at.node, ports), at.port)
         == if at.port in ports then HandleAt(run, channels, side, at) else Handle(at.port, [])
  {
    if ports != [] && ports[0] != at.port {
      ForPortOf(run, channels, side, at, ports[1..]);
      var hs := HandlesAt(run, channels, side, at.node, ports);
      assert hs[1..] == HandlesAt(run, channels, side, at.node, ports[1..]);
    }
  }

  lemma NoEdgesNoChannels(run: Network.Run, channels: seq<Channel>, side: Side, at: Endpoint)
    requires |channels| == |run.w.edges| && forall e | e in run.w.edges :: End(e, side) != at
    ensures HandleAt(run, channels, side, at) == Handle(at.port, [])
  {
    NoneIncident(run.w.edges, side, at, |run.w.edges|);
  }

  lemma {:induction false} NoneIncident(edges: seq<Edge>, side: Side, at: Endpoint, k: nat)
    requires k <= |edges| && forall e | e in edges :: End(e, side) != at
    ensures IncidentUpTo(edges, side, at, k) == []
  {
    if k > 0 {
      NoneIncident(edges, side, at, k - 1);
    }
  }

  /** The handle a node finds for a port, declared or not, is the one the steps work on. */
  lemma GivenHandle(run: Network.Run, channels: seq<Channel>, wires: Wires, at: Endpoint)
    requires Valid(run.w) && Declared(run.w.nodes, at.node) && Wired(run, channels, wires)
    ensures ForPort(Given(run.w.nodes, wires.ins, at.node), at.port) == HandleAt(run, channels, Input, at)
    ensures ForPort(Given(run.w.nodes, wires.outs, at.node), at.port) == HandleAt(run, channels, Output, at)
  {
    var ins, outs := Network.InputsOf(run.w.nodes, at.node), Network.OutputsOf(run.w.nodes, at.node);
    GivenHandles(run, channels, wires, at.node);
    ForPortOf(run, channels, Input, at, ins);
    ForPortOf(run, channels, Output, at, outs);
    PortsCoverEdges(run.w, at.node);
    if at.port !in ins {
      NoEdgesNoChannels(run, channels, Input, at);
    }
    if at.port !in outs {
      NoEdgesNoChannels(run, channels, Output, at);
    }
  }

  function HandlesAt(run: Network.Run, channels: seq<Channel>, side: Side, node: NodeId, ports: seq<PortId>)
    : (hs: seq<Handle>)
    requires |channels| == |run.w.edges|
    ensures |hs| == |ports|
  {
    seq(|ports|, j requires 0 <= j < |ports| => HandleAt(run, channels, side, Endpoint(node, ports[j])))
  }

  // ---- Receiving from any port ----------------------------------------------------

  lemma HandlesPoll(run: Network.Run, net: Network.Net, channels: seq<Channel>, node: NodeId)
    requires Holds(run, net, channels)
    ensures
      var hs := HandlesAt(run, channels, Input, node, Network.InputsOf(run.w.nodes, node));
      Polls(hs) == Network.InputPolls(run, net, node)
  {
    var ports := Network.InputsOf(run.w.nodes, node);
    var hs := HandlesAt(run, channels, Input, node, ports);
    forall j | 0 <= j < |ports| ensures Polls(hs)[j] == Network.InputPolls(run, net, node)[j] {
      PollsAt(hs, j);
      HandleViews(run, net, channels, Input, Endpoint(node, ports[j]));
    }
  }

  lemma HandlesAreChannels(run: Network.Run, channels: seq<Channel>, node: NodeId, ports: seq<PortId>)
    requires |channels| == |run.w.edges|
    ensures forall c | c in Flatten(HandlesAt(run, channels, Input, node, ports)) :: c in channels
  {
    var hs := HandlesAt(run, channels, Input, node, ports);
    forall h, c | h in hs && c in h.channels ensures c in channels {
      var j :| 0 <= j < |hs| && hs[j] == h;
      assert h.channels == Pick(channels, Incident(run.w.edges, Input, Endpoint(node, ports[j])));
    }
  }

  /** One poll of `recv_any` on wired channels is the receive-any step. */
  method ReceiveAnyStep(
    ghost run: Network.Run, ghost net: Network.Net, ghost channels: seq<Channel>, ghost node: NodeId, hs: seq<Handle>)
    returns (r: PolledAny)
    requires Holds(run, net, channels)
    requires hs == HandlesAt(run, channels, Input, node, Network.InputsOf(run.w.nodes, node))
    modifies channels
    ensures Holds(run, Network.DoReceiveAny(run, net, node), channels)
    ensures r.Took? <==> PollAny(Network.InputPolls(run, net, node)).AnyReady?
    ensures r.NoMore? <==> PollAny(Network.InputPolls(run, net, node)).AllClosed?
  {
    ghost var ports := Network.InputsOf(run.w.nodes, node);
    HandlesPoll(run, net, channels, node);
    HandlesAreChannels(run, channels, node, ports);
    ghost var poll := PollAny(Network.InputPolls(run, net, node));
    PollAnyMeaning(Network.InputPolls(run, net, node), 0);
    r := PollRecvAny(hs, false);
    if r.Took? {
      ghost var at := Endpoint(node, ports[poll.port]);
      ghost var k := Incident(run.w.edges, Input, at)[poll.index];
      assert hs[poll.port].channels[poll.index] == channels[k];
      assert Network.DoReceiveAny(run, net, node) == Network.DoReceive(run, net, at);
      forall i | 0 <= i < |channels| ensures channels[i].View() == Network.DoReceive(run, net, at).edges[i] {
        if i != k {
          assert channels[i] != channels[k];
        }
      }
    }
  }

  // ---- A node ends ----------------------------------------------------------------

  lemma {:induction false} OutputsOfDeclared(nodes: seq<Node>, n: Node)
    requires UniqueIds(nodes) && n in nodes
    ensures Network.OutputsOf(nodes, n.id) == n.outputs
  {
    if nodes[0] != n {
      assert n in nodes[1..];
      assert nodes[0].id != n.id by {
        var k :| 0 <= k < |nodes| && nodes[k] == n;
      }
      OutputsOfDeclared(nodes[1..], n);
    }
  }

  /** A declared node's port lists hold the ends of all its edges, without repetition. */
  lemma PortsCoverEdges(w: Workflow, id: NodeId)
    requires Valid(w) && Declared(w.nodes, id)
    ensures NoDuplicates(Network.InputsOf(w.nodes, id)) && NoDuplicates(Network.OutputsOf(w.nodes, id))
    ensures forall e | e in w.edges && e.source.node == id :: e.source.port in Network.OutputsOf(w.nodes, id)
    ensures forall e | e in w.edges && e.target.node == id :: e.target.port in Network.InputsOf(w.nodes, id)
  {
    var n :| n in w.nodes && n.id == id;
    InputsOfDeclared(w.nodes, n);
    OutputsOfDeclared(w.nodes, n);
    DistinctSides(n);
    forall m | m in w.nodes && m.id == id ensures m == n {
    }
    forall e | e in w.edges
      ensures e.source.node == id ==> e.source.port in n.outputs
      ensures e.target.node == id ==> e.target.port in n.inputs
    {
      assert EdgeDeclared(w.nodes, e);
    }
  }

  lemma AllDetached(run: Network.Run, net: Network.Net, node: NodeId)
    requires Valid(run.w) && Declared(run.w.nodes, node) && Network.Shape(run, net)
    ensures
      var outs, ins := Elements(Network.OutputsOf(run.w.nodes, node)), Elements(Network.InputsOf(run.w.nodes, node));
      Detached(run, net, node, outs, ins) == Network.DoFinish(run, net, node).edges
  {
    PortsCoverEdges(run.w, node);
    var outs, ins := Elements(Network.OutputsOf(run.w.nodes, node)), Elements(Network.InputsOf(run.w.nodes, node));
    forall i | 0 <= i < |net.edges|
      ensures DetachedEdge(run, net, node, outs, ins, i) == Network.Detach(run, net, node, i)
    {
      assert run.w.edges[i] in run.w.edges;
    }
  }

  lemma NoneDetached(run: Network.Run, net: Network.Net, node: NodeId)
    requires Network.Shape(run, net)
    ensures Detached(run, net, node, {}, {}) == net.edges
  {
  }

  lemma PrefixGrows(s: seq<PortId>, j: nat)
    requires NoDuplicates(s) && j < |s|
    ensures s[j] !in Elements(s[..j])
    ensures Elements(s[..j + 1]) == Elements(s[..j]) + {s[j]}
  {
    assert s[..j + 1] == s[..j] + [s[j]];
    ElementsSnoc(s[..j], s[j]);
  }

  lemma HandleInChannels(run: Network.Run, channels: seq<Channel>, side: Side, at: Endpoint)
    requires |channels| == |run.w.edges|
    ensures forall c | c in HandleAt(run, channels, side, at).channels :: c in channels
  {
  }

  /** Dropping all handles of a node, with the permits it still holds, is the finish step. */
  method FinishStep(
    ghost run: Network.Run, ghost net: Network.Net, ghost channels: seq<Channel>, node: NodeId,
    ins: seq<Handle>, outs: seq<Handle>, permits: map<Endpoint, nat>)
    requires Holds(run, net, channels) && Valid(run.w) && Declared(run.w.nodes, node) && permits == net.permits
    requires ins == HandlesAt(run, channels, Input, node, Network.InputsOf(run.w.nodes, node))
    requires outs == HandlesAt(run, channels, Output, node, Network.OutputsOf(run.w.nodes, node))
    modifies channels
    ensures Holds(run, Network.DoFinish(run, net, node), channels)
  {
    ghost var outPorts, inPorts := Network.OutputsOf(run.w.nodes, node), Network.InputsOf(run.w.nodes, node);
    PortsCoverEdges(run.w, node);
    NoneDetached(run, net, node);
    for j := 0 to |outs|
      invariant Views(channels) == Detached(run, net, node, Elements(outPorts[..j]), {})
    {
      var at := Endpoint(node, outs[j].port);
      HandleInChannels(run, channels, Output, at);
      PrefixGrows(outPorts, j);
      DropOutput(run, net, channels, Elements(outPorts[..j]), at, outs[j], if at in permits then permits[at] else 0);
    }
    assert outPorts[..|outPorts|] == outPorts;
    for j := 0 to |ins|
      invariant Views(channels) == Detached(run, net, node, Elements(outPorts), Elements(inPorts[..j]))
    {
      ghost var at := Endpoint(node, ins[j].port);
      HandleInChannels(run, channels, Input, at);
      PrefixGrows(inPorts, j);
      DropInput(run, net, channels, Elements(outPorts), Elements(inPorts[..j]), at, ins[j]);
    }
    assert inPorts[..|inPorts|] == inPorts;
    AllDetached(run, net, node);
  }

  // ---- Whole runs -----------------------------------------------------------------

  /** What a run keeps beside its channels: permits outstanding, nodes ended, the cancellation token. */
  datatype Books = Books(permits: map<Endpoint, nat>, finished: set<NodeId>, cancelled: bool)

  ghost predicate Kept(books: Books, net: Network.Net) {
    books.permits == net.permits && books.finished == net.finished && books.cancelled == net.cancelled
  }

  function Held(books: Books, at: Endpoint): nat {
    if at in books.permits then books.permits[at] else 0
  }

  method TakeReserve(
    ghost run: Network.Run, ghost net: Network.Net, ghost channels: seq<Channel>, books: Books, at: Endpoint, h: Handle)
    returns (books': Books)
    requires Holds(run, net, channels) && Kept(books, net) && h == HandleAt(run, channels, Output, at)
    modifies channels
    ensures Holds(run, Network.DoReserve(run, net, at), channels) && Kept(books', Network.DoReserve(run, net, at))
  {
    HandleInChannels(run, channels, Output, at);
    var r := ReserveStep(run, net, channels, at, h);
    books' := if r.Ok? then books.(permits := books.permits[at := Held(books, at) + 1]) else books;
  }

  method TakeAbort(
    ghost run: Network.Run, ghost net: Network.Net, ghost channels: seq<Channel>, books: Books, at: Endpoint, h: Handle)
    returns (books': Books)
    requires Holds(run, net, channels) && Kept(books, net) && h == HandleAt(run, channels, Output, at)
    modifies channels
    ensures Holds(run, Network.DoAbort(run, net, at), channels) && Kept(books', Network.DoAbort(run, net, at))
  {
    if Held(books, at) == 0 {
      return books;
    }
    HandleInChannels(run, channels, Output, at);
    AbortStep(run, net, channels, at, Permit(h.port, h.channels));
    books' := books.(permits := books.permits[at := Held(books, at) - 1]);
  }

  method TakeCommit(
    run: Network.Run, ghost net: Network.Net, ghost channels: seq<Channel>, books: Books, at: Endpoint, h: Handle,
    p: Packet)
    returns (books': Books)
    requires Holds(run, net, channels) && Kept(books, net) && h == HandleAt(run, channels, Output, at)
    modifies channels
    ensures Holds(run, Network.DoCommit(run, net, at, p), channels)
    ensures Kept(books', Network.DoCommit(run, net, at, p))
  {
    if Held(books, at) == 0 {
      return books;
    }
    HandleInChannels(run, channels, Output, at);
    var _ := CommitStep(
      run, net, channels, at, Permit(h.port, h.channels), Network.ValidatorFor(run, at.node), p);
    books' := books.(permits := books.permits[at := Held(books, at) - 1]);
  }

  method TakeReceive(
    ghost run: Network.Run, ghost net: Network.Net, ghost channels: seq<Channel>, books: Books, ghost at: Endpoint,
    h: Handle)
    requires Holds(run, net, channels) && Kept(books, net) && h == HandleAt(run, channels, Input, at)
    modifies channels
    ensures Holds(run, Network.DoReceive(run, net, at), channels) && Kept(books, Network.DoReceive(run, net, at))
  {
    HandleInChannels(run, channels, Input, at);
    var _ := ReceiveStep(run, net, channels, at, h);
  }

  function Actor(step: Network.Step): NodeId {
    match step
    case Reserve(at) => at.node
    case Commit(at, _) => at.node
    case Abort(at) => at.node
    case Receive(at) => at.node
    case ReceiveAny(n) => n
    case Finish(n) => n
    case Cancel => ""
  }

  /** The step of an unfinished node, on the handles it was given. */
  method Act(
    run: Network.Run, ghost net: Network.Net, ghost channels: seq<Channel>, wires: Wires, books: Books,
    step: Network.Step)
    returns (books': Books)
    requires Valid(run.w) && Holds(run, net, channels) && Kept(books, net) && Wired(run, channels, wires)
    requires !step.Cancel? && Network.Active(run, net, Actor(step))
    modifies channels
    ensures Holds(run, Network.Apply(run, net, step), channels) && Kept(books', Network.Apply(run, net, step))
  {
    books' := books;
    var ins := Given(run.w.nodes, wires.ins, Actor(step));
    var outs := Given(run.w.nodes, wires.outs, Actor(step));
    GivenHandles(run, channels, wires, Actor(step));
    match step {
      case Reserve(at) =>
        GivenHandle(run, channels, wires, at);
        books' := TakeReserve(run, net, channels, books, at, ForPort(outs, at.port));
      case Commit(at, p) =>
        GivenHandle(run, channels, wires, at);
        books' := TakeCommit(run, net, channels, books, at, ForPort(outs, at.port), p);
      case Abort(at) =>
        GivenHandle(run, channels, wires, at);
        books' := TakeAbort(run, net, channels, books, at, ForPort(outs, at.port));
      case Receive(at) =>
        GivenHandle(run, channels, wires, at);
        TakeReceive(run, net, channels, books, at, ForPort(ins, at.port));
      case ReceiveAny(n) =>
        var _ := ReceiveAnyStep(run, net, channels, n, ins);
      case Finish(n) =>
        FinishStep(run, net, channels, n, ins, outs, books.permits);
        var left := map at | at in books.permits && at.node != n :: books.permits[at];
        books' := books.(permits := left, finished := books.finished + {n});
    }
  }

  /** Any step of any node, taken in place. */
  method Take(
    run: Network.Run, ghost net: Network.Net, ghost channels: seq<Channel>, wires: Wires, books: Books,
    step: Network.Step)
    returns (books': Books)
    requires Valid(run.w) && Holds(run, net, channels) && Kept(books, net) && Wired(run, channels, wires)
    modifies channels
    ensures Holds(run, Network.Apply(run, net, step), channels) && Kept(books', Network.Apply(run, net, step))
  {
    books' := books;
    if step.Cancel? {
      books' := books.(cancelled := true);
    } else if Declared(run.w.nodes, Actor(step)) && Actor(step) !in books.finished {
      books' := Act(run, net, channels, wires, books, step);
    }
  }

  /** Wire a valid workflow and take any steps on the handles that gives: the channels hold what the machine says. */
  method Execute(run: Network.Run, steps: seq<Network.Step>) returns (channels: seq<Channel>)
    requires Valid(run.w)
    ensures fresh(channels)
    ensures Holds(run, Network.Exec(run, steps), channels)
  {
    var ins, outs;
    ins, outs, channels := WireWorkflow(run.w);
    var wires := Wires(ins, outs);
    WiredHolds(run, channels);
    ghost var net := Network.Initial(run);
    var books := Books(map[], {}, false);
    for i := 0 to |steps|
      invariant fresh(channels)
      invariant Holds(run, net, channels) && Kept(books, net)
      invariant net == Network.Exec(run, steps[..i])
    {
      books := Take(run, net, channels, wires, books, steps[i]);
      assert steps[..i + 1][..i] == steps[..i];
      net := Network.Apply(run, net, steps[i]);
    }
    assert steps[..|steps|] == steps;
  }
}
