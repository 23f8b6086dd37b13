/** Turning a workflow graph into channels and per-node port handles. */
module Wiring {
  import opened Types
  import opened Graph
  import opened Edges
  import opened Ports

  const DEFAULT_EDGE_CAPACITY: Slots := 1

  /** The slots an edge declares; one without a declaration. */
  function DeclaredSlots(e: Edge): nat {
    if e.capacity.Explicit? then e.capacity.slots else 1
  }

  datatype Side = Output | Input

  function End(e: Edge, side: Side): Endpoint {
    if side.Output? then e.source else e.target
  }

  predicate Below(indices: seq<nat>, n: nat) {
    forall j | 0 <= j < |indices| :: indices[j] < n
  }

  /** Indices below `k` of the edges attached to `at`, in declaration order. */
  function IncidentUpTo(edges: seq<Edge>, side: Side, at: Endpoint, k: nat): (r: seq<nat>)
    requires k <= |edges|
    ensures Below(r, k)
  {
    if k == 0 then []
    else
      var before := IncidentUpTo(edges, side, at, k - 1);
      if End(edges[k - 1], side) == at then before + [k - 1] else before
  }

  /** The edges of one port, in declaration order. */
  function Incident(edges: seq<Edge>, side: Side, at: Endpoint): (r: seq<nat>)
    ensures Below(r, |edges|)
  {
    IncidentUpTo(edges, side, at, |edges|)
  }

  lemma {:induction false} IncidentMeaning(edges: seq<Edge>, side: Side, at: Endpoint, k: nat)
    requires k <= |edges|
    ensures forall i :: i in IncidentUpTo(edges, side, at, k) <==> 0 <= i < k && End(edges[i], side) == at
    ensures Increasing(IncidentUpTo(edges, side, at, k))
  {
    if k > 0 {
      IncidentMeaning(edges, side, at, k - 1);
      var before, r := IncidentUpTo(edges, side, at, k - 1), IncidentUpTo(edges, side, at, k);
      forall i, j | 0 <= i < j < |r| ensures r[i] < r[j] {
        assert r[i] == before[i];
      }
    }
  }

  predicate Increasing(r: seq<nat>) {
    forall i, j | 0 <= i < j < |r| :: r[i] < r[j]
  }

  function Pick<T>(items: seq<T>, indices: seq<nat>): (r: seq<T>)
    requires Below(indices, |items|)
    ensures |r| == |indices| && forall i | 0 <= i < |indices| :: r[i] == items[indices[i]]
  {
    seq(|indices|, i requires 0 <= i < |indices| => items[indices[i]])
  }

  lemma PickSnoc<T>(items: seq<T>, indices: seq<nat>, i: nat)
    requires Below(indices, |items|) && i < |items|
    ensures Pick(items, indices + [i]) == Pick(items, indices) + [items[i]]
  {
  }

  // ---- One channel per edge -------------------------------------------------------

  /** The single-edge handles a node receives from the first `k` edges, in declaration order. */
  ghost function HandlesUpTo(edges: seq<Edge>, channels: seq<Channel>, side: Side, node: NodeId, k: nat): seq<Handle>
    requires k <= |edges| && k <= |channels|
  {
    if k == 0 then []
    else
      var at := End(edges[k - 1], side);
      var before := HandlesUpTo(edges, channels, side, node, k - 1);
      if at.node == node then before + [Handle(at.port, [channels[k - 1]])] else before
  }

  function Get(m: map<NodeId, seq<Handle>>, node: NodeId): seq<Handle> {
    if node in m then m[node] else []
  }

  function Push(m: map<NodeId, seq<Handle>>, at: Endpoint, c: Channel): map<NodeId, seq<Handle>> {
    m[at.node := Get(m, at.node) + [Handle(at.port, [c])]]
  }

  ghost function PushUpTo(edges: seq<Edge>, channels: seq<Channel>, side: Side, k: nat): map<NodeId, seq<Handle>>
    requires k <= |edges| && k <= |channels|
  {
    if k == 0 then map[]
    else Push(PushUpTo(edges, channels, side, k - 1), End(edges[k - 1], side), channels[k - 1])
  }

  lemma {:induction false} PushStable(edges: seq<Edge>, channels: seq<Channel>, more: seq<Channel>, side: Side, k: nat)
    requires k <= |edges| && k <= |channels| && channels <= more
    ensures PushUpTo(edges, channels, side, k) == PushUpTo(edges, more, side, k)
  {
    if k > 0 {
      PushStable(edges, channels, more, side, k - 1);
    }
  }

  lemma {:induction false} PushedHandles(edges: seq<Edge>, channels: seq<Channel>, side: Side, node: NodeId, k: nat)
    requires k <= |edges| && k <= |channels|
    ensures Get(PushUpTo(edges, channels, side, k), node) == HandlesUpTo(edges, channels, side, node, k)
  {
    if k > 0 {
      PushedHandles(edges, channels, side, node, k - 1);
    }
  }

  lemma DistinctSnoc(channels: seq<Channel>, c: Channel)
    requires Distinct(channels) && c !in channels
    ensures Distinct(channels + [c])
  {
  }

  /** `build_port_wiring`: one fresh channel per edge, handed to both of its nodes. */
  method BuildPortWiring(w: Workflow)
    returns (inputs: map<NodeId, seq<Handle>>, outputs: map<NodeId, seq<Handle>>, channels: seq<Channel>)
    ensures |channels| == |w.edges| && Distinct(channels) && fresh(channels)
    ensures forall i | 0 <= i < |channels| ::
      channels[i].View() == Fresh(w.edges[i].capacity.Resolve(DEFAULT_EDGE_CAPACITY))
    ensures forall i | 0 <= i < |channels| :: channels[i].capacity == DeclaredSlots(w.edges[i])
    ensures outputs == PushUpTo(w.edges, channels, Output, |w.edges|)
    ensures inputs == PushUpTo(w.edges, channels, Input, |w.edges|)
  {
    inputs, outputs, channels := map[], map[], [];
    for k := 0 to |w.edges|
      invariant |channels| == k && Distinct(channels) && fresh(channels)
      invariant forall i | 0 <= i < k ::
          channels[i].View() == Fresh(w.edges[i].capacity.Resolve(DEFAULT_EDGE_CAPACITY))
      invariant outputs == PushUpTo(w.edges, channels, Output, k)
      invariant inputs == PushUpTo(w.edges, channels, Input, k)
    {
      var e := w.edges[k];
      var c := new Channel(e.capacity.Resolve(DEFAULT_EDGE_CAPACITY));
      PushStable(w.edges, channels, channels + [c], Output, k);
      PushStable(w.edges, channels, channels + [c], Input, k);
      DistinctSnoc(channels, c);
      outputs, inputs, channels := Push(outputs, e.source, c), Push(inputs, e.target, c), channels + [c];
    }
  }

  // ---- One handle per declared port -----------------------------------------------

  /** All channels of the handles for `port`, in order. */
  ghost function ChannelsOf(handles: seq<Handle>, port: PortId): seq<Channel> {
    if handles == [] then []
    else
      var last := handles[|handles| - 1];
      var before := ChannelsOf(handles[..|handles| - 1], port);
      if last.port == port then before + last.channels else before
  }

  /** `from_handles`: merge the handles of each declared port; a port without edges is disconnected. */
  method FromHandles(portIds: seq<PortId>, handles: seq<Handle>) returns (ports: seq<Handle>)
    requires NoDuplicates(portIds)
    ensures |ports| == |portIds|
    ensures forall i | 0 <= i < |portIds| :: ports[i] == Handle(portIds[i], ChannelsOf(handles, portIds[i]))
  {
    var byPort: map<PortId, Handle> := map[];
    for k := 0 to |handles|
      invariant forall p | p in byPort :: byPort[p] == Handle(p, ChannelsOf(handles[..k], p))
      invariant forall p | p !in byPort :: ChannelsOf(handles[..k], p) == []
    {
      var h := handles[k];
      assert handles[..k + 1][..k] == handles[..k];
      if h.port in byPort {
        byPort := byPort[h.port := Handle(h.port, byPort[h.port].channels + h.channels)];
      } else {
        byPort := byPort[h.port := h];
      }
    }
    assert handles[..|handles|] == handles;
    ports := [];
    for i := 0 to |portIds|
      invariant |ports| == i
      invariant forall j | 0 <= j < i :: ports[j] == Handle(portIds[j], ChannelsOf(handles, portIds[j]))
      invariant forall p | p in byPort :: byPort[p] == Handle(p, ChannelsOf(handles, p))
      invariant forall p | p !in byPort && p !in portIds[..i] :: ChannelsOf(handles, p) == []
    {
      var p := portIds[i];
      assert p !in portIds[..i];
      ports := ports + [if p in byPort then byPort[p] else Handle(p, [])];
      byPort := byPort - {p};
    }
  }

  lemma {:induction false} MergedHandles(edges: seq<Edge>, channels: seq<Channel>, side: Side, at: Endpoint, k: nat)
    requires k <= |edges| == |channels|
    ensures ChannelsOf(HandlesUpTo(edges, channels, side, at.node, k), at.port)
         == Pick(channels, IncidentUpTo(edges, side, at, k))
  {
    if k > 0 {
      MergedHandles(edges, channels, side, at, k - 1);
      var e := End(edges[k - 1], side);
      if e.node == at.node {
        SnocChannels(HandlesUpTo(edges, channels, side, at.node, k - 1), Handle(e.port, [channels[k - 1]]), at.port);
      }
      PickSnoc(channels, IncidentUpTo(edges, side, at, k - 1), k - 1);
    }
  }

  lemma SnocChannels(handles: seq<Handle>, h: Handle, port: PortId)
    ensures ChannelsOf(handles + [h], port)
         == if h.port == port then ChannelsOf(handles, port) + h.channels else ChannelsOf(handles, port)
  {
    assert (handles + [h])[..|handles|] == handles;
  }

  /** A node's declared ports carry exactly the channels of their edges, in declaration order. */
  ghost predicate PortsMatch(
    edges: seq<Edge>, channels: seq<Channel>, side: Side, node: NodeId, portIds: seq<PortId>, ports: seq<Handle>)
    requires |edges| == |channels|
  {
    && |ports| == |portIds|
    && forall i | 0 <= i < |portIds| ::
      var at := Endpoint(node, portIds[i]);
      ports[i] == Handle(portIds[i], Pick(channels, Incident(edges, side, at)))
  }

  method WirePorts(
    edges: seq<Edge>, channels: seq<Channel>, side: Side, node: NodeId, portIds: seq<PortId>,
    m: map<NodeId, seq<Handle>>)
    returns (ports: seq<Handle>)
    requires |edges| == |channels| && NoDuplicates(portIds) && m == PushUpTo(edges, channels, side, |edges|)
    ensures PortsMatch(edges, channels, side, node, portIds, ports)
  {
    ports := FromHandles(portIds, Get(m, node));
    PushedHandles(edges, channels, side, node, |edges|);
    forall i | 0 <= i < |portIds|
      ensures
        var at := Endpoint(node, portIds[i]);
        ports[i] == Handle(portIds[i], Pick(channels, Incident(edges, side, at)))
    {
      MergedHandles(edges, channels, side, Endpoint(node, portIds[i]), |edges|);
    }
  }

  /** The wiring half of the runner: every node's ports, for any valid workflow. */
  method WireWorkflow(w: Workflow) returns (ins: seq<seq<Handle>>, outs: seq<seq<Handle>>, channels: seq<Channel>)
    requires Valid(w)
    ensures |channels| == |w.edges| && Distinct(channels) && fresh(channels)
    ensures forall i | 0 <= i < |channels| ::
      channels[i].View() == Fresh(w.edges[i].capacity.Resolve(DEFAULT_EDGE_CAPACITY))
    ensures forall i | 0 <= i < |channels| :: channels[i].capacity == DeclaredSlots(w.edges[i])
    ensures |ins| == |outs| == |w.nodes|
    ensures forall n | 0 <= n < |w.nodes| :: NodeWired(w, channels, n, ins[n], outs[n])
  {
    var inputs, outputs;
    inputs, outputs, channels := BuildPortWiring(w);
    ins, outs := WireNodes(w, channels, inputs, outputs);
  }

  ghost predicate NodeWired(w: Workflow, channels: seq<Channel>, n: nat, ins: seq<Handle>, outs: seq<Handle>)
    requires |channels| == |w.edges| && n < |w.nodes|
  {
    && PortsMatch(w.edges, channels, Input, w.nodes[n].id, w.nodes[n].inputs, ins)
    && PortsMatch(w.edges, channels, Output, w.nodes[n].id, w.nodes[n].outputs, outs)
  }

  method WireNodes(
    w: Workflow, channels: seq<Channel>, inputs: map<NodeId, seq<Handle>>, outputs: map<NodeId, seq<Handle>>)
    returns (ins: seq<seq<Handle>>, outs: seq<seq<Handle>>)
    requires Valid(w) && |channels| == |w.edges|
    requires outputs == PushUpTo(w.edges, channels, Output, |w.edges|)
    requires inputs == PushUpTo(w.edges, channels, Input, |w.edges|)
    ensures |ins| == |outs| == |w.nodes|
    ensures forall n | 0 <= n < |w.nodes| :: NodeWired(w, channels, n, ins[n], outs[n])
  {
    ins, outs := [], [];
    for n := 0 to |w.nodes|
      invariant |ins| == |outs| == n
      invariant forall j | 0 <= j < n :: NodeWired(w, channels, j, ins[j], outs[j])
    {
      DistinctSides(w.nodes[n]);
      var i := WirePorts(w.edges, channels, Input, w.nodes[n].id, w.nodes[n].inputs, inputs);
      var o := WirePorts(w.edges, channels, Output, w.nodes[n].id, w.nodes[n].outputs, outputs);
      ins, outs := ins + [i], outs + [o];
    }
  }

  lemma DistinctSides(n: Node)
    requires DistinctPorts(n)
    ensures NoDuplicates(n.inputs) && NoDuplicates(n.outputs)
  {
    var all := n.inputs + n.outputs;
    assert forall i | 0 <= i < |n.inputs| :: n.inputs[i] == all[i];
    assert forall i | 0 <= i < |n.outputs| :: n.outputs[i] == all[|n.inputs| + i];
  }

  /** Each edge sits behind exactly one declared port on each side: none lost, none shared. */
  lemma EveryEdgeWiredOnce(w: Workflow, side: Side, i: nat)
    requires Valid(w) && i < |w.edges|
    ensures exists n | n in w.nodes ::
      n.id == End(w.edges[i], side).node
      && End(w.edges[i], side).port in (if side.Output? then n.outputs else n.inputs)
    ensures forall at :: i in Incident(w.edges, side, at) <==> at == End(w.edges[i], side)
    ensures forall at, j, k ::
      0 <= j < k < |Incident(w.edges, side, at)| ==> Incident(w.edges, side, at)[j] != Incident(w.edges, side, at)[k]
  {
    assert EdgeDeclared(w.nodes, w.edges[i]);
    forall at ensures i in Incident(w.edges, side, at) <==> at == End(w.edges[i], side) {
      IncidentMeaning(w.edges, side, at, |w.edges|);
    }
    forall at, j, k | 0 <= j < k < |Incident(w.edges, side, at)|
      ensures Incident(w.edges, side, at)[j] != Incident(w.edges, side, at)[k]
    {
      IncidentMeaning(w.edges, side, at, |w.edges|);
    }
  }
}
