/** What the provenance conditions of a rule node can be true of in a contract-checked run. */
module ProvenanceLeaves {
  import opened Types
  import opened Graph
  import opened Conditions
  import opened RuleContract
  import opened RuleNode
  import opened Network
  import opened NetworkLaws

  /** The packet is queued on an edge of the run, or has been received from it. */
  ghost predicate Carried(run: Run, steps: seq<Step>, i: nat, p: Packet) {
    i < |run.w.edges| && (p in Exec(run, steps).edges[i].queue || p in Exec(run, steps).edges[i].received)
  }

  predicate Holds(c: Condition, ctx: NodeContext, p: Packet) {
    Eval(c, SubjectOf(ctx, p).payload, SubjectOf(ctx, p).context)
  }

  /** `SourceNode` is about the node at the other end of the edge, and no other. */
  lemma SourceNodeIsTheSender(run: Run, steps: seq<Step>, i: nat, p: Packet, ctx: NodeContext, n: NodeId)
    requires run.contracts.Some? && Carried(run, steps, i, p)
    ensures Holds(SourceNode(n), ctx, p) <==> n == run.w.edges[i].source.node
  {
    ProvenanceIntegrity(run, steps, i, p);
  }

  /** A leaf naming a node that reaches the host only through others is legal, and never true there. */
  lemma IndirectSourceNeverHolds(
    run: Run, steps: seq<Step>, i: nat, p: Packet, ctx: NodeContext, host: Node, n: NodeId)
    requires run.contracts.Some? && Carried(run, steps, i, p) && run.w.edges[i].target.node == host.id
    requires Declared(run.w.nodes, n) && Reaches(run.w.edges, n, host.id) && !Link(run.w.edges, n, host.id)
    ensures ConditionLegal(run.w, host, SourceNode(n)) && !Holds(SourceNode(n), ctx, p)
  {
    SourceNodeIsTheSender(run, steps, i, p, ctx, n);
    assert run.w.edges[i] in run.w.edges;
  }

  /** On a packet forwarded by a rule node, `ArrivedOnPort` is about the sender's output port. */
  lemma ArrivedOnPortIsTheSenders(
    run: Run, steps: seq<Step>, i: nat, ctx: NodeContext, q: PortId,
    up: NodeContext, port: PortId, number: nat, incoming: Packet)
    requires run.contracts.Some? && Carried(run, steps, i, ForwardPacket(up, port, number, incoming))
    ensures
      Holds(ArrivedOnPort(q), ctx, ForwardPacket(up, port, number, incoming)) <==> q == run.w.edges[i].source.port
  {
    ProvenanceIntegrity(run, steps, i, ForwardPacket(up, port, number, incoming));
  }

  /** There a legal leaf, which names an input of the host, holds only where the sender's output has that name too. */
  lemma LegalArrivalLeaf(
    run: Run, steps: seq<Step>, i: nat, ctx: NodeContext, host: Node, q: PortId,
    up: NodeContext, port: PortId, number: nat, incoming: Packet)
    requires run.contracts.Some? && Carried(run, steps, i, ForwardPacket(up, port, number, incoming))
    requires ConditionLegal(run.w, host, ArrivedOnPort(q))
    ensures Holds(ArrivedOnPort(q), ctx, ForwardPacket(up, port, number, incoming)) ==>
      q in host.inputs && q == run.w.edges[i].source.port
  {
    ArrivedOnPortIsTheSenders(run, steps, i, ctx, q, up, port, number, incoming);
    assert HasLeaf(ArrivedOnPort(q), ArrivedOnPort(q));
  }
}
