/**
 Graph validation and the tables it leaves behind: an in-degree counted per edge, but successors kept as a
 set, so the two agree exactly where no parallel edges enter a node.
 */
module Topology {
  import opened Types
  import opened Graph

  datatype Role = Source | Target

  datatype ValidationError =
    | DuplicateNode(id: NodeId)
    | UnknownNode(edge: nat, role: Role, node: NodeId)
    | UnknownPort(edge: nat, role: Role, at: Endpoint)
    | CycleDetected(cycle: seq<NodeId>)

  datatype GraphTopology = GraphTopology(
    ids: seq<NodeId>,
    outgoing: map<NodeId, set<NodeId>>,
    indegree: map<NodeId, nat>)

  function Successors(edges: seq<Edge>, u: NodeId): set<NodeId> {
    set e | e in edges && e.source.node == u :: e.target.node
  }

  function Predecessors(edges: seq<Edge>, v: NodeId): set<NodeId> {
    set e | e in edges && e.target.node == v :: e.source.node
  }

  /** Edges into `v`, with multiplicity. */
  function InDegree(edges: seq<Edge>, v: NodeId): nat {
    if edges == [] then 0
    else InDegree(edges[..|edges| - 1], v) + if edges[|edges| - 1].target.node == v then 1 else 0
  }

  /** The tables of `t` are the successor sets and the per-edge in-degrees of the graph. */
  ghost predicate Describes(t: GraphTopology, nodes: seq<Node>, edges: seq<Edge>) {
    && |t.ids| == |nodes|
    && (forall i | 0 <= i < |nodes| :: t.ids[i] == nodes[i].id)
    && t.outgoing.Keys == t.indegree.Keys == NodeIds(nodes)
    && (forall n | n in t.outgoing :: t.outgoing[n] == Successors(edges, n))
    && (forall n | n in t.indegree :: t.indegree[n] == InDegree(edges, n))
  }

  predicate DeclaredUpTo(nodes: seq<Node>, edges: seq<Edge>, k: nat)
    requires k <= |edges|
  {
    forall i | 0 <= i < k :: EdgeDeclared(nodes, edges[i])
  }

  ghost predicate DefectAt(nodes: seq<Node>, edges: seq<Edge>, k: nat, err: ValidationError) {
    UniqueIds(nodes) && k < |edges| && DeclaredUpTo(nodes, edges, k) && EndpointDefect(nodes, k, edges[k], err)
  }

  /** The error names a real defect: the first one, edge by edge, source before target. */
  ghost predicate FirstDefect(nodes: seq<Node>, edges: seq<Edge>, err: ValidationError) {
    match err
    case DuplicateNode(id) =>
      exists i, j | 0 <= i < j < |nodes| :: nodes[i].id == nodes[j].id == id
    case UnknownNode(k, _, _) => DefectAt(nodes, edges, k, err)
    case UnknownPort(k, _, _) => DefectAt(nodes, edges, k, err)
    case CycleDetected(_) => false
  }

  method RejectDuplicateNodes(nodes: seq<Node>) returns (r: Option<NodeId>)
    ensures r.None? <==> UniqueIds(nodes)
    ensures r.Some? ==> exists i, j | 0 <= i < j < |nodes| :: nodes[i].id == nodes[j].id == r.value
  {
    var seen: set<NodeId> := {};
    for k := 0 to |nodes|
      invariant seen == set i | 0 <= i < k :: nodes[i].id
      invariant UniqueIds(nodes[..k])
    {
      if nodes[k].id in seen {
        var i :| 0 <= i < k && nodes[i].id == nodes[k].id;
        return Some(nodes[k].id);
      }
      seen := seen + {nodes[k].id};
    }
    assert nodes[..|nodes|] == nodes;
    r := None;
  }

  method ValidateEndpoint(nodes: seq<Node>, k: nat, role: Role, at: Endpoint) returns (r: Option<ValidationError>)
    requires UniqueIds(nodes)
    ensures r.None? <==> (if role.Source? then DeclaredOutput(nodes, at) else DeclaredInput(nodes, at))
    ensures r.Some? && !Declared(nodes, at.node) ==> r.value == UnknownNode(k, role, at.node)
    ensures r.Some? && Declared(nodes, at.node) ==> r.value == UnknownPort(k, role, at)
  {
    for i := 0 to |nodes|
      invariant forall j | 0 <= j < i :: nodes[j].id != at.node
    {
      if nodes[i].id == at.node {
        assert forall n | n in nodes && n.id == at.node :: n == nodes[i];
        var ports := if role.Source? then nodes[i].outputs else nodes[i].inputs;
        assert Declared(nodes, at.node);
        return if at.port in ports then None else Some(UnknownPort(k, role, at));
      }
    }
    r := Some(UnknownNode(k, role, at.node));
  }

  ghost predicate EndpointDefect(nodes: seq<Node>, k: nat, e: Edge, err: ValidationError) {
    match err
    case UnknownNode(edge, role, node) =>
      && edge == k && !Declared(nodes, node)
      && node == (if role.Source? then e.source.node else e.target.node)
      && (role.Target? ==> DeclaredOutput(nodes, e.source))
    case UnknownPort(edge, role, at) =>
      && edge == k && Declared(nodes, at.node)
      && at == (if role.Source? then e.source else e.target)
      && (role.Source? ==> !DeclaredOutput(nodes, at))
      && (role.Target? ==> !DeclaredInput(nodes, at) && DeclaredOutput(nodes, e.source))
    case _ => false
  }

  method ValidateEdge(nodes: seq<Node>, k: nat, e: Edge) returns (r: Option<ValidationError>)
    requires UniqueIds(nodes)
    ensures r.None? <==> EdgeDeclared(nodes, e)
    ensures r.Some? ==> EndpointDefect(nodes, k, e, r.value)
  {
    r := ValidateEndpoint(nodes, k, Source, e.source);
    if r.None? {
      r := ValidateEndpoint(nodes, k, Target, e.target);
    }
  }

  function NoEdges(nodes: seq<Node>): GraphTopology {
    GraphTopology(
      seq(|nodes|, i requires 0 <= i < |nodes| => nodes[i].id),
      map id | id in NodeIds(nodes) :: {},
      map id | id in NodeIds(nodes) :: 0)
  }

  function RecordEdge(t: GraphTopology, e: Edge): GraphTopology {
    if e.source.node !in t.outgoing || e.target.node !in t.indegree then t
    else t.(outgoing := t.outgoing[e.source.node := t.outgoing[e.source.node] + {e.target.node}],
            indegree := t.indegree[e.target.node := t.indegree[e.target.node] + 1])
  }

  lemma RecordKeeps(t: GraphTopology, nodes: seq<Node>, edges: seq<Edge>, e: Edge)
    requires Describes(t, nodes, edges) && EdgeDeclared(nodes, e)
    ensures Describes(RecordEdge(t, e), nodes, edges + [e])
  {
    assert e.source.node in NodeIds(nodes) && e.target.node in NodeIds(nodes);
    var t' := RecordEdge(t, e);
    forall n | n in t'.outgoing ensures t'.outgoing[n] == Successors(edges + [e], n) {
      assert Successors(edges + [e], n)
          == Successors(edges, n) + if e.source.node == n then {e.target.node} else {};
    }
    assert (edges + [e])[..|edges|] == edges;
  }

  /** The tables after the first `k` edges. */
  ghost function Tables(nodes: seq<Node>, edges: seq<Edge>, k: nat): GraphTopology
    requires k <= |edges|
  {
    if k == 0 then NoEdges(nodes) else RecordEdge(Tables(nodes, edges, k - 1), edges[k - 1])
  }

  lemma EmptyDescribes(nodes: seq<Node>)
    ensures Describes(NoEdges(nodes), nodes, [])
  {
    forall n ensures Successors([], n) == {} {}
  }

  lemma {:induction false} TablesDescribe(nodes: seq<Node>, edges: seq<Edge>, k: nat)
    requires k <= |edges| && DeclaredUpTo(nodes, edges, k)
    ensures Describes(Tables(nodes, edges, k), nodes, edges[..k])
  {
    if k == 0 {
      assert edges[..0] == [];
      EmptyDescribes(nodes);
    } else {
      assert edges[..k] == edges[..k - 1] + [edges[k - 1]];
      TablesDescribe(nodes, edges, k - 1);
      RecordKeeps(Tables(nodes, edges, k - 1), nodes, edges[..k - 1], edges[k - 1]);
    }
  }

  /** `GraphTopology::from_graph`: succeeds exactly on structurally sound graphs. */
  method FromGraph(nodes: seq<Node>, edges: seq<Edge>) returns (r: Result<GraphTopology, ValidationError>)
    ensures r.Ok? <==> UniqueIds(nodes) && DeclaredUpTo(nodes, edges, |edges|)
    ensures r.Ok? ==> Describes(r.value, nodes, edges)
    ensures r.Err? ==> FirstDefect(nodes, edges, r.error)
  {
    var duplicate := RejectDuplicateNodes(nodes);
    if duplicate.Some? {
      return Err(DuplicateNode(duplicate.value));
    }
    var t := NoEdges(nodes);
    for k := 0 to |edges|
      invariant DeclaredUpTo(nodes, edges, k)
      invariant t == Tables(nodes, edges, k)
    {
      var bad := ValidateEdge(nodes, k, edges[k]);
      if bad.Some? {
        return Err(bad.value);
      }
      t := RecordEdge(t, edges[k]);
    }
    TablesDescribe(nodes, edges, |edges|);
    assert edges[..|edges|] == edges;
    r := Ok(t);
  }

  // ---- Degrees --------------------------------------------------------------------

  /** Some source is joined to `v` by two of the edges. */
  predicate ParallelInto(edges: seq<Edge>, v: NodeId) {
    edges != [] &&
    var init, last := edges[..|edges| - 1], edges[|edges| - 1];
    ParallelInto(init, v) || (last.target.node == v && last.source.node in Predecessors(init, v))
  }

  lemma {:induction false} TwinsAreParallel(edges: seq<Edge>, i: nat, j: nat)
    requires i < j < |edges| && Twins(edges, i, j)
    ensures ParallelInto(edges, edges[j].target.node)
  {
    var init := edges[..|edges| - 1];
    if j == |edges| - 1 {
      assert init[i] in init;
    } else {
      TwinsAreParallel(init, i, j);
    }
  }

  lemma {:induction false} ParallelHasTwins(edges: seq<Edge>, v: NodeId)
    requires ParallelInto(edges, v)
    ensures Parallel(edges)
  {
    var init, last := edges[..|edges| - 1], edges[|edges| - 1];
    if ParallelInto(init, v) {
      ParallelHasTwins(init, v);
      var i, j :| 0 <= i < j < |init| && Twins(init, i, j);
      assert Twins(edges, i, j);
    } else {
      var e :| e in init && e.target.node == v && e.source.node == last.source.node;
      var i :| 0 <= i < |init| && init[i] == e;
      assert Twins(edges, i, |edges| - 1);
    }
  }

  /** In-degree counts each predecessor once exactly when no two parallel edges enter `v`. */
  lemma {:induction false} DegreeBoundsPredecessors(edges: seq<Edge>, v: NodeId)
    ensures |Predecessors(edges, v)| <= InDegree(edges, v)
    ensures |Predecessors(edges, v)| == InDegree(edges, v) <==> !ParallelInto(edges, v)
  {
    if edges != [] {
      var init, last := edges[..|edges| - 1], edges[|edges| - 1];
      DegreeBoundsPredecessors(init, v);
      assert edges == init + [last];
      assert Predecessors(edges, v)
          == Predecessors(init, v) + if last.target.node == v then {last.source.node} else {};
    }
  }
}
