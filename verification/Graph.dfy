/** Static workflow graphs, directed walks through them, and reachability. */
module Graph {
  import opened Types

  type Slots = n: nat | n > 0 witness 1

  datatype EdgeCapacity = Default | Explicit(slots: Slots) {
    function Resolve(fallback: Slots): Slots {
      match this
      case Default => fallback
      case Explicit(slots) => slots
    }
  }

  datatype Edge = Edge(source: Endpoint, target: Endpoint, capacity: EdgeCapacity)

  datatype Node = Node(id: NodeId, inputs: seq<PortId>, outputs: seq<PortId>)

  datatype Workflow = Workflow(id: WorkflowId, nodes: seq<Node>, edges: seq<Edge>)

  predicate Declared(nodes: seq<Node>, id: NodeId) {
    exists n | n in nodes :: n.id == id
  }

  predicate DeclaredOutput(nodes: seq<Node>, ep: Endpoint) {
    exists n | n in nodes :: n.id == ep.node && ep.port in n.outputs
  }

  predicate DeclaredInput(nodes: seq<Node>, ep: Endpoint) {
    exists n | n in nodes :: n.id == ep.node && ep.port in n.inputs
  }

  predicate UniqueIds(nodes: seq<Node>) {
    forall i, j | 0 <= i < j < |nodes| :: nodes[i].id != nodes[j].id
  }

  predicate NoDuplicates<T(==)>(s: seq<T>) {
    forall i, j | 0 <= i < j < |s| :: s[i] != s[j]
  }

  /** What `NodeDefinition::new` guarantees of every node. */
  predicate DistinctPorts(n: Node) {
    NoDuplicates(n.inputs + n.outputs)
  }

  predicate EdgeDeclared(nodes: seq<Node>, e: Edge) {
    DeclaredOutput(nodes, e.source) && DeclaredInput(nodes, e.target)
  }

  /** Structural validity: what a constructed `WorkflowGraph` satisfies, cycles aside. */
  predicate Valid(w: Workflow) {
    && UniqueIds(w.nodes)
    && (forall n | n in w.nodes :: DistinctPorts(n))
    && (forall e | e in w.edges :: EdgeDeclared(w.nodes, e))
  }

  function NodeIds(nodes: seq<Node>): set<NodeId> {
    set n | n in nodes :: n.id
  }

  // ---- Walks ---------------------------------------------------------------------

  predicate Link(edges: seq<Edge>, a: NodeId, b: NodeId) {
    exists e | e in edges :: e.source.node == a && e.target.node == b
  }

  ghost predicate Walk(edges: seq<Edge>, p: seq<NodeId>) {
    forall i | 0 <= i < |p| - 1 :: Link(edges, p[i], p[i + 1])
  }

  /** A walk of at least one edge from `a` to `b`. */
  ghost predicate Path(edges: seq<Edge>, p: seq<NodeId>, a: NodeId, b: NodeId) {
    |p| >= 2 && p[0] == a && p[|p| - 1] == b && Walk(edges, p)
  }

  ghost predicate Reaches(edges: seq<Edge>, a: NodeId, b: NodeId) {
    exists p :: Path(edges, p, a, b)
  }

  ghost predicate Cyclic(edges: seq<Edge>) {
    exists a :: Reaches(edges, a, a)
  }

  /** Two different edges join the same ordered pair of nodes. */
  predicate Parallel(edges: seq<Edge>) {
    exists i, j | 0 <= i < j < |edges| :: Twins(edges, i, j)
  }

  predicate Twins(edges: seq<Edge>, i: nat, j: nat)
    requires i < |edges| && j < |edges|
  {
    edges[i].source.node == edges[j].source.node && edges[i].target.node == edges[j].target.node
  }

  lemma ReachStep(edges: seq<Edge>, a: NodeId, b: NodeId, c: NodeId)
    requires a == b || Reaches(edges, a, b)
    requires Link(edges, b, c)
    ensures Reaches(edges, a, c)
  {
    if a == b {
      assert Path(edges, [a, c], a, c);
    } else {
      var p :| Path(edges, p, a, b);
      assert Path(edges, p + [c], a, c);
    }
  }

  lemma {:induction false} WalkStaysInside(edges: seq<Edge>, p: seq<NodeId>, inside: set<NodeId>, k: nat)
    requires Walk(edges, p) && k < |p| && p[0] in inside
    requires forall a, b | a in inside && Link(edges, a, b) :: b in inside
    ensures p[k] in inside
  {
    if k > 0 {
      WalkStaysInside(edges, p, inside, k - 1);
      assert Link(edges, p[k - 1], p[k - 1 + 1]);
    }
  }

  // ---- Breadth-first reachability -------------------------------------------------

  /** Everything a breadth-first search from `origin` can put in its visited set. */
  function Universe(edges: seq<Edge>, origin: NodeId): set<NodeId> {
    {origin} + set e | e in edges :: e.target.node
  }

  ghost predicate Found(edges: seq<Edge>, origin: NodeId, visited: set<NodeId>) {
    forall v | v in visited :: v == origin || Reaches(edges, origin, v)
  }

  /** The inner loop over all edges: enqueue the unseen successors of `current`, or meet the goal. */
  method Expand(edges: seq<Edge>, current: NodeId, goal: NodeId, visited: set<NodeId>, queue: seq<NodeId>,
                ghost origin: NodeId)
    returns (hit: bool, visited': set<NodeId>, queue': seq<NodeId>)
    requires Found(edges, origin, visited) && current in visited
    requires visited <= Universe(edges, origin)
    ensures hit <==> Link(edges, current, goal)
    ensures hit ==> Reaches(edges, origin, goal)
    ensures !hit ==> Found(edges, origin, visited') && visited <= visited' <= Universe(edges, origin)
    ensures !hit ==> forall v :: v in queue' <==> v in queue || v in visited' - visited
    ensures !hit ==> forall b | Link(edges, current, b) :: b in visited'
    ensures visited' == visited ==> queue' == queue
  {
    visited', queue' := visited, queue;
    for i := 0 to |edges|
      invariant visited <= visited' <= Universe(edges, origin) && Found(edges, origin, visited')
      invariant visited' == visited ==> queue' == queue
      invariant forall v :: v in queue' <==> v in queue || v in visited' - visited
      invariant forall k | 0 <= k < i && edges[k].source.node == current ::
          edges[k].target.node in visited' && edges[k].target.node != goal
    {
      if edges[i].source.node == current {
        var next := edges[i].target.node;
        assert Link(edges, current, next);
        ReachStep(edges, origin, current, next);
        if next == goal {
          return true, visited', queue';
        }
        if next !in visited' {
          visited' := visited' + {next};
          queue' := queue' + [next];
        }
      }
    }
    hit := false;
  }

  /** Whether a directed path of at least one edge leads from `origin` to `goal`, on any graph. */
  method HasPath(w: Workflow, origin: NodeId, goal: NodeId) returns (found: bool)
    ensures found <==> Reaches(w.edges, origin, goal)
  {
    var edges := w.edges;
    var queue := [origin];
    var visited := {origin};
    while queue != []
      invariant visited <= Universe(edges, origin) && origin in visited
      invariant forall q | q in queue :: q in visited
      invariant Found(edges, origin, visited)
      invariant forall a, b | a in visited && a !in queue && Link(edges, a, b) :: b in visited && b != goal
      decreases |Universe(edges, origin) - visited|, |queue|
    {
      var current := queue[0];
      assert queue == [current] + queue[1..];
      var hit, visited', queue' := Expand(edges, current, goal, visited, queue[1..], origin);
      if hit {
        return true;
      }
      if visited' != visited {
        SubsetSize(Universe(edges, origin) - visited', Universe(edges, origin) - visited);
      }
      visited, queue := visited', queue';
    }
    ClosedSetMisses(edges, visited, origin, goal);
    found := false;
  }

  lemma ClosedSetMisses(edges: seq<Edge>, inside: set<NodeId>, origin: NodeId, goal: NodeId)
    requires origin in inside
    requires forall a, b | a in inside && Link(edges, a, b) :: b in inside && b != goal
    ensures !Reaches(edges, origin, goal)
  {
    forall p | |p| >= 2 && p[0] == origin && Walk(edges, p) ensures p[|p| - 1] != goal {
      WalkStaysInside(edges, p, inside, |p| - 2);
      assert Link(edges, p[|p| - 2], p[|p| - 2 + 1]);
    }
  }

  lemma SubsetSize<T>(a: set<T>, b: set<T>)
    requires a < b
    ensures |a| < |b|
  {
    assert b == a + (b - a);
    assert |b| == |a| + |b - a|;
  }
}
