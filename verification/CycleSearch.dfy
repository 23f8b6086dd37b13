/** Depth-first cycle reporting after a failed sort, and the public `topological_order`. */
module CycleSearch {
  import opened Types
  import opened Graph
  import opened Topology
  import opened Kahn
  import opened Order

  datatype VisitState = Visiting | Visited

  /** A closed directed walk: what a cycle report should be. */
  ghost predicate Loop(edges: seq<Edge>, c: seq<NodeId>) {
    |c| >= 2 && Path(edges, c, c[0], c[0])
  }

  /** Nodes are finished only after all their remaining successors; the latest comes first. */
  ghost predicate Settled(edges: seq<Edge>, remaining: set<NodeId>, finished: seq<NodeId>) {
    forall j | 0 <= j < |finished| :: Successors(edges, finished[j]) * remaining <= Elements(finished[j + 1..])
  }

  ghost predicate Search(
    edges: seq<Edge>, remaining: set<NodeId>,
    states: map<NodeId, VisitState>, stack: seq<NodeId>, finished: seq<NodeId>)
  {
    && Walk(edges, stack)
    && states.Keys <= remaining
    && (forall v :: v in states && states[v] == Visiting <==> v in stack)
    && (forall v :: v in states && states[v] == Visited <==> v in finished)
    && NoDuplicates(finished)
    && Settled(edges, remaining, finished)
  }

  lemma StackClosesLoop(edges: seq<Edge>, stack: seq<NodeId>, child: NodeId, k: nat)
    requires Walk(edges, stack) && k < |stack| && stack[k] == child
    requires Link(edges, stack[|stack| - 1], child)
    ensures Loop(edges, stack[k..] + [child])
  {
    var c := stack[k..] + [child];
    forall i | 0 <= i < |c| - 1 ensures Link(edges, c[i], c[i + 1]) {
      if i < |c| - 2 {
        assert Link(edges, stack[k + i], stack[k + i + 1]);
      }
    }
  }

  method CycleFromStack(stack: seq<NodeId>, child: NodeId) returns (k: nat)
    requires child in stack
    ensures k < |stack| && stack[k] == child && child !in stack[..k]
  {
    k := 0;
    while stack[k] != child
      invariant k < |stack| && child !in stack[..k]
      decreases |stack| - k
    {
      assert child in stack[k + 1..];
      k := k + 1;
    }
  }

  lemma PushKeeps(
    edges: seq<Edge>, remaining: set<NodeId>,
    states: map<NodeId, VisitState>, stack: seq<NodeId>, finished: seq<NodeId>, node: NodeId)
    requires Search(edges, remaining, states, stack, finished) && node in remaining && node !in states
    requires stack != [] ==> Link(edges, stack[|stack| - 1], node)
    ensures Search(edges, remaining, states[node := Visiting], stack + [node], finished)
  {
  }

  lemma PopKeeps(
    edges: seq<Edge>, remaining: set<NodeId>,
    states: map<NodeId, VisitState>, stack: seq<NodeId>, finished: seq<NodeId>, node: NodeId)
    requires Search(edges, remaining, states, stack + [node], finished) && node !in stack
    requires Successors(edges, node) * remaining <= Elements(finished)
    ensures Search(edges, remaining, states[node := Visited], stack, [node] + finished)
  {
    var finished' := [node] + finished;
    assert node in stack + [node] && node !in finished;
    forall i | 0 <= i < |stack| - 1 ensures Link(edges, stack[i], stack[i + 1]) {
      assert Link(edges, (stack + [node])[i], (stack + [node])[i + 1]);
    }
    forall j | 0 <= j < |finished'|
      ensures Successors(edges, finished'[j]) * remaining <= Elements(finished'[j + 1..])
    {
      assert finished'[j + 1..] == finished[j..];
      if j == 0 {
        assert finished[j..] == finished;
      }
    }
  }

  method Dfs(
    t: GraphTopology, node: NodeId, remaining: set<NodeId>, states: map<NodeId, VisitState>, stack: seq<NodeId>,
    ghost edges: seq<Edge>, ghost finished: seq<NodeId>)
    returns (states': map<NodeId, VisitState>, r: Option<seq<NodeId>>, ghost finished': seq<NodeId>)
    requires forall n | n in remaining :: n in t.outgoing && t.outgoing[n] == Successors(edges, n)
    requires Search(edges, remaining, states, stack, finished) && node in remaining && node !in states
    requires stack != [] ==> Link(edges, stack[|stack| - 1], node)
    ensures r.Some? ==> Loop(edges, r.value)
    ensures r.None? ==> Search(edges, remaining, states', stack, finished')
    ensures r.None? ==> states.Keys <= states'.Keys && Elements(finished) <= Elements(finished') && node in finished'
    decreases remaining - states.Keys
  {
    PushKeeps(edges, remaining, states, stack, finished, node);
    var path := stack + [node];
    assert node !in stack;
    states', finished' := states[node := Visiting], finished;
    var todo := t.outgoing[node];
    while todo != {}
      invariant todo <= Successors(edges, node)
      invariant Search(edges, remaining, states', path, finished')
      invariant states.Keys + {node} <= states'.Keys && Elements(finished) <= Elements(finished')
      invariant (Successors(edges, node) - todo) * remaining <= Elements(finished')
      decreases todo
    {
      var child := Least(todo);
      todo := todo - {child};
      if child in remaining {
        assert Link(edges, path[|path| - 1], child);
        if child !in states' {
          var found;
          states', found, finished' := Dfs(t, child, remaining, states', path, edges, finished');
          if found.Some? {
            r := found;
            return;
          }
        } else if states'[child] == Visiting {
          var k := CycleFromStack(path, child);
          StackClosesLoop(edges, path, child, k);
          r := Some(path[k..] + [child]);
          return;
        }
      }
    }
    PopKeeps(edges, remaining, states', stack, finished', node);
    states', finished' := states'[node := Visited], [node] + finished';
    r := None;
  }

  method Listing(s: set<NodeId>) returns (l: seq<NodeId>)
    ensures NoDuplicates(l) && Elements(l) == s && Ascending(l)
  {
    l := [];
    var todo := s;
    while todo != {}
      invariant todo <= s && NoDuplicates(l) && Elements(l) == s - todo
      invariant Ascending(l) && forall i, x | 0 <= i < |l| && x in todo :: Precedes(l[i], x)
      decreases todo
    {
      var x := Least(todo);
      assert x !in Elements(l);
      ElementsSnoc(l, x);
      l, todo := l + [x], todo - {x};
    }
  }

  /** When the search ends without a loop, the placed nodes followed by the finished ones are grounded. */
  lemma FinishedSearchIsAcyclic(nodes: seq<Node>, edges: seq<Edge>, order: seq<NodeId>, finished: seq<NodeId>)
    requires DeclaredUpTo(nodes, edges, |edges|)
    requires NoDuplicates(order) && Grounded(edges, order) && Elements(order) <= NodeIds(nodes)
    requires NoDuplicates(finished) && Elements(finished) == NodeIds(nodes) - Elements(order)
    requires Settled(edges, NodeIds(nodes) - Elements(order), finished)
    ensures !Cyclic(edges)
  {
    var all := order + finished;
    assert Elements(all) == Elements(order) + Elements(finished);
    assert NoDuplicates(all) by {
      forall i, j | 0 <= i < j < |all| ensures all[i] != all[j] {
        if j >= |order| {
          assert all[j] in Elements(finished);
        }
      }
    }
    forall j | 0 <= j < |all| ensures Predecessors(edges, all[j]) <= Elements(all[..j]) {
      if j < |order| {
        assert all[..j] == order[..j];
      } else {
        FinishedIsGrounded(nodes, edges, order, finished, j - |order|);
        assert all[..j] == order + finished[..j - |order|];
      }
    }
    GroundedIsAcyclic(nodes, edges, all);
  }

  lemma FinishedIsGrounded(nodes: seq<Node>, edges: seq<Edge>, order: seq<NodeId>, finished: seq<NodeId>, f: nat)
    requires DeclaredUpTo(nodes, edges, |edges|)
    requires NoDuplicates(finished) && Elements(finished) == NodeIds(nodes) - Elements(order)
    requires Settled(edges, NodeIds(nodes) - Elements(order), finished)
    requires f < |finished|
    ensures Predecessors(edges, finished[f]) <= Elements(order) + Elements(finished[..f])
  {
    forall u | u in Predecessors(edges, finished[f]) && u !in order ensures u in finished[..f] {
      var e :| e in edges && e.target.node == finished[f] && e.source.node == u;
      var k :| 0 <= k < |edges| && edges[k] == e;
      assert EdgeDeclared(nodes, edges[k]);
      assert u in Elements(finished);
      var g :| 0 <= g < |finished| && finished[g] == u;
      assert finished[f] in Elements(finished) && finished[f] in Successors(edges, u);
      assert finished[f] in Elements(finished[g + 1..]);
    }
  }

  lemma IdsAreNodes(t: GraphTopology, nodes: seq<Node>, edges: seq<Edge>)
    requires Describes(t, nodes, edges)
    ensures Elements(t.ids) == NodeIds(nodes)
  {
    forall n | n in nodes ensures n.id in t.ids {
      var i :| 0 <= i < |nodes| && nodes[i] == n;
      assert t.ids[i] == n.id;
    }
  }

  lemma SearchIsExhaustive(
    edges: seq<Edge>, ids: seq<NodeId>, remaining: set<NodeId>, states: map<NodeId, VisitState>, finished: seq<NodeId>)
    requires Search(edges, remaining, states, [], finished)
    requires remaining <= Elements(ids) && Elements(ids[..|ids|]) * remaining <= Elements(finished)
    ensures Elements(finished) == remaining
  {
    assert ids[..|ids|] == ids;
    assert forall id | id in finished :: id in states;
  }

  /** The outer loop of `find_cycle` over all declared nodes. */
  method SearchAll(t: GraphTopology, remaining: set<NodeId>, ghost edges: seq<Edge>)
    returns (r: Option<seq<NodeId>>, ghost finished: seq<NodeId>)
    requires forall n | n in remaining :: n in t.outgoing && t.outgoing[n] == Successors(edges, n)
    requires remaining <= Elements(t.ids)
    ensures r.Some? ==> Loop(edges, r.value)
    ensures r.None? ==>
      NoDuplicates(finished) && Elements(finished) == remaining && Settled(edges, remaining, finished)
  {
    var states: map<NodeId, VisitState> := map[];
    finished := [];
    for i := 0 to |t.ids|
      invariant Search(edges, remaining, states, [], finished)
      invariant Elements(t.ids[..i]) * remaining <= Elements(finished)
    {
      if t.ids[i] in remaining && t.ids[i] !in states {
        states, r, finished := Dfs(t, t.ids[i], remaining, states, [], edges, finished);
        if r.Some? {
          return;
        }
      }
    }
    SearchIsExhaustive(edges, t.ids, remaining, states, finished);
    r := None;
  }

  /** `find_cycle`: a real loop whenever the graph is cyclic, otherwise the list of unplaced nodes. */
  method FindCycle(t: GraphTopology, order: seq<NodeId>, ghost nodes: seq<Node>, ghost edges: seq<Edge>)
    returns (cycle: seq<NodeId>)
    requires DeclaredUpTo(nodes, edges, |edges|) && Describes(t, nodes, edges)
    requires Elements(order) <= NodeIds(nodes) && NoDuplicates(order) && Grounded(edges, order)
    ensures Cyclic(edges) ==> Loop(edges, cycle)
    ensures !Cyclic(edges) ==>
      NoDuplicates(cycle) && Ascending(cycle) && Elements(cycle) == NodeIds(nodes) - Elements(order)
  {
    IdsAreNodes(t, nodes, edges);
    var remaining := Elements(t.ids) - Elements(order);
    ghost var finished;
    var found;
    found, finished := SearchAll(t, remaining, edges);
    if found.Some? {
      assert Reaches(edges, found.value[0], found.value[0]);
      cycle := found.value;
    } else {
      FinishedSearchIsAcyclic(nodes, edges, order, finished);
      cycle := Listing(remaining);
    }
  }

  /** `WorkflowGraph::topological_order`, with the exact condition under which it succeeds. */
  method TopologicalSort(w: Workflow) returns (r: Result<seq<NodeId>, ValidationError>)
    ensures r.Ok? <==>
      && UniqueIds(w.nodes) && DeclaredUpTo(w.nodes, w.edges, |w.edges|)
      && !Cyclic(w.edges) && !Parallel(w.edges)
    ensures r.Ok? ==> LeastOrder(w.nodes, w.edges, r.value)
    ensures r.Err? && r.error.CycleDetected? ==> Cyclic(w.edges) || Parallel(w.edges)
    ensures r.Err? && r.error.CycleDetected? && Cyclic(w.edges) ==> Loop(w.edges, r.error.cycle)
    ensures r.Err? && !r.error.CycleDetected? ==> FirstDefect(w.nodes, w.edges, r.error)
  {
    var parsed := FromGraph(w.nodes, w.edges);
    if parsed.Err? {
      return Err(parsed.error);
    }
    var t := parsed.value;
    var order := Sort(t, w.nodes, w.edges);
    if |order| == |t.ids| {
      return Ok(order);
    }
    var cycle := FindCycle(t, order, w.nodes, w.edges);
    r := Err(CycleDetected(cycle));
  }

  /** Two edges between the same two nodes: acyclic, declared, and still reported as a cycle. */
  lemma ParallelEdgesRejected()
    ensures
      var w := Workflow("w",
        [Node("a", [], ["x", "y"]), Node("b", ["p", "q"], [])],
        [Edge(Endpoint("a", "x"), Endpoint("b", "p"), Default),
         Edge(Endpoint("a", "y"), Endpoint("b", "q"), Default)]);
      Valid(w) && !Cyclic(w.edges) && Parallel(w.edges)
  {
    var a, b := Node("a", [], ["x", "y"]), Node("b", ["p", "q"], []);
    var e := Edge(Endpoint("a", "x"), Endpoint("b", "p"), Default);
    var f := Edge(Endpoint("a", "y"), Endpoint("b", "q"), Default);
    assert a in [a, b] && b in [a, b];
    assert Twins([e, f], 0, 1);
    OneWayIsAcyclic([e, f]);
  }

  lemma OneWayIsAcyclic(edges: seq<Edge>)
    requires forall e, f | e in edges && f in edges :: e.source.node != f.target.node
    ensures !Cyclic(edges)
  {
    forall p | |p| >= 2 && Walk(edges, p) ensures p[0] != p[|p| - 1] {
      assert Link(edges, p[0], p[0 + 1]);
      assert Link(edges, p[|p| - 2], p[|p| - 2 + 1]);
    }
  }
}
