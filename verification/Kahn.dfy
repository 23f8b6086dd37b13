/** Kahn's topological order over the tables of `Topology`, and exactly when it succeeds. */
module Kahn {
  import opened Types
  import opened Graph
  import opened Topology
  import opened Order

  function Elements<T>(s: seq<T>): set<T> {
    set x | x in s
  }

  /** A listing of all nodes, each once, with the source of every edge before its target. */
  ghost predicate TopologicalOrder(nodes: seq<Node>, edges: seq<Edge>, order: seq<NodeId>) {
    && NoDuplicates(order)
    && Elements(order) == NodeIds(nodes)
    && forall e, i, j | e in edges && 0 <= i < |order| && 0 <= j < |order|
         && order[i] == e.source.node && order[j] == e.target.node :: i < j
  }

  // ---- Walks against an order -----------------------------------------------------

  /** Every node listed has all its predecessors earlier in the list. */
  ghost predicate Grounded(edges: seq<Edge>, order: seq<NodeId>) {
    forall j | 0 <= j < |order| :: Predecessors(edges, order[j]) <= Elements(order[..j])
  }

  /** A walk that ends at position `j` of a grounded list starts strictly before `j`. */
  lemma {:induction false} GroundedWalk(edges: seq<Edge>, order: seq<NodeId>, p: seq<NodeId>, j: nat)
    requires Grounded(edges, order) && Walk(edges, p) && |p| >= 2
    requires j < |order| && p[|p| - 1] == order[j]
    ensures p[0] in order[..j]
  {
    var n := |p|;
    assert Link(edges, p[n - 2], p[n - 2 + 1]);
    assert p[n - 2] in Predecessors(edges, order[j]);
    assert p[n - 2] in Elements(order[..j]);
    if n > 2 {
      var i :| 0 <= i < j && order[i] == p[n - 2];
      GroundedWalk(edges, order, p[..n - 1], i);
    }
  }

  lemma GroundedIsAcyclic(nodes: seq<Node>, edges: seq<Edge>, order: seq<NodeId>)
    requires DeclaredUpTo(nodes, edges, |edges|)
    requires Grounded(edges, order) && NoDuplicates(order) && Elements(order) == NodeIds(nodes)
    ensures !Cyclic(edges)
    ensures TopologicalOrder(nodes, edges, order)
  {
    forall a, p | Path(edges, p, a, a) ensures false {
      assert Link(edges, p[0], p[0 + 1]);
      var e :| e in edges && e.source.node == a;
      var k :| 0 <= k < |edges| && edges[k] == e;
      assert a in NodeIds(nodes);
      var j :| 0 <= j < |order| && order[j] == a;
      GroundedWalk(edges, order, p, j);
    }
    forall e, i, j | e in edges && 0 <= i < |order| && 0 <= j < |order|
      && order[i] == e.source.node && order[j] == e.target.node ensures i < j {
      assert e.source.node in Predecessors(edges, order[j]);
      assert order[i] in Elements(order[..j]);
    }
  }

  // ---- A set in which every node has a predecessor contains a cycle ---------------

  lemma {:induction false} Pigeonhole<T>(p: seq<T>, r: set<T>)
    requires forall x | x in p :: x in r
    requires |p| > |r|
    ensures exists i, j :: 0 <= i < j < |p| && p[i] == p[j]
  {
    if p[0] in p[1..] {
      var j :| 0 <= j < |p| - 1 && p[1..][j] == p[0];
      assert p[0] == p[j + 1];
    } else {
      Pigeonhole(p[1..], r - {p[0]});
      var i, j :| 0 <= i < j < |p| - 1 && p[1..][i] == p[1..][j];
      assert p[i + 1] == p[j + 1];
    }
  }

  ghost predicate Preceded(edges: seq<Edge>, r: set<NodeId>, v: NodeId) {
    exists u :: u in r && Link(edges, u, v)
  }

  ghost predicate Sourceless(edges: seq<Edge>, r: set<NodeId>) {
    forall v {:trigger Preceded(edges, r, v)} | v in r :: Preceded(edges, r, v)
  }

  lemma {:induction false} WalkBack(edges: seq<Edge>, r: set<NodeId>, n: nat) returns (p: seq<NodeId>)
    requires r != {}
    requires Sourceless(edges, r)
    ensures |p| == n + 1 && Walk(edges, p) && forall x | x in p :: x in r
  {
    if n == 0 {
      var v :| v in r;
      p := [v];
    } else {
      var q := WalkBack(edges, r, n - 1);
      assert q[0] in r;
      assert Preceded(edges, r, q[0]);
      var u :| u in r && Link(edges, u, q[0]);
      p := [u] + q;
    }
  }

  lemma SourcelessSetIsCyclic(edges: seq<Edge>, r: set<NodeId>)
    requires r != {}
    requires Sourceless(edges, r)
    ensures Cyclic(edges)
  {
    var p := WalkBack(edges, r, |r|);
    Pigeonhole(p, r);
    var i, j :| 0 <= i < j < |p| && p[i] == p[j];
    assert Path(edges, p[i..j + 1], p[i], p[i]);
    assert Reaches(edges, p[i], p[i]);
  }

  lemma GroundedGrows(edges: seq<Edge>, order: seq<NodeId>, u: NodeId)
    requires Grounded(edges, order) && Predecessors(edges, u) <= Elements(order)
    ensures Grounded(edges, order + [u])
  {
    var order' := order + [u];
    forall j | 0 <= j < |order'| ensures Predecessors(edges, order'[j]) <= Elements(order'[..j]) {
      assert order'[..j] == order[..j];
    }
  }

  lemma PredecessorsDeclared(nodes: seq<Node>, edges: seq<Edge>, v: NodeId)
    requires DeclaredUpTo(nodes, edges, |edges|)
    ensures Predecessors(edges, v) <= NodeIds(nodes)
  {
    forall e | e in edges ensures e.source.node in NodeIds(nodes) {
      var k :| 0 <= k < |edges| && edges[k] == e;
      assert EdgeDeclared(nodes, edges[k]);
    }
  }

  /** Every acyclic graph has a topological order, parallel edges or not: a grounded list extends to one. */
  lemma {:induction false} AcyclicHasOrder(nodes: seq<Node>, edges: seq<Edge>, begun: seq<NodeId>)
    returns (order: seq<NodeId>)
    requires DeclaredUpTo(nodes, edges, |edges|) && !Cyclic(edges)
    requires Grounded(edges, begun) && NoDuplicates(begun) && Elements(begun) <= NodeIds(nodes)
    ensures TopologicalOrder(nodes, edges, order)
    decreases NodeIds(nodes) - Elements(begun)
  {
    var left := NodeIds(nodes) - Elements(begun);
    if left == {} {
      order := begun;
      assert NodeIds(nodes) == Elements(begun) + left;
      GroundedIsAcyclic(nodes, edges, order);
    } else {
      if Sourceless(edges, left) {
        SourcelessSetIsCyclic(edges, left);
      }
      var v :| v in left && !Preceded(edges, left, v);
      PredecessorsDeclared(nodes, edges, v);
      forall u | u in Predecessors(edges, v) ensures u in Elements(begun) {
        assert Link(edges, u, v);
      }
      GroundedGrows(edges, begun, v);
      ElementsSnoc(begun, v);
      order := AcyclicHasOrder(nodes, edges, begun + [v]);
    }
  }

  // ---- The algorithm --------------------------------------------------------------

  ghost predicate Counted(edges: seq<Edge>, indegree: map<NodeId, nat>, placed: set<NodeId>) {
    forall v | v in indegree :: indegree[v] == InDegree(edges, v) - |Predecessors(edges, v) * placed|
  }

  ghost predicate Listed(edges: seq<Edge>, order: seq<NodeId>) {
    NoDuplicates(order) && Grounded(edges, order) && forall v | v in order :: !ParallelInto(edges, v)
  }

  ghost predicate IsReady(indegree: map<NodeId, nat>, ready: set<NodeId>, order: seq<NodeId>) {
    forall v :: v in ready <==> v in indegree && v !in order && indegree[v] == 0
  }

  ghost predicate Progress(edges: seq<Edge>, indegree: map<NodeId, nat>, ready: set<NodeId>, order: seq<NodeId>) {
    && Elements(order) <= indegree.Keys
    && Listed(edges, order)
    && Counted(edges, indegree, Elements(order))
    && IsReady(indegree, ready, order)
  }

  lemma CommonSize<T>(a: set<T>, b: set<T>)
    ensures |a * b| <= |a|
    ensures |a * b| == |a| ==> a <= b
  {
    assert a == a * b + (a - b);
    assert |a| == |a * b| + |a - b|;
  }

  lemma CommonGrows<T>(a: set<T>, b: set<T>, u: T)
    requires u !in b
    ensures |a * (b + {u})| == |a * b| + if u in a then 1 else 0
  {
    assert a * (b + {u}) == a * b + if u in a then {u} else {};
  }

  /** A node whose count has reached zero has all its predecessors placed, none of them twice. */
  lemma ReadyIsGrounded(edges: seq<Edge>, indegree: map<NodeId, nat>, ready: set<NodeId>, order: seq<NodeId>, u: NodeId)
    requires Progress(edges, indegree, ready, order) && u in ready
    ensures Predecessors(edges, u) <= Elements(order) && !ParallelInto(edges, u)
    ensures forall c | c in Successors(edges, u) && c in indegree :: indegree[c] > 0 && c !in order && c != u
  {
    DegreeBoundsPredecessors(edges, u);
    CommonSize(Predecessors(edges, u), Elements(order));
    forall c | c in Successors(edges, u) && c in indegree ensures indegree[c] > 0 && c !in order && c != u {
      assert u in Predecessors(edges, c);
      DegreeBoundsPredecessors(edges, c);
      CommonSize(Predecessors(edges, c), Elements(order));
      assert !(Predecessors(edges, c) <= Elements(order));
      assert forall j | 0 <= j < |order| :: Elements(order[..j]) <= Elements(order);
    }
  }

  /** The inner loop over the children of a placed node. */
  method Discount(indegree: map<NodeId, nat>, ready: set<NodeId>, children: set<NodeId>)
    returns (indegree': map<NodeId, nat>, ready': set<NodeId>)
    requires children <= indegree.Keys
    requires forall c | c in children :: indegree[c] > 0
    ensures Discounted(indegree, indegree', ready, ready', children)
  {
    indegree', ready' := indegree, ready;
    var todo := children;
    while todo != {}
      invariant todo <= children
      invariant indegree'.Keys == indegree.Keys
      invariant forall v | v in indegree ::
          indegree[v] == indegree'[v] + if v in children - todo then 1 else 0
      invariant forall v :: v in ready' <==> v in ready || (v in children - todo && indegree'[v] == 0)
      decreases todo
    {
      var c :| c in todo;
      todo := todo - {c};
      indegree' := indegree'[c := indegree'[c] - 1];
      if indegree'[c] == 0 {
        ready' := ready' + {c};
      }
    }
  }

  ghost predicate Discounted(
    indegree: map<NodeId, nat>, indegree': map<NodeId, nat>, ready: set<NodeId>, ready': set<NodeId>,
    children: set<NodeId>)
  {
    && indegree.Keys == indegree'.Keys && children <= indegree.Keys
    && (forall v | v in indegree :: indegree[v] == indegree'[v] + if v in children then 1 else 0)
    && (forall v :: v in ready' <==> v in ready || (v in children && indegree'[v] == 0))
  }

  lemma ReadyGrows(
    indegree: map<NodeId, nat>, indegree': map<NodeId, nat>, ready: set<NodeId>, ready': set<NodeId>,
    children: set<NodeId>, order: seq<NodeId>, u: NodeId)
    requires IsReady(indegree, ready, order) && u in ready
    requires Discounted(indegree, indegree', ready - {u}, ready', children)
    requires forall c | c in children :: c !in order && c != u
    ensures IsReady(indegree', ready', order + [u])
  {
  }

  lemma PlacedKeepsProgress(
    edges: seq<Edge>, indegree: map<NodeId, nat>, ready: set<NodeId>, order: seq<NodeId>, u: NodeId,
    indegree': map<NodeId, nat>, ready': set<NodeId>)
    requires Progress(edges, indegree, ready, order) && u in ready && u !in order && u in indegree
    requires Predecessors(edges, u) <= Elements(order) && !ParallelInto(edges, u)
    requires forall c | c in Successors(edges, u) :: c !in order && c != u
    requires Discounted(indegree, indegree', ready - {u}, ready', Successors(edges, u))
    ensures Progress(edges, indegree', ready', order + [u])
  {
    ListedGrows(edges, order, u);
    ReadyGrows(indegree, indegree', ready, ready', Successors(edges, u), order, u);
    CountedGrows(edges, indegree, indegree', Elements(order), u);
    ElementsSnoc(order, u);
  }

  lemma ElementsSnoc<T>(s: seq<T>, x: T)
    ensures Elements(s + [x]) == Elements(s) + {x}
  {
  }

  lemma ListedGrows(edges: seq<Edge>, order: seq<NodeId>, u: NodeId)
    requires Listed(edges, order) && u !in order
    requires Predecessors(edges, u) <= Elements(order) && !ParallelInto(edges, u)
    ensures Listed(edges, order + [u])
  {
    GroundedGrows(edges, order, u);
  }

  lemma CountedGrows(
    edges: seq<Edge>, indegree: map<NodeId, nat>, indegree': map<NodeId, nat>, placed: set<NodeId>, u: NodeId)
    requires Counted(edges, indegree, placed) && u !in placed && indegree.Keys == indegree'.Keys
    requires forall v | v in indegree ::
        indegree[v] == indegree'[v] + if v in Successors(edges, u) then 1 else 0
    ensures Counted(edges, indegree', placed + {u})
  {
    forall v | v in indegree'
      ensures indegree'[v] == InDegree(edges, v) - |Predecessors(edges, v) * (placed + {u})|
    {
      CommonGrows(Predecessors(edges, v), placed, u);
      assert u in Predecessors(edges, v) <==> v in Successors(edges, u);
    }
  }

  lemma MissingPredecessor(
    nodes: seq<Node>, edges: seq<Edge>, indegree: map<NodeId, nat>, placed: set<NodeId>, v: NodeId)
    requires DeclaredUpTo(nodes, edges, |edges|) && Counted(edges, indegree, placed)
    requires v in indegree && indegree[v] > 0 && !ParallelInto(edges, v)
    ensures Preceded(edges, NodeIds(nodes) - placed, v)
  {
    DegreeBoundsPredecessors(edges, v);
    var preds := Predecessors(edges, v);
    assert preds <= placed ==> preds * placed == preds;
    var u :| u in preds && u !in placed;
    var e :| e in edges && e.target.node == v && e.source.node == u;
    var k :| 0 <= k < |edges| && edges[k] == e;
    assert EdgeDeclared(nodes, edges[k]);
    assert u in NodeIds(nodes) - placed && Link(edges, u, v);
  }

  /** With nothing ready and nodes left over, the graph is cyclic or has parallel edges. */
  lemma StuckMeansDefect(nodes: seq<Node>, edges: seq<Edge>, indegree: map<NodeId, nat>, order: seq<NodeId>)
    requires DeclaredUpTo(nodes, edges, |edges|) && indegree.Keys == NodeIds(nodes)
    requires Progress(edges, indegree, {}, order)
    requires Elements(order) != NodeIds(nodes)
    ensures Cyclic(edges) || Parallel(edges)
  {
    if !Parallel(edges) {
      var r := NodeIds(nodes) - Elements(order);
      assert r != {};
      forall v | v in r ensures Preceded(edges, r, v) {
        if ParallelInto(edges, v) {
          ParallelHasTwins(edges, v);
        }
        MissingPredecessor(nodes, edges, indegree, Elements(order), v);
      }
      SourcelessSetIsCyclic(edges, r);
    }
  }

  lemma UniqueCount(nodes: seq<Node>, order: seq<NodeId>)
    requires UniqueIds(nodes) && NoDuplicates(order) && Elements(order) <= NodeIds(nodes)
    ensures |order| == |nodes| <==> Elements(order) == NodeIds(nodes)
  {
    var ids := seq(|nodes|, i requires 0 <= i < |nodes| => nodes[i].id);
    assert NodeIds(nodes) == Elements(ids) by {
      forall n | n in nodes ensures n.id in Elements(ids) {
        var i :| 0 <= i < |nodes| && nodes[i] == n;
        assert ids[i] == n.id;
      }
    }
    ElementCount(ids);
    ElementCount(order);
    if |order| == |nodes| && Elements(order) != NodeIds(nodes) {
      SubsetSize(Elements(order), NodeIds(nodes));
    }
  }

  lemma {:induction false} ElementCount<T>(s: seq<T>)
    requires NoDuplicates(s)
    ensures |Elements(s)| == |s|
  {
    if s != [] {
      var init := s[..|s| - 1];
      ElementCount(init);
      ElementsSnoc(init, s[|s| - 1]);
      assert s == init + [s[|s| - 1]] && s[|s| - 1] !in Elements(init);
    }
  }

  // ---- The order is the least one -------------------------------------------------

  /** `v` may come next after the nodes of `placed`. */
  ghost predicate Available(nodes: seq<Node>, edges: seq<Edge>, placed: seq<NodeId>, v: NodeId) {
    && v in NodeIds(nodes)
    && v !in placed
    && Predecessors(edges, v) <= Elements(placed)
    && !ParallelInto(edges, v)
  }

  /** Each node listed is the least of those that could have come in its place. */
  ghost predicate Greedy(nodes: seq<Node>, edges: seq<Edge>, order: seq<NodeId>) {
    forall k, v | 0 <= k < |order| && Available(nodes, edges, order[..k], v) :: v == order[k] || Precedes(order[k], v)
  }

  lemma AvailableIsReady(
    nodes: seq<Node>, edges: seq<Edge>, indegree: map<NodeId, nat>, ready: set<NodeId>, order: seq<NodeId>, v: NodeId)
    requires indegree.Keys == NodeIds(nodes) && Progress(edges, indegree, ready, order)
    requires Available(nodes, edges, order, v)
    ensures v in ready
  {
    DegreeBoundsPredecessors(edges, v);
    assert Predecessors(edges, v) * Elements(order) == Predecessors(edges, v);
  }

  lemma GreedyGrows(
    nodes: seq<Node>, edges: seq<Edge>, indegree: map<NodeId, nat>, ready: set<NodeId>, order: seq<NodeId>, u: NodeId)
    requires indegree.Keys == NodeIds(nodes) && Progress(edges, indegree, ready, order)
    requires Greedy(nodes, edges, order) && IsLeast(u, ready)
    ensures Greedy(nodes, edges, order + [u])
  {
    var order' := order + [u];
    forall k, v | 0 <= k < |order'| && Available(nodes, edges, order'[..k], v)
      ensures v == order'[k] || Precedes(order'[k], v)
    {
      if k < |order| {
        assert order'[..k] == order[..k];
      } else {
        assert order'[..k] == order;
        AvailableIsReady(nodes, edges, indegree, ready, order, v);
      }
    }
  }

  lemma NextIsAvailable(nodes: seq<Node>, edges: seq<Edge>, order: seq<NodeId>, k: nat)
    requires DeclaredUpTo(nodes, edges, |edges|) && !Parallel(edges)
    requires TopologicalOrder(nodes, edges, order) && k < |order|
    ensures Available(nodes, edges, order[..k], order[k])
  {
    var v := order[k];
    PredecessorsDeclared(nodes, edges, v);
    forall u | u in Predecessors(edges, v) ensures u in order[..k] {
      var e :| e in edges && e.target.node == v && e.source.node == u;
      assert u in Elements(order);
      var j :| 0 <= j < |order| && order[j] == u;
      assert j < k;
    }
    if ParallelInto(edges, v) {
      ParallelHasTwins(edges, v);
    }
    assert v in Elements(order);
  }

  /** A greedy topological order comes before every other one. */
  lemma GreedyIsLeast(nodes: seq<Node>, edges: seq<Edge>, order: seq<NodeId>, other: seq<NodeId>)
    requires DeclaredUpTo(nodes, edges, |edges|) && !Parallel(edges)
    requires Greedy(nodes, edges, order) && TopologicalOrder(nodes, edges, order)
    requires TopologicalOrder(nodes, edges, other) && other != order
    ensures ListedBefore(order, other)
  {
    ElementCount(order);
    ElementCount(other);
    var k := FirstDifference(order, other);
    NextIsAvailable(nodes, edges, other, k);
  }

  /** The topological order that comes before all others, by the order of identifiers. */
  ghost predicate LeastOrder(nodes: seq<Node>, edges: seq<Edge>, order: seq<NodeId>) {
    && TopologicalOrder(nodes, edges, order)
    && forall other | TopologicalOrder(nodes, edges, other) :: other == order || ListedBefore(order, other)
  }

  /** The main loop: the maximal grounded listing, complete iff the graph is acyclic without parallel edges. */
  method Sort(t: GraphTopology, ghost nodes: seq<Node>, ghost edges: seq<Edge>) returns (order: seq<NodeId>)
    requires UniqueIds(nodes) && DeclaredUpTo(nodes, edges, |edges|) && Describes(t, nodes, edges)
    ensures Elements(order) <= NodeIds(nodes) && NoDuplicates(order) && Grounded(edges, order)
    ensures |order| == |t.ids| <==> !Cyclic(edges) && !Parallel(edges)
    ensures |order| == |t.ids| ==> LeastOrder(nodes, edges, order)
  {
    var indegree := t.indegree;
    var ready := set v | v in indegree && indegree[v] == 0;
    order := [];
    forall v ensures Predecessors(edges, v) * Elements<NodeId>([]) == {} {}
    while ready != {}
      invariant indegree.Keys == NodeIds(nodes)
      invariant Progress(edges, indegree, ready, order)
      invariant Greedy(nodes, edges, order)
      decreases NodeIds(nodes) - Elements(order)
    {
      var u := Least(ready);
      GreedyGrows(nodes, edges, indegree, ready, order, u);
      ReadyIsGrounded(edges, indegree, ready, order, u);
      SuccessorsDeclared(nodes, edges, u);
      var indegree', ready' := Discount(indegree, ready - {u}, t.outgoing[u]);
      PlacedKeepsProgress(edges, indegree, ready, order, u, indegree', ready');
      assert u in Elements(order + [u]) && u !in Elements(order);
      indegree, ready, order := indegree', ready', order + [u];
    }
    UniqueCount(nodes, order);
    if |order| == |t.ids| {
      GroundedIsAcyclic(nodes, edges, order);
      ListedHasNoTwins(nodes, edges, order);
      forall other | TopologicalOrder(nodes, edges, other) && other != order ensures ListedBefore(order, other) {
        GreedyIsLeast(nodes, edges, order, other);
      }
    } else {
      StuckMeansDefect(nodes, edges, indegree, order);
    }
  }

  lemma ListedHasNoTwins(nodes: seq<Node>, edges: seq<Edge>, order: seq<NodeId>)
    requires DeclaredUpTo(nodes, edges, |edges|)
    requires Listed(edges, order) && Elements(order) == NodeIds(nodes)
    ensures !Parallel(edges)
  {
    forall i, j | 0 <= i < j < |edges| ensures !Twins(edges, i, j) {
      assert EdgeDeclared(nodes, edges[j]);
      assert edges[j].target.node in Elements(order);
      if Twins(edges, i, j) {
        TwinsAreParallel(edges, i, j);
      }
    }
  }

  lemma SuccessorsDeclared(nodes: seq<Node>, edges: seq<Edge>, u: NodeId)
    requires DeclaredUpTo(nodes, edges, |edges|)
    ensures Successors(edges, u) <= NodeIds(nodes)
  {
    forall e | e in edges ensures e.target.node in NodeIds(nodes) {
      var k :| 0 <= k < |edges| && edges[k] == e;
    }
  }
}
