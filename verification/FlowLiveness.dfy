/**
 Under every fair schedule of an acyclic workflow all nodes finish, whatever they send and however they fail:
 in topological order, one node after the other runs out of work.
 */
module FlowLiveness {
  import opened Types
  import opened Graph
  import opened Kahn
  import opened Edges
  import opened Wiring
  import opened Network
  import opened Deadlock
  import opened Flow

  // ---- The work a node has left ---------------------------------------------------

  /** Packets queued on the first `k` edges that lead into `n`. */
  function QueuedInto(edges: seq<Edge>, es: seq<EdgeState>, n: NodeId, k: nat): nat
    requires k <= |edges| == |es|
  {
    if k == 0 then 0
    else QueuedInto(edges, es, n, k - 1) + if edges[k - 1].target.node == n then |es[k - 1].queue| else 0
  }

  lemma {:induction false} QueuedFrame(edges: seq<Edge>, es: seq<EdgeState>, es': seq<EdgeState>, n: NodeId, k: nat)
    requires k <= |edges| == |es| == |es'|
    requires forall i | 0 <= i < k && edges[i].target.node == n :: |es[i].queue| == |es'[i].queue|
    ensures QueuedInto(edges, es, n, k) == QueuedInto(edges, es', n, k)
  {
    if k > 0 {
      QueuedFrame(edges, es, es', n, k - 1);
    }
  }

  lemma {:induction false} QueuedDrops(
    edges: seq<Edge>, es: seq<EdgeState>, es': seq<EdgeState>, n: NodeId, k: nat, j: nat)
    requires j < k <= |edges| == |es| == |es'| && edges[j].target.node == n
    requires |es[j].queue| == |es'[j].queue| + 1
    requires forall i | 0 <= i < |es| && i != j :: es[i] == es'[i]
    ensures QueuedInto(edges, es, n, k) == QueuedInto(edges, es', n, k) + 1
  {
    if j == k - 1 {
      QueuedFrame(edges, es, es', n, k - 1);
    } else {
      QueuedDrops(edges, es, es', n, k - 1, j);
    }
  }

  function Rank(run: Run, sys: Sys, n: NodeId): nat {
    if !Active(run, sys.net, n) then 0
    else if PhaseOf(sys, n).Sending? && PhaseOf(sys, n).closing then 1 else 2
  }

  /** Packets left to receive from the queues. */
  function Queued(run: Run, sys: Sys, n: NodeId): nat
    requires Shape(run, sys.net)
  {
    QueuedInto(run.w.edges, sys.net.edges, n, |run.w.edges|)
  }

  /** Packets left to send before the next receive. */
  function Unsent(sys: Sys, n: NodeId): nat {
    match PhaseOf(sys, n)
    case Receiving(_) => 0
    case Sending(_, todo, _) => |todo| + 1
  }

  /** Less work left: nearer the end, or fewer packets to receive, or fewer to send. */
  predicate Less(run: Run, s: Sys, t: Sys, n: NodeId)
    requires Shape(run, s.net) && Shape(run, t.net)
  {
    || Rank(run, s, n) < Rank(run, t, n)
    || (&& Rank(run, s, n) == Rank(run, t, n)
        && (|| Queued(run, s, n) < Queued(run, t, n)
            || (Queued(run, s, n) == Queued(run, t, n) && Unsent(s, n) < Unsent(t, n))))
  }

  predicate Same(run: Run, s: Sys, t: Sys, n: NodeId)
    requires Shape(run, s.net) && Shape(run, t.net)
  {
    Rank(run, s, n) == Rank(run, t, n) && Queued(run, s, n) == Queued(run, t, n) && Unsent(s, n) == Unsent(t, n)
  }

  lemma ReceiveShortens(run: Run, net: Net, n: NodeId)
    requires Shape(run, net) && PollAny(InputPolls(run, net, n)).AnyReady?
    ensures
      var at := Endpoint(n, InputsOf(run.w.nodes, n)[PollAny(InputPolls(run, net, n)).port]);
      QueuedInto(run.w.edges, DoReceive(run, net, at).edges, n, |run.w.edges|)
      < QueuedInto(run.w.edges, net.edges, n, |run.w.edges|)
  {
    var ports, poll := InputsOf(run.w.nodes, n), PollAny(InputPolls(run, net, n));
    var at := Endpoint(n, ports[poll.port]);
    IncidentMeaning(run.w.edges, Input, at, |run.w.edges|);
    var idx := Incident(run.w.edges, Input, at);
    var i := idx[poll.index];
    assert i in idx;
    var net' := DoReceive(run, net, at);
    assert net'.edges == net.edges[i := net.edges[i].Receive()];
    QueuedDrops(run.w.edges, net.edges, net'.edges, n, |run.w.edges|, i);
  }

  lemma ReceiveMakesProgress(run: Run, prog: Programs, sys: Sys, n: NodeId)
    requires Shape(run, sys.net) && Productive(run, prog, sys, n) && PhaseOf(sys, n).Receiving?
    ensures Less(run, Poll(run, prog, sys, n), sys, n)
  {
    if PollAny(InputPolls(run, sys.net, n)).AnyReady? {
      ReceiveShortens(run, sys.net, n);
    }
  }

  lemma PushMakesProgress(run: Run, sys: Sys, n: NodeId)
    requires Shape(run, sys.net) && Active(run, sys.net, n) && PhaseOf(sys, n).Sending? && PhaseOf(sys, n).todo != []
    requires forall e | e in run.w.edges :: !(e.source.node == n && e.target.node == n)
    ensures Less(run, PushNext(run, sys, n, PhaseOf(sys, n)), sys, n)
  {
    var sys' := PushNext(run, sys, n, PhaseOf(sys, n));
    forall i | 0 <= i < |run.w.edges| && run.w.edges[i].target.node == n
      ensures sys'.net.edges[i].queue == sys.net.edges[i].queue
    {
      assert run.w.edges[i] in run.w.edges;
      PushLeavesOthers(run, sys, n, PhaseOf(sys, n), i);
    }
    QueuedFrame(run.w.edges, sys.net.edges, sys'.net.edges, n, |run.w.edges|);
  }

  lemma SendMakesProgress(run: Run, prog: Programs, sys: Sys, n: NodeId)
    requires Shape(run, sys.net) && Productive(run, prog, sys, n) && PhaseOf(sys, n).Sending?
    requires forall e | e in run.w.edges :: !(e.source.node == n && e.target.node == n)
    ensures Less(run, Poll(run, prog, sys, n), sys, n)
  {
    if PhaseOf(sys, n).todo != [] {
      PushMakesProgress(run, sys, n);
    }
  }

  /** A productive poll leaves its node less to do, unless the node feeds itself. */
  lemma PollMakesProgress(run: Run, prog: Programs, sys: Sys, n: NodeId)
    requires Shape(run, sys.net) && Productive(run, prog, sys, n) && !Link(run.w.edges, n, n)
    ensures Less(run, Poll(run, prog, sys, n), sys, n)
  {
    if PhaseOf(sys, n).Receiving? {
      ReceiveMakesProgress(run, prog, sys, n);
    } else {
      SendMakesProgress(run, prog, sys, n);
    }
  }

  lemma ReceiveLeavesPhases(run: Run, prog: Programs, sys: Sys, m: NodeId, got: Arrivals, n: NodeId)
    requires Shape(run, sys.net) && m != n
    ensures
      var sys' := PollReceive(run, prog, sys, m, got);
      PhaseOf(sys', n) == PhaseOf(sys, n) && (n in sys'.net.finished <==> n in sys.net.finished)
  {
  }

  lemma PushLeavesPhases(run: Run, sys: Sys, m: NodeId, ph: Phase, n: NodeId)
    requires Shape(run, sys.net) && m != n && ph.Sending? && ph.todo != []
    ensures
      var sys' := PushNext(run, sys, m, ph);
      PhaseOf(sys', n) == PhaseOf(sys, n) && (n in sys'.net.finished <==> n in sys.net.finished)
  {
  }

  lemma SendLeavesPhases(run: Run, prog: Programs, sys: Sys, m: NodeId, ph: Phase, n: NodeId)
    requires Shape(run, sys.net) && m != n && ph.Sending?
    ensures
      var sys' := PollSend(run, prog, sys, m, ph);
      PhaseOf(sys', n) == PhaseOf(sys, n) && (n in sys'.net.finished <==> n in sys.net.finished)
  {
    if ph.todo != [] {
      PushLeavesPhases(run, sys, m, ph, n);
    }
  }

  lemma PollLeavesPhases(run: Run, prog: Programs, sys: Sys, m: NodeId, n: NodeId)
    requires Shape(run, sys.net) && m != n
    ensures PhaseOf(Poll(run, prog, sys, m), n) == PhaseOf(sys, n)
    ensures n in Poll(run, prog, sys, m).net.finished <==> n in sys.net.finished
  {
    var ph := PhaseOf(sys, m);
    if ph.Receiving? {
      ReceiveLeavesPhases(run, prog, sys, m, ph.got, n);
    } else {
      SendLeavesPhases(run, prog, sys, m, ph, n);
    }
  }

  lemma FinishLeavesQueue(run: Run, net: Net, m: NodeId, i: nat)
    requires Shape(run, net) && i < |run.w.edges|
    ensures DoFinish(run, net, m).edges[i].queue == net.edges[i].queue
  {
  }

  lemma PushLeavesOthers(run: Run, sys: Sys, m: NodeId, ph: Phase, i: nat)
    requires Shape(run, sys.net) && ph.Sending? && ph.todo != []
    requires i < |run.w.edges| && run.w.edges[i].source.node != m
    ensures PushNext(run, sys, m, ph).net.edges[i].queue == sys.net.edges[i].queue
  {
    var put := SendThrough(run, sys.net, Endpoint(m, ph.todo[0].0), ph.todo[0].1);
    assert put.edges[i] == sys.net.edges[i];
    FinishLeavesQueue(run, put, m, i);
  }

  lemma SendLeavesOthers(run: Run, prog: Programs, sys: Sys, m: NodeId, ph: Phase, i: nat)
    requires Shape(run, sys.net) && ph.Sending? && i < |run.w.edges| && run.w.edges[i].source.node != m
    ensures PollSend(run, prog, sys, m, ph).net.edges[i].queue == sys.net.edges[i].queue
  {
    FinishLeavesQueue(run, sys.net, m, i);
    if ph.todo != [] {
      PushLeavesOthers(run, sys, m, ph, i);
    }
  }

  lemma ReceiveLeavesOthers(run: Run, prog: Programs, sys: Sys, m: NodeId, got: Arrivals, i: nat)
    requires Shape(run, sys.net) && i < |run.w.edges| && run.w.edges[i].target.node != m
    ensures PollReceive(run, prog, sys, m, got).net.edges[i].queue == sys.net.edges[i].queue
  {
    FinishLeavesQueue(run, sys.net, m, i);
    var poll := PollAny(InputPolls(run, sys.net, m));
    if poll.AnyReady? {
      var at := Endpoint(m, InputsOf(run.w.nodes, m)[poll.port]);
      IncidentMeaning(run.w.edges, Input, at, |run.w.edges|);
      assert Incident(run.w.edges, Input, at)[poll.index] in Incident(run.w.edges, Input, at);
      FinishLeavesQueue(run, DoReceive(run, sys.net, at), m, i);
    }
  }

  /** The edges a poll of `m` can lengthen leave `m`; those it can shorten enter it. */
  lemma PollLeavesOthers(run: Run, prog: Programs, sys: Sys, m: NodeId, i: nat)
    requires Shape(run, sys.net) && i < |run.w.edges|
    requires run.w.edges[i].source.node != m && run.w.edges[i].target.node != m
    ensures Poll(run, prog, sys, m).net.edges[i].queue == sys.net.edges[i].queue
  {
    var ph := PhaseOf(sys, m);
    if ph.Receiving? {
      ReceiveLeavesOthers(run, prog, sys, m, ph.got, i);
    } else {
      SendLeavesOthers(run, prog, sys, m, ph, i);
    }
  }

  lemma SameWork(run: Run, s: Sys, t: Sys, n: NodeId)
    requires Shape(run, s.net) && Shape(run, t.net)
    requires PhaseOf(s, n) == PhaseOf(t, n) && (n in s.net.finished <==> n in t.net.finished)
    requires forall i | 0 <= i < |run.w.edges| && run.w.edges[i].target.node == n ::
      |s.net.edges[i].queue| == |t.net.edges[i].queue|
    ensures Same(run, s, t, n)
  {
    QueuedFrame(run.w.edges, s.net.edges, t.net.edges, n, |run.w.edges|);
  }

  /** A poll of a node that does not feed `n` leaves the work of `n` as it is. */
  lemma OthersDoNotAdd(run: Run, prog: Programs, sys: Sys, m: NodeId, n: NodeId)
    requires Shape(run, sys.net) && m != n && !Link(run.w.edges, m, n)
    ensures Same(run, Poll(run, prog, sys, m), sys, n)
  {
    var sys' := Poll(run, prog, sys, m);
    forall i | 0 <= i < |run.w.edges| && run.w.edges[i].target.node == n
      ensures |sys'.net.edges[i].queue| == |sys.net.edges[i].queue|
    {
      assert run.w.edges[i] in run.w.edges;
      PollLeavesOthers(run, prog, sys, m, i);
    }
    PollLeavesPhases(run, prog, sys, m, n);
    SameWork(run, sys', sys, n);
  }

  // ---- Fair runs ------------------------------------------------------------------

  /** At or after moment `i` the node is polled. */
  ghost predicate PolledFrom(sched: Schedule, n: NodeId, i: nat) {
    exists j :: j >= i && sched(j) == n
  }

  /** Every declared node is polled again and again. */
  ghost predicate Fair(run: Run, sched: Schedule) {
    forall n, i | Declared(run.w.nodes, n) :: PolledFrom(sched, n, i)
  }

  ghost predicate ActsAt(run: Run, prog: Programs, sched: Schedule, i: nat) {
    Productive(run, prog, At(run, prog, sched, i), sched(i))
  }

  /** From moment `since` on, no poll of these nodes is productive. */
  ghost predicate Quiet(run: Run, prog: Programs, sched: Schedule, nodes: set<NodeId>, since: nat) {
    forall i | i >= since && sched(i) in nodes :: !ActsAt(run, prog, sched, i)
  }

  /** Once its upstream is quiet, the work of a node never grows. */
  lemma {:induction false} WorkNeverGrows(
    run: Run, prog: Programs, sched: Schedule, upstream: set<NodeId>, n: NodeId, i: nat, j: nat)
    requires i <= j && Quiet(run, prog, sched, upstream, i) && n !in upstream
    requires forall m | Link(run.w.edges, m, n) :: m in upstream
    ensures
      var before, after := At(run, prog, sched, i), At(run, prog, sched, j);
      Same(run, after, before, n) || Less(run, after, before, n)
  {
    if i < j {
      WorkNeverGrows(run, prog, sched, upstream, n, i, j - 1);
      var sys, m := At(run, prog, sched, j - 1), sched(j - 1);
      if m == n {
        if Productive(run, prog, sys, n) {
          PollMakesProgress(run, prog, sys, n);
        } else {
          IdleChangesNothing(run, prog, sys, n);
        }
      } else if m in upstream {
        assert !ActsAt(run, prog, sched, j - 1);
        IdleChangesNothing(run, prog, sys, m);
      } else {
        OthersDoNotAdd(run, prog, sys, m, n);
      }
    }
  }

  lemma WorkShrinks(run: Run, prog: Programs, sched: Schedule, upstream: set<NodeId>, n: NodeId, i: nat, j: nat)
    requires i <= j && Quiet(run, prog, sched, upstream, i) && n !in upstream
    requires forall m | Link(run.w.edges, m, n) :: m in upstream
    requires sched(j) == n && ActsAt(run, prog, sched, j)
    ensures Less(run, At(run, prog, sched, j + 1), At(run, prog, sched, i), n)
  {
    WorkNeverGrows(run, prog, sched, upstream, n, i, j);
    PollMakesProgress(run, prog, At(run, prog, sched, j), n);
  }

  lemma QuietTogether(run: Run, prog: Programs, sched: Schedule, upstream: set<NodeId>, n: NodeId, i: nat)
    requires Quiet(run, prog, sched, upstream, i)
    requires forall j | j >= i && sched(j) == n :: !ActsAt(run, prog, sched, j)
    ensures Quiet(run, prog, sched, upstream + {n}, i)
  {
  }

  /** Once its upstream is quiet, a node becomes quiet too. */
  lemma {:induction false} BecomesQuiet(
    run: Run, prog: Programs, sched: Schedule, upstream: set<NodeId>, n: NodeId, i: nat) returns (since: nat)
    requires Quiet(run, prog, sched, upstream, i) && n !in upstream
    requires forall m | Link(run.w.edges, m, n) :: m in upstream
    ensures Quiet(run, prog, sched, upstream + {n}, since)
    decreases
      Rank(run, At(run, prog, sched, i), n), Queued(run, At(run, prog, sched, i), n), Unsent(At(run, prog, sched, i), n)
  {
    if j :| j >= i && sched(j) == n && ActsAt(run, prog, sched, j) {
      WorkShrinks(run, prog, sched, upstream, n, i, j);
      since := BecomesQuiet(run, prog, sched, upstream, n, j + 1);
    } else {
      QuietTogether(run, prog, sched, upstream, n, i);
      since := i;
    }
  }

  /** In topological order, one node after the other becomes quiet. */
  lemma {:induction false} AllBecomeQuiet(run: Run, prog: Programs, sched: Schedule, order: seq<NodeId>, k: nat)
    returns (since: nat)
    requires Ordered(run, order) && k <= |order|
    ensures Quiet(run, prog, sched, Elements(order[..k]), since)
  {
    if k == 0 {
      since := 0;
    } else {
      var before := AllBecomeQuiet(run, prog, sched, order, k - 1);
      since := NextBecomesQuiet(run, prog, sched, order, k - 1, before);
    }
  }

  lemma NextBecomesQuiet(run: Run, prog: Programs, sched: Schedule, order: seq<NodeId>, k: nat, before: nat)
    returns (since: nat)
    requires Ordered(run, order) && k < |order| && Quiet(run, prog, sched, Elements(order[..k]), before)
    ensures Quiet(run, prog, sched, Elements(order[..k + 1]), since)
  {
    var n, upstream := order[k], Elements(order[..k]);
    forall m | Link(run.w.edges, m, n) ensures m in upstream {
      SourceComesFirst(run, order, m, k);
    }
    since := BecomesQuiet(run, prog, sched, upstream, n, before);
    assert order[..k + 1] == order[..k] + [n];
    ElementsSnoc(order[..k], n);
  }

  lemma SourceComesFirst(run: Run, order: seq<NodeId>, m: NodeId, k: nat)
    requires Ordered(run, order) && k < |order| && Link(run.w.edges, m, order[k])
    ensures m in order[..k]
  {
    var e :| e in run.w.edges && e.source.node == m && e.target.node == order[k];
    assert EdgeDeclared(run.w.nodes, e);
    var j := PositionOf(run, order, m);
    assert j < k;
  }

  /** With all nodes quiet nothing changes any more. */
  lemma {:induction false} QuietIsStill(run: Run, prog: Programs, sched: Schedule, since: nat, i: nat)
    requires i >= since && Quiet(run, prog, sched, NodeIds(run.w.nodes), since)
    ensures At(run, prog, sched, i) == At(run, prog, sched, since)
  {
    if i > since {
      QuietIsStill(run, prog, sched, since, i - 1);
      if sched(i - 1) in NodeIds(run.w.nodes) {
        assert !ActsAt(run, prog, sched, i - 1);
      }
      IdleChangesNothing(run, prog, At(run, prog, sched, i - 1), sched(i - 1));
    }
  }

  ghost predicate AllFinished(run: Run, net: Net) {
    forall n | Declared(run.w.nodes, n) :: n in net.finished
  }

  /** Every fair run of an acyclic workflow finishes all its nodes, whatever they send and however they fail. */
  lemma RunsFinish(run: Run, prog: Programs, sched: Schedule) returns (i: nat)
    requires Valid(run.w) && !Cyclic(run.w.edges) && Streams(run, prog) && Fair(run, sched)
    ensures AllFinished(run, At(run, prog, sched, i).net)
  {
    var order := AcyclicRunIsOrdered(run);
    i := AllBecomeQuiet(run, prog, sched, order, |order|);
    assert order[..|order|] == order;
    forall n | Declared(run.w.nodes, n) ensures n in At(run, prog, sched, i).net.finished {
      var sys := At(run, prog, sched, i);
      if n !in sys.net.finished {
        AtInv(run, prog, sched, i);
        var m := SomeoneIsProductive(run, prog, sys, n);
        assert PolledFrom(sched, m, i);
        var j :| j >= i && sched(j) == m;
        QuietIsStill(run, prog, sched, i, j);
        assert m in NodeIds(run.w.nodes) && ActsAt(run, prog, sched, j);
      }
    }
  }
}
