/** What fair runs deliver, and that every run of programs is a run of the network. */
module FlowDelivery {
  import opened Types
  import opened Graph
  import opened Edges
  import opened Validation
  import opened Wiring
  import opened Network
  import opened NetworkLaws
  import opened Deadlock
  import opened Flow
  import opened FlowLiveness

  // ---- Nothing is lost ------------------------------------------------------------

  predicate Good(run: Run, n: NodeId, out: (PortId, Packet)) {
    out.0 in OutputsOf(run.w.nodes, n) && Accepted(run, Endpoint(n, out.0), out.1)
  }

  predicate AllGood(run: Run, n: NodeId, out: Sends) {
    forall j | 0 <= j < |out| :: Good(run, n, out[j])
  }

  predicate GoodResponse(run: Run, n: NodeId, response: Option<Sends>) {
    response.Some? && AllGood(run, n, response.value)
  }

  /** Nodes that never fail and send only accepted packets through declared outputs. */
  ghost predicate WellBehaved(run: Run, prog: Programs) {
    forall n, got | Declared(run.w.nodes, n) ::
      GoodResponse(run, n, prog.react(n, got)) && GoodResponse(run, n, prog.close(n, got))
  }

  predicate Past(sys: Sys, n: NodeId) {
    n in sys.net.finished || (PhaseOf(sys, n).Sending? && PhaseOf(sys, n).closing)
  }

  /** A node past its input has received all that was sent to it, and no more is to come. */
  predicate DeliveredAt(run: Run, sys: Sys, i: nat)
    requires Shape(run, sys.net) && i < |sys.net.edges|
  {
    var d, e := run.w.edges[i], sys.net.edges[i];
    Past(sys, d.target.node) ==>
      d.source.node in sys.net.finished && e.queue == [] && e.received == Sent(sys.net, d.source)
  }

  ghost predicate Smooth(run: Run, sys: Sys) {
    && SysInv(run, sys)
    && !sys.net.cancelled
    && (forall i | 0 <= i < |sys.net.edges| :: DeliveredAt(run, sys, i))
    && (forall n | PhaseOf(sys, n).Sending? :: AllGood(run, n, PhaseOf(sys, n).todo))
  }

  predicate GoodPhase(run: Run, n: NodeId, phase: Phase) {
    phase.Sending? ==> AllGood(run, n, phase.todo)
  }

  lemma GoodPhases(run: Run, prog: Programs, sys: Sys, n: NodeId)
    requires Smooth(run, sys)
    requires GoodPhase(run, n, PhaseOf(Poll(run, prog, sys, n), n))
    ensures
      var sys' := Poll(run, prog, sys, n);
      forall m | PhaseOf(sys', m).Sending? :: AllGood(run, m, PhaseOf(sys', m).todo)
  {
    var sys' := Poll(run, prog, sys, n);
    forall m | PhaseOf(sys', m).Sending? ensures AllGood(run, m, PhaseOf(sys', m).todo) {
      if m != n {
        PollLeavesPhases(run, prog, sys, n, m);
      }
    }
  }

  /** Nobody is ever disconnected: a receiver finishes only after its sources. */
  lemma NeverDisconnected(run: Run, sys: Sys, at: Endpoint)
    requires Smooth(run, sys) && at.node !in sys.net.finished
    ensures PortOutcome(PortEdges(run, sys.net, Output, at)) != Disconnected
  {
    var es, idx := PortEdges(run, sys.net, Output, at), Incident(run.w.edges, Output, at);
    PortOutcomeIsFirstRefusal(es);
    IncidentMeaning(run.w.edges, Output, at, |run.w.edges|);
    forall k | 0 <= k < |es| ensures es[k].ReserveOutcome() != Disconnected {
      assert idx[k] in idx;
      assert EdgeInvAt(run, sys.net, idx[k]) && DeliveredAt(run, sys, idx[k]);
    }
  }

  lemma ReceiveKeepsDelivered(run: Run, sys: Sys, n: NodeId, at: Endpoint, ph: Phase, i: nat)
    requires Shape(run, sys.net) && i < |sys.net.edges| && DeliveredAt(run, sys, i)
    requires at.node == n && n !in sys.net.finished && PhaseOf(sys, n).Receiving? && ph.Sending? && !ph.closing
    ensures DeliveredAt(run, Sys(DoReceive(run, sys.net, at), sys.phases[n := ph]), i)
  {
    IncidentMeaning(run.w.edges, Input, at, |run.w.edges|);
    var poll := PollPort(PortEdges(run, sys.net, Input, at));
    if poll.PortReady? {
      assert Incident(run.w.edges, Input, at)[poll.index] in Incident(run.w.edges, Input, at);
    }
  }

  lemma ClosingDelivers(run: Run, sys: Sys, n: NodeId, ph: Phase, i: nat)
    requires Valid(run.w) && SysInv(run, sys) && n !in sys.net.finished && ph.Sending? && ph.closing
    requires PollAny(InputPolls(run, sys.net, n)) == AllClosed
    requires i < |sys.net.edges| && DeliveredAt(run, sys, i)
    ensures DeliveredAt(run, sys.(phases := sys.phases[n := ph]), i)
  {
    if run.w.edges[i].target.node == n {
      ClosedPollDrainsEdge(run, sys.net, i);
      assert EdgeInvAt(run, sys.net, i);
      assert sys.net.edges[i].received + [] == sys.net.edges[i].received;
    }
  }

  lemma FinishKeepsDelivered(run: Run, sys: Sys, n: NodeId, i: nat)
    requires Shape(run, sys.net) && i < |sys.net.edges| && DeliveredAt(run, sys, i) && Past(sys, n)
    ensures DeliveredAt(run, sys.(net := DoFinish(run, sys.net, n)), i)
  {
  }

  lemma PutFrame(run: Run, net: Net, at: Endpoint, p: Packet, i: nat)
    requires Shape(run, net) && i < |net.edges| && run.w.edges[i].source != at
    ensures SendThrough(run, net, at, p).edges[i] == net.edges[i]
    ensures Sent(SendThrough(run, net, at, p), run.w.edges[i].source) == Sent(net, run.w.edges[i].source)
  {
    ReserveFrame(run, net, at, i);
    CommitFrame(run, DoReserve(run, net, at), at, p, i);
  }

  lemma ReserveFrame(run: Run, net: Net, at: Endpoint, i: nat)
    requires Shape(run, net) && i < |net.edges| && run.w.edges[i].source != at
    ensures DoReserve(run, net, at).edges[i] == net.edges[i] && DoReserve(run, net, at).sent == net.sent
  {
  }

  lemma CommitFrame(run: Run, net: Net, at: Endpoint, p: Packet, i: nat)
    requires Shape(run, net) && i < |net.edges| && run.w.edges[i].source != at
    ensures DoCommit(run, net, at, p).edges[i] == net.edges[i]
    ensures Sent(DoCommit(run, net, at, p), run.w.edges[i].source) == Sent(net, run.w.edges[i].source)
  {
  }

  lemma PutKeepsDelivered(run: Run, sys: Sys, at: Endpoint, p: Packet, ph: Phase, i: nat)
    requires Shape(run, sys.net) && i < |sys.net.edges| && DeliveredAt(run, sys, i)
    requires at.node !in sys.net.finished && PhaseOf(sys, at.node).Sending?
    requires ph.Sending? && ph.closing == PhaseOf(sys, at.node).closing
    ensures DeliveredAt(run, Sys(SendThrough(run, sys.net, at, p), sys.phases[at.node := ph]), i)
  {
    if run.w.edges[i].source != at {
      PutFrame(run, sys.net, at, p, i);
    }
  }

  lemma AgainKeepsDelivered(run: Run, sys: Sys, n: NodeId, got: Arrivals, i: nat)
    requires Shape(run, sys.net) && i < |sys.net.edges| && DeliveredAt(run, sys, i) && !Past(sys, n)
    ensures DeliveredAt(run, sys.(phases := sys.phases[n := Receiving(got)]), i)
  {
  }

  lemma ReceiveKeepsSmooth(run: Run, prog: Programs, sys: Sys, n: NodeId)
    requires Valid(run.w) && WellBehaved(run, prog) && Smooth(run, sys)
    requires Active(run, sys.net, n) && PhaseOf(sys, n).Receiving?
    ensures Smooth(run, Poll(run, prog, sys, n))
  {
    var sys', got := Poll(run, prog, sys, n), PhaseOf(sys, n).got;
    PollKeeps(run, prog, sys, n);
    match PollAny(InputPolls(run, sys.net, n)) {
      case AnyReady(p, k) =>
        var at := Endpoint(n, InputsOf(run.w.nodes, n)[p]);
        var got' := got + [(at.port, PortEdges(run, sys.net, Input, at)[k].queue[0])];
        assert GoodResponse(run, n, prog.react(n, got'));
        forall i | 0 <= i < |sys'.net.edges| ensures DeliveredAt(run, sys', i) {
          assert DeliveredAt(run, sys, i);
          ReceiveKeepsDelivered(run, sys, n, at, PhaseOf(sys', n), i);
        }
      case AllClosed =>
        assert GoodResponse(run, n, prog.close(n, got));
        forall i | 0 <= i < |sys'.net.edges| ensures DeliveredAt(run, sys', i) {
          assert DeliveredAt(run, sys, i);
          ClosingDelivers(run, sys, n, PhaseOf(sys', n), i);
        }
      case AnyPending =>
    }
    GoodPhases(run, prog, sys, n);
  }

  lemma SendKeepsSmooth(run: Run, prog: Programs, sys: Sys, n: NodeId)
    requires Smooth(run, sys) && Active(run, sys.net, n) && PhaseOf(sys, n).Sending?
    ensures Smooth(run, Poll(run, prog, sys, n))
  {
    var sys', ph := Poll(run, prog, sys, n), PhaseOf(sys, n);
    PollKeeps(run, prog, sys, n);
    if ph.todo != [] {
      assert Good(run, n, ph.todo[0]);
      NeverDisconnected(run, sys, Endpoint(n, ph.todo[0].0));
    }
    forall i | 0 <= i < |sys'.net.edges| ensures DeliveredAt(run, sys', i) {
      assert DeliveredAt(run, sys, i);
      if ph.todo != [] {
        PutKeepsDelivered(run, sys, Endpoint(n, ph.todo[0].0), ph.todo[0].1, ph.(todo := ph.todo[1..]), i);
      } else if ph.closing {
        FinishKeepsDelivered(run, sys, n, i);
      } else {
        AgainKeepsDelivered(run, sys, n, ph.got, i);
      }
    }
    GoodPhases(run, prog, sys, n);
  }

  lemma {:induction false} AtSmooth(run: Run, prog: Programs, sched: Schedule, i: nat)
    requires Valid(run.w) && WellBehaved(run, prog)
    ensures Smooth(run, At(run, prog, sched, i))
  {
    if i == 0 {
      AtInv(run, prog, sched, 0);
    } else {
      AtSmooth(run, prog, sched, i - 1);
      var sys, n := At(run, prog, sched, i - 1), sched(i - 1);
      if Active(run, sys.net, n) {
        if PhaseOf(sys, n).Receiving? {
          ReceiveKeepsSmooth(run, prog, sys, n);
        } else {
          SendKeepsSmooth(run, prog, sys, n);
        }
      }
    }
  }

  /** With well-behaved nodes every fair run finishes uncancelled with every packet sent also received. */
  lemma RunsDeliver(run: Run, prog: Programs, sched: Schedule) returns (i: nat)
    requires Valid(run.w) && !Cyclic(run.w.edges) && Streams(run, prog) && Fair(run, sched)
    requires WellBehaved(run, prog)
    ensures
      var net := At(run, prog, sched, i).net;
      && AllFinished(run, net) && !net.cancelled
      && forall k | 0 <= k < |run.w.edges| ::
           net.edges[k].queue == [] && net.edges[k].received == Sent(net, run.w.edges[k].source)
  {
    i := RunsFinish(run, prog, sched);
    AtSmooth(run, prog, sched, i);
    var sys := At(run, prog, sched, i);
    forall k | 0 <= k < |run.w.edges|
      ensures sys.net.edges[k].queue == [] && sys.net.edges[k].received == Sent(sys.net, run.w.edges[k].source)
    {
      EndsDeclared(run.w, k);
      assert DeliveredAt(run, sys, k);
    }
  }

  // ---- Runs of programs are runs of the network -----------------------------------

  lemma {:induction false} ExecConcat(run: Run, net: Net, a: seq<Step>, b: seq<Step>)
    requires Shape(run, net)
    ensures ExecFrom(run, net, a + b) == ExecFrom(run, ExecFrom(run, net, a), b)
  {
    if b == [] {
      assert a + b == a;
    } else {
      ExecConcat(run, net, a, b[..|b| - 1]);
      assert (a + b)[..|a + b| - 1] == a + b[..|b| - 1];
    }
  }

  lemma ExecTwo(run: Run, net: Net, s: Step, t: Step)
    requires Shape(run, net)
    ensures ExecFrom(run, net, [s]) == Apply(run, net, s)
    ensures ExecFrom(run, net, [s, t]) == Apply(run, Apply(run, net, s), t)
  {
    assert [s][..0] == [] && [s, t][..1] == [s];
    assert ExecFrom(run, net, []) == net;
  }

  lemma FailIsSteps(run: Run, sys: Sys, n: NodeId)
    requires Shape(run, sys.net) && Active(run, sys.net, n)
    ensures Fail(run, sys, n).net == ExecFrom(run, sys.net, [Finish(n), Cancel])
  {
    ExecTwo(run, sys.net, Finish(n), Cancel);
  }

  lemma PushIsSteps(run: Run, sys: Sys, n: NodeId, ph: Phase) returns (steps: seq<Step>)
    requires Shape(run, sys.net) && Active(run, sys.net, n) && ph.Sending? && ph.todo != []
    ensures PushNext(run, sys, n, ph).net == ExecFrom(run, sys.net, steps)
  {
    var at, p := Endpoint(n, ph.todo[0].0), ph.todo[0].1;
    steps := [Reserve(at), Commit(at, p)];
    ExecTwo(run, sys.net, Reserve(at), Commit(at, p));
    var put := Sys(SendThrough(run, sys.net, at, p), sys.phases[n := ph.(todo := ph.todo[1..])]);
    assert put.net == ExecFrom(run, sys.net, steps);
    if !Accepted(run, at, p) {
      FailIsSteps(run, put, n);
      ExecConcat(run, sys.net, steps, [Finish(n), Cancel]);
      steps := steps + [Finish(n), Cancel];
    }
  }

  lemma TakeIsSteps(run: Run, sys: Sys, n: NodeId, got: Arrivals, response: Option<Sends>)
    returns (steps: seq<Step>)
    requires Shape(run, sys.net) && Active(run, sys.net, n) && PollAny(InputPolls(run, sys.net, n)).AnyReady?
    ensures
      var at := Endpoint(n, InputsOf(run.w.nodes, n)[PollAny(InputPolls(run, sys.net, n)).port]);
      var taken := sys.(net := DoReceive(run, sys.net, at));
      Respond(run, taken, n, got, response, false).net == ExecFrom(run, sys.net, steps)
  {
    var at := Endpoint(n, InputsOf(run.w.nodes, n)[PollAny(InputPolls(run, sys.net, n)).port]);
    var taken := sys.(net := DoReceive(run, sys.net, at));
    steps := [ReceiveAny(n)];
    ExecTwo(run, sys.net, ReceiveAny(n), Cancel);
    assert taken.net == ExecFrom(run, sys.net, steps);
    if response.None? {
      FailIsSteps(run, taken, n);
      ExecConcat(run, sys.net, steps, [Finish(n), Cancel]);
      steps := steps + [Finish(n), Cancel];
    }
  }

  lemma ReceiveIsSteps(run: Run, prog: Programs, sys: Sys, n: NodeId, got: Arrivals) returns (steps: seq<Step>)
    requires Shape(run, sys.net) && Active(run, sys.net, n)
    ensures PollReceive(run, prog, sys, n, got).net == ExecFrom(run, sys.net, steps)
  {
    FailIsSteps(run, sys, n);
    var ports, poll := InputsOf(run.w.nodes, n), PollAny(InputPolls(run, sys.net, n));
    if sys.net.cancelled && Checks(run, prog, n) {
      steps := [Finish(n), Cancel];
    } else if poll.AnyReady? {
      var at := Endpoint(n, ports[poll.port]);
      var got' := got + [(ports[poll.port], PortEdges(run, sys.net, Input, at)[poll.index].queue[0])];
      steps := TakeIsSteps(run, sys, n, got', prog.react(n, got'));
      var taken := sys.(net := DoReceive(run, sys.net, at));
      assert PollReceive(run, prog, sys, n, got) == Respond(run, taken, n, got', prog.react(n, got'), false);
    } else if poll.AllClosed? && prog.close(n, got).None? {
      steps := [Finish(n), Cancel];
    } else {
      steps := [];
      assert ExecFrom(run, sys.net, steps) == sys.net;
    }
  }

  lemma SendIsSteps(run: Run, prog: Programs, sys: Sys, n: NodeId, ph: Phase) returns (steps: seq<Step>)
    requires Shape(run, sys.net) && Active(run, sys.net, n) && ph.Sending?
    ensures PollSend(run, prog, sys, n, ph).net == ExecFrom(run, sys.net, steps)
  {
    FailIsSteps(run, sys, n);
    ExecTwo(run, sys.net, Finish(n), Cancel);
    if ph.todo == [] {
      steps :=
        if ph.closing then [Finish(n)]
        else if n in prog.streams && sys.net.cancelled then [Finish(n), Cancel]
        else [];
    } else if ph.todo[0].0 !in OutputsOf(run.w.nodes, n) || sys.net.cancelled {
      steps := [Finish(n), Cancel];
    } else {
      var outcome := PortOutcome(PortEdges(run, sys.net, Output, Endpoint(n, ph.todo[0].0)));
      if outcome == Full {
        steps := [];
      } else if outcome == Disconnected {
        steps := [Finish(n), Cancel];
      } else {
        steps := PushIsSteps(run, sys, n, ph);
      }
    }
  }

  /** Every state of a run of programs is a reachable state of the network, so all its laws hold there too. */
  lemma {:induction false} FlowIsARun(run: Run, prog: Programs, sched: Schedule, i: nat) returns (steps: seq<Step>)
    ensures At(run, prog, sched, i).net == Exec(run, steps)
  {
    steps := [];
    if i > 0 {
      var before := FlowIsARun(run, prog, sched, i - 1);
      var sys, n, more := At(run, prog, sched, i - 1), sched(i - 1), [];
      var ph := PhaseOf(sys, n);
      if Active(run, sys.net, n) {
        if ph.Receiving? {
          more := ReceiveIsSteps(run, prog, sys, n, ph.got);
        } else {
          more := SendIsSteps(run, prog, sys, n, ph);
        }
      }
      ExecConcat(run, Initial(run), before, more);
      steps := before + more;
    }
  }

  /** So a contract-checked run, whatever its nodes send, only ever carries truthful packets. */
  lemma FlowProvenance(run: Run, prog: Programs, sched: Schedule, i: nat, k: nat, p: Packet)
    requires run.contracts.Some? && k < |run.w.edges|
    requires p in At(run, prog, sched, i).net.edges[k].queue || p in At(run, prog, sched, i).net.edges[k].received
    ensures Provenance(run.w.id, run.execution, run.w.edges[k].source, p)
  {
    var steps := FlowIsARun(run, prog, sched, i);
    ProvenanceIntegrity(run, steps, k, p);
  }
}
