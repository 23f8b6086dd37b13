/**
 Workflows of message-driven nodes: a node receives packets, sends what it has to send after each of them and
 again when its inputs are closed, and ends. Batch executors and rule nodes are of this kind. Nodes are polled
 in any order, and some poll always completes.
 */
module Flow {
  import opened Types
  import opened Graph
  import opened Edges
  import opened Wiring
  import opened Network
  import opened Deadlock

  type Arrivals = seq<(PortId, Packet)>

  type Sends = seq<(PortId, Packet)>

  /** What a node sends, in order, for the packets it has received so far, or an error. */
  type Response = (NodeId, Arrivals) -> Option<Sends>

  /**
   What the nodes do: `react` after each packet, `close` when their inputs are closed. The nodes of `streams`
   receive with `recv` on their only input, the others with `recv_any`.
   */
  datatype Programs = Programs(react: Response, close: Response, streams: set<NodeId>)

  datatype Phase = Receiving(got: Arrivals) | Sending(got: Arrivals, todo: Sends, closing: bool)

  datatype Sys = Sys(net: Net, phases: map<NodeId, Phase>)

  function PhaseOf(sys: Sys, n: NodeId): Phase {
    if n in sys.phases then sys.phases[n] else Receiving([])
  }

  predicate Streams(run: Run, prog: Programs) {
    forall n | n in prog.streams :: |InputsOf(run.w.nodes, n)| == 1
  }

  // ---- One step of a node ---------------------------------------------------------

  /** A failing node drops its ports, and the supervisor requests cancellation for it. */
  function Fail(run: Run, sys: Sys, n: NodeId): (r: Sys)
    requires Shape(run, sys.net)
    ensures Shape(run, r.net) && r.phases == sys.phases
    ensures r.net.finished == sys.net.finished + {n} && r.net.cancelled
  {
    sys.(net := DoFinish(run, sys.net, n).(cancelled := true))
  }

  function SendThrough(run: Run, net: Net, at: Endpoint, p: Packet): (r: Net)
    requires Shape(run, net)
    ensures Shape(run, r) && r.finished == net.finished && r.cancelled == net.cancelled
  {
    DoCommit(run, DoReserve(run, net, at), at, p)
  }

  /** Whether a receive of the node looks at the token: `recv_any` with a port, `recv` on a port with edges. */
  predicate Checks(run: Run, prog: Programs, n: NodeId) {
    var ports := InputsOf(run.w.nodes, n);
    ports != [] && (n in prog.streams ==> Incident(run.w.edges, Input, Endpoint(n, ports[0])) != [])
  }

  /** The node turns to sending, or fails. */
  function Respond(run: Run, sys: Sys, n: NodeId, got: Arrivals, response: Option<Sends>, closing: bool): (r: Sys)
    requires Shape(run, sys.net)
    ensures Shape(run, r.net)
  {
    match response
    case None => Fail(run, sys, n)
    case Some(todo) => sys.(phases := sys.phases[n := Sending(got, todo, closing)])
  }

  function PollReceive(run: Run, prog: Programs, sys: Sys, n: NodeId, got: Arrivals): (r: Sys)
    requires Shape(run, sys.net)
    ensures Shape(run, r.net)
  {
    var ports := InputsOf(run.w.nodes, n);
    if sys.net.cancelled && Checks(run, prog, n) then Fail(run, sys, n)
    else match PollAny(InputPolls(run, sys.net, n))
      case AnyReady(p, k) =>
        var at := Endpoint(n, ports[p]);
        var got' := got + [(ports[p], PortEdges(run, sys.net, Input, at)[k].queue[0])];
        Respond(run, sys.(net := DoReceive(run, sys.net, at)), n, got', prog.react(n, got'), false)
      case AllClosed => Respond(run, sys, n, got, prog.close(n, got), true)
      case AnyPending => sys
  }

  /** The next packet goes through a granted port, unless the validator rejects it. */
  function PushNext(run: Run, sys: Sys, n: NodeId, ph: Phase): (r: Sys)
    requires Shape(run, sys.net) && ph.Sending? && ph.todo != []
    ensures Shape(run, r.net)
  {
    var at, p := Endpoint(n, ph.todo[0].0), ph.todo[0].1;
    var put := Sys(SendThrough(run, sys.net, at, p), sys.phases[n := ph.(todo := ph.todo[1..])]);
    if Accepted(run, at, p) then put else Fail(run, put, n)
  }

  /** All is sent: the node ends, or receives again. A rule node looks at the token first. */
  function AllSent(run: Run, prog: Programs, sys: Sys, n: NodeId, ph: Phase): (r: Sys)
    requires Shape(run, sys.net) && ph.Sending?
    ensures Shape(run, r.net)
  {
    if ph.closing then sys.(net := DoFinish(run, sys.net, n))
    else if n in prog.streams && sys.net.cancelled then Fail(run, sys, n)
    else sys.(phases := sys.phases[n := Receiving(ph.got)])
  }

  function PollSend(run: Run, prog: Programs, sys: Sys, n: NodeId, ph: Phase): (r: Sys)
    requires Shape(run, sys.net) && ph.Sending?
    ensures Shape(run, r.net)
  {
    if ph.todo == [] then AllSent(run, prog, sys, n, ph)
    else
      var port := ph.todo[0].0;
      if port !in OutputsOf(run.w.nodes, n) || sys.net.cancelled then Fail(run, sys, n)
      else match PortOutcome(PortEdges(run, sys.net, Output, Endpoint(n, port)))
        case Full => sys
        case Disconnected => Fail(run, sys, n)
        case Granted => PushNext(run, sys, n, ph)
  }

  /** One poll of a node, up to its next operation. */
  function Poll(run: Run, prog: Programs, sys: Sys, n: NodeId): (r: Sys)
    requires Shape(run, sys.net)
    ensures Shape(run, r.net)
  {
    if !Active(run, sys.net, n) then sys
    else
      var ph := PhaseOf(sys, n);
      if ph.Receiving? then PollReceive(run, prog, sys, n, ph.got) else PollSend(run, prog, sys, n, ph)
  }

  /** The operation an unfinished node is in returns at its next poll. */
  predicate Productive(run: Run, prog: Programs, sys: Sys, n: NodeId)
    requires Shape(run, sys.net)
  {
    Active(run, sys.net, n) &&
    match PhaseOf(sys, n)
    case Receiving(_) =>
      (sys.net.cancelled && Checks(run, prog, n)) || PollAny(InputPolls(run, sys.net, n)) != AnyPending
    case Sending(_, todo, _) =>
      || todo == []
      || todo[0].0 !in OutputsOf(run.w.nodes, n)
      || sys.net.cancelled
      || PortOutcome(PortEdges(run, sys.net, Output, Endpoint(n, todo[0].0))) != Full
  }

  lemma IdleChangesNothing(run: Run, prog: Programs, sys: Sys, n: NodeId)
    requires Shape(run, sys.net) && !Productive(run, prog, sys, n)
    ensures Poll(run, prog, sys, n) == sys
  {
  }

  // ---- The invariant --------------------------------------------------------------

  ghost predicate NoPermits(net: Net) {
    forall at :: Permits(net, at) == 0
  }

  ghost predicate SysInv(run: Run, sys: Sys) {
    Inv(run, sys.net) && NoPermits(sys.net)
  }

  lemma CancelKeepsInv(run: Run, net: Net)
    requires Inv(run, net)
    ensures Inv(run, net.(cancelled := true))
  {
    StepKeepsInv(run, net, Cancel);
  }

  lemma FailKeeps(run: Run, sys: Sys, n: NodeId)
    requires SysInv(run, sys)
    ensures SysInv(run, Fail(run, sys, n))
  {
    FinishKeepsInv(run, sys.net, n);
    CancelKeepsInv(run, DoFinish(run, sys.net, n));
    forall at ensures Permits(Fail(run, sys, n).net, at) == 0 {
      assert Permits(sys.net, at) == 0;
    }
  }

  lemma FinishKeeps(run: Run, sys: Sys, n: NodeId)
    requires SysInv(run, sys)
    ensures SysInv(run, sys.(net := DoFinish(run, sys.net, n)))
  {
    FinishKeepsInv(run, sys.net, n);
    forall at ensures Permits(DoFinish(run, sys.net, n), at) == 0 {
      assert Permits(sys.net, at) == 0;
    }
  }

  lemma ReservePermits(run: Run, net: Net, at: Endpoint, b: Endpoint)
    requires Shape(run, net)
    ensures
      var held := DoReserve(run, net, at);
      Permits(held, b) == Permits(net, b) || (b == at && Permits(held, b) == Permits(net, b) + 1)
  {
  }

  lemma CommitPermits(run: Run, net: Net, at: Endpoint, p: Packet, b: Endpoint)
    requires Shape(run, net)
    ensures
      var done := DoCommit(run, net, at, p);
      Permits(done, b) == if b == at && Permits(net, b) > 0 then Permits(net, b) - 1 else Permits(net, b)
  {
  }

  /** A reservation and its commit in one go leave no permit behind. */
  lemma PutKeeps(run: Run, net: Net, at: Endpoint, p: Packet)
    requires Inv(run, net) && NoPermits(net) && at.node !in net.finished
    ensures Inv(run, SendThrough(run, net, at, p)) && NoPermits(SendThrough(run, net, at, p))
  {
    var held := DoReserve(run, net, at);
    ReserveKeepsInv(run, net, at);
    CommitKeepsInv(run, held, at, p);
    forall b ensures Permits(SendThrough(run, net, at, p), b) == 0 {
      assert Permits(net, b) == 0;
      ReservePermits(run, net, at, b);
      CommitPermits(run, held, at, p, b);
    }
  }

  lemma ReceiveKeeps(run: Run, net: Net, at: Endpoint)
    requires Inv(run, net) && NoPermits(net)
    ensures Inv(run, DoReceive(run, net, at)) && NoPermits(DoReceive(run, net, at))
  {
    ReceiveKeepsInv(run, net, at);
    forall b ensures Permits(DoReceive(run, net, at), b) == 0 {
      assert Permits(net, b) == 0;
    }
  }

  lemma PollReceiveKeeps(run: Run, prog: Programs, sys: Sys, n: NodeId, got: Arrivals)
    requires SysInv(run, sys)
    ensures SysInv(run, PollReceive(run, prog, sys, n, got))
  {
    FailKeeps(run, sys, n);
    var poll := PollAny(InputPolls(run, sys.net, n));
    if poll.AnyReady? {
      var at := Endpoint(n, InputsOf(run.w.nodes, n)[poll.port]);
      ReceiveKeeps(run, sys.net, at);
      FailKeeps(run, sys.(net := DoReceive(run, sys.net, at)), n);
    }
  }

  lemma PollSendKeeps(run: Run, prog: Programs, sys: Sys, n: NodeId, ph: Phase)
    requires SysInv(run, sys) && ph.Sending? && n !in sys.net.finished
    ensures SysInv(run, PollSend(run, prog, sys, n, ph))
  {
    FailKeeps(run, sys, n);
    FinishKeeps(run, sys, n);
    if ph.todo != [] {
      var at, p := Endpoint(n, ph.todo[0].0), ph.todo[0].1;
      PutKeeps(run, sys.net, at, p);
      FailKeeps(run, Sys(SendThrough(run, sys.net, at, p), sys.phases[n := ph.(todo := ph.todo[1..])]), n);
    }
  }

  lemma PollKeeps(run: Run, prog: Programs, sys: Sys, n: NodeId)
    requires SysInv(run, sys)
    ensures SysInv(run, Poll(run, prog, sys, n))
  {
    var ph := PhaseOf(sys, n);
    if Active(run, sys.net, n) {
      if ph.Receiving? {
        PollReceiveKeeps(run, prog, sys, n, ph.got);
      } else {
        PollSendKeeps(run, prog, sys, n, ph);
      }
    }
  }

  // ---- Someone can always go on ---------------------------------------------------

  function WaitOf(sys: Sys, n: NodeId): Wait {
    match PhaseOf(sys, n)
    case Receiving(_) => OnAnyInput
    case Sending(_, todo, _) => OnOutput(if todo == [] then "" else todo[0].0)
  }

  /** A receive that does not look at the token is one that finds its inputs closed. */
  lemma UncheckedIsClosed(run: Run, prog: Programs, net: Net, n: NodeId)
    requires Shape(run, net) && Streams(run, prog) && !Checks(run, prog, n)
    ensures PollAny(InputPolls(run, net, n)) == AllClosed
  {
    var polls, ports := InputPolls(run, net, n), InputsOf(run.w.nodes, n);
    PollAnyMeaning(polls, 0);
    forall k | 0 <= k < |polls| ensures polls[k].PortClosed? {
      assert PortEdges(run, net, Input, Endpoint(n, ports[k])) == [];
    }
  }

  lemma SomeoneIsProductive(run: Run, prog: Programs, sys: Sys, n: NodeId) returns (m: NodeId)
    requires Valid(run.w) && !Cyclic(run.w.edges) && Streams(run, prog)
    requires SysInv(run, sys) && Active(run, sys.net, n)
    ensures Productive(run, prog, sys, m)
  {
    var waits := map m | m in NodeIds(run.w.nodes) :: WaitOf(sys, m);
    forall m | Active(run, sys.net, m) ensures m in waits && !waits[m].OnInput? {
      assert m in NodeIds(run.w.nodes);
    }
    assert Merged(run, sys.net, waits);
    var order := AcyclicRunIsOrdered(run);
    var k := PositionOf(run, order, n);
    m := FollowUp(run, sys.net, waits, order, k);
    assert waits[m] == WaitOf(sys, m);
    if !Checks(run, prog, m) {
      UncheckedIsClosed(run, prog, sys.net, m);
    }
  }

  // ---- Runs -----------------------------------------------------------------------

  /** Which node is polled at each moment. */
  type Schedule = nat -> NodeId

  function Start(run: Run): (sys: Sys)
    ensures Shape(run, sys.net)
  {
    Sys(Initial(run), map[])
  }

  function At(run: Run, prog: Programs, sched: Schedule, i: nat): (sys: Sys)
    ensures Shape(run, sys.net)
  {
    if i == 0 then Start(run) else Poll(run, prog, At(run, prog, sched, i - 1), sched(i - 1))
  }

  lemma {:induction false} AtInv(run: Run, prog: Programs, sched: Schedule, i: nat)
    ensures SysInv(run, At(run, prog, sched, i))
  {
    if i == 0 {
      ReachableInv(run, []);
      assert Exec(run, []) == Initial(run);
      assert NoPermits(Initial(run));
    } else {
      AtInv(run, prog, sched, i - 1);
      PollKeeps(run, prog, At(run, prog, sched, i - 1), sched(i - 1));
    }
  }
}
