/** Batch executors and rule nodes side by side: such workflows finish, and deliver what they send. */
module Executors {
  import opened Types
  import opened Graph
  import opened Edges
  import opened Identifiers
  import opened Network
  import opened Rules
  import opened RuleContract
  import opened RuleNode
  import opened RuleNodeLaws
  import opened Flow
  import opened FlowLiveness
  import opened FlowDelivery
  import opened FlowAccounts

  const IN_PORT: PortId := "in"

  /** What a rule node sends for an action: its packet, nothing, or an error. */
  function Outgoing(st: Station, action: Action, number: nat, p: Packet): Option<Sends> {
    match SendPort(action)
    case None => if action.Halt? then None else Some([])
    case Some(port) =>
      var forwarded := ForwardPacket(st.ctx, port, number, p);
      if ValidId(forwarded.messageId) then Some([(port, forwarded)]) else None
  }

  /** What it sends for the latest packet. */
  function Forwarded(st: Station, got: Arrivals): Option<Sends> {
    if got == [] then Some([])
    else
      var n, p := |got| - 1, got[|got| - 1].1;
      Outgoing(st, Decide(st.rules, SubjectOf(st.ctx, p)).action, NumberOf(st, n), p)
  }

  function SentEvents(out: Sends): seq<Event> {
    seq(|out|, i requires 0 <= i < |out| => RuleNode.Sent(out[i].0, out[i].1))
  }

  lemma OutgoingIsSent(st: Station, action: Action, number: nat, p: Packet, turn: Turn)
    requires st.validator.None? && Awaited(turn.polls) == ReserveGranted
    requires SendPort(action).Some? ==> SendPort(action).value in st.outputs
    ensures
      var out := Outgoing(st, action, number, p);
      && (out.None? <==> Acting(st, action, number, p, turn).Failed?)
      && (out.Some? ==> Acting(st, action, number, p, turn).Done?)
      && (out.Some? ==> SentEvents(out.value) == SendEvents(st.ctx, SendPort(action), number, p))
  {
  }

  /** What is sent is what the rule node's own loop sends where its send goes through, and it fails where that fails. */
  lemma ForwardedIsTheTail(st: Station, got: Arrivals, turn: Turn)
    requires got != [] && st.validator.None? && Awaited(turn.polls) == ReserveGranted
    requires Target(st, got[|got| - 1].1).Some? ==> Target(st, got[|got| - 1].1).value in st.outputs
    ensures
      var n, p := |got| - 1, got[|got| - 1].1;
      && (Forwarded(st, got).None? <==> HandlingOf(st, n, p, turn).Failed?)
      && (Forwarded(st, got).Some? ==>
            HandlingOf(st, n, p, turn).Done? && SentEvents(Forwarded(st, got).value) == Tail(st, n, p))
  {
    var n, p := |got| - 1, got[|got| - 1].1;
    OutgoingIsSent(st, Decide(st.rules, SubjectOf(st.ctx, p)).action, NumberOf(st, n), p, turn);
  }

  /** Rule nodes at `stations`, batch executors elsewhere. */
  function Mixed(stations: map<NodeId, Station>, invoke: Response): Programs {
    Programs(
      (n: NodeId, got: Arrivals) => if n in stations then Forwarded(stations[n], got) else Some([]),
      (n: NodeId, got: Arrivals) => if n in stations then Some([]) else invoke(n, got),
      stations.Keys)
  }

  /** Each rule node has the one input that it receives on. */
  predicate Placed(run: Run, stations: map<NodeId, Station>) {
    forall n | n in stations :: InputsOf(run.w.nodes, n) == [IN_PORT]
  }

  /** Every fair run of an acyclic workflow of batch executors and rule nodes finishes all its nodes. */
  lemma MixedRunsFinish(run: Run, stations: map<NodeId, Station>, invoke: Response, sched: Schedule) returns (i: nat)
    requires Valid(run.w) && !Cyclic(run.w.edges) && Placed(run, stations) && Fair(run, sched)
    ensures AllFinished(run, At(run, Mixed(stations, invoke), sched, i).net)
  {
    i := RunsFinish(run, Mixed(stations, invoke), sched);
  }

  // ---- What it takes for a rule node to deliver -----------------------------------

  predicate NeverHalts(rs: RuleSet) {
    !rs.defaultAction.Halt? && forall i | 0 <= i < |rs.rules| :: !rs.rules[i].action.Halt?
  }

  lemma DecidesNoHalt(rs: RuleSet, x: Subject)
    requires NeverHalts(rs)
    ensures !Decide(rs, x).action.Halt?
  {
  }

  /** Names short enough that no value of the counter makes a message id too long. */
  predicate ShortNames(ctx: NodeContext, outputs: seq<PortId>) {
    ValidId(ctx.node) && forall j | 0 <= j < |outputs| :: ValidId(outputs[j]) && Room(ctx, outputs[j]) >= 20
  }

  /** The station speaks for its node in this run, and its outputs are contracted if any are. */
  predicate Speaks(run: Run, n: NodeId, st: Station) {
    && st.ctx == NodeContext(n, run.w.id, run.execution)
    && match run.contracts
       case None => true
       case Some(ports) =>
         n in ports && forall j | 0 <= j < |OutputsOf(run.w.nodes, n)| :: OutputsOf(run.w.nodes, n)[j] in ports[n]
  }

  ghost predicate Ready(run: Run, n: NodeId, st: Station) {
    && Speaks(run, n, st)
    && Legal(run.w, n, st.rules)
    && NeverHalts(st.rules)
    && ShortNames(st.ctx, OutputsOf(run.w.nodes, n))
  }

  lemma {:induction false} HostOutputs(nodes: seq<Node>, id: NodeId)
    requires HostOf(nodes, id).Some?
    ensures OutputsOf(nodes, id) == HostOf(nodes, id).value.outputs
  {
    if nodes[0].id != id {
      HostOutputs(nodes[1..], id);
    }
  }

  lemma CounterFits(st: Station, n: nat)
    ensures NumberOf(st, n) < Pow10(20)
  {
    assert Pow10(5) == 100_000;
    assert Pow10(10) == 10_000_000_000;
    assert Pow10(15) == 1_000_000_000_000_000;
    assert Pow10(20) == 100_000_000_000_000_000_000;
  }

  lemma {:induction false} Pow10Grows(d: nat, e: nat)
    requires d <= e
    ensures Pow10(d) <= Pow10(e)
  {
    if d < e {
      Pow10Grows(d, e - 1);
    }
  }

  lemma ShortIdsAreValid(st: Station, outputs: seq<PortId>, j: nat, n: nat, p: Packet)
    requires ShortNames(st.ctx, outputs) && j < |outputs|
    ensures ValidId(ForwardPacket(st.ctx, outputs[j], NumberOf(st, n), p).messageId)
  {
    CounterFits(st, n);
    Pow10Grows(20, Room(st.ctx, outputs[j]));
    MessageIdRefusedIff(st.ctx, outputs[j], NumberOf(st, n), p);
  }

  /** A validated rule node that never halts and whose names are short always sends, and sends accepted packets. */
  lemma ReadyStationsAreGood(run: Run, n: NodeId, st: Station, got: Arrivals)
    requires Ready(run, n, st)
    ensures GoodResponse(run, n, Forwarded(st, got))
  {
    if got != [] {
      var k, p := |got| - 1, got[|got| - 1].1;
      var x, outputs := SubjectOf(st.ctx, p), OutputsOf(run.w.nodes, n);
      DecidesNoHalt(st.rules, x);
      ValidatedNeverSendsUnknown(run.w, n, st.rules, x);
      HostOutputs(run.w.nodes, n);
      if Target(st, p).Some? {
        var j :| 0 <= j < |outputs| && outputs[j] == Target(st, p).value;
        ShortIdsAreValid(st, outputs, j, k, p);
      }
    }
  }

  ghost predicate GoodInvoke(run: Run, invoke: Response) {
    forall n, got | Declared(run.w.nodes, n) :: GoodResponse(run, n, invoke(n, got))
  }

  lemma MixedIsWellBehaved(run: Run, stations: map<NodeId, Station>, invoke: Response)
    requires GoodInvoke(run, invoke) && forall n | n in stations :: Ready(run, n, stations[n])
    ensures WellBehaved(run, Mixed(stations, invoke))
  {
    var prog := Mixed(stations, invoke);
    forall n, got | Declared(run.w.nodes, n)
      ensures GoodResponse(run, n, prog.react(n, got)) && GoodResponse(run, n, prog.close(n, got))
    {
      if n in stations {
        ReadyStationsAreGood(run, n, stations[n], got);
      } else {
        assert GoodResponse(run, n, invoke(n, got));
      }
    }
  }

  /**
   With validated rule nodes that never halt, and batch executors that never fail, every fair run of an
   acyclic workflow ends uncancelled with every packet that was sent also received.
   */
  lemma MixedRunsDeliver(run: Run, stations: map<NodeId, Station>, invoke: Response, sched: Schedule) returns (i: nat)
    requires Valid(run.w) && !Cyclic(run.w.edges) && Placed(run, stations) && Fair(run, sched)
    requires GoodInvoke(run, invoke) && forall n | n in stations :: Ready(run, n, stations[n])
    ensures
      var net := At(run, Mixed(stations, invoke), sched, i).net;
      && AllFinished(run, net) && !net.cancelled
      && forall k | 0 <= k < |run.w.edges| ::
           net.edges[k].queue == [] && net.edges[k].received == Network.Sent(net, run.w.edges[k].source)
  {
    MixedIsWellBehaved(run, stations, invoke);
    i := RunsDeliver(run, Mixed(stations, invoke), sched);
  }

  // ---- What such a run computes ---------------------------------------------------

  lemma {:induction false} BatchOwesNothingYet(
    stations: map<NodeId, Station>, invoke: Response, n: NodeId, got: Arrivals)
    requires n !in stations
    ensures Owed(Mixed(stations, invoke), n, got) == []
  {
    if got != [] {
      BatchOwesNothingYet(stations, invoke, n, got[..|got| - 1]);
    }
  }

  function PayloadsIn(ps: seq<Packet>): seq<Payload> {
    seq(|ps|, i requires 0 <= i < |ps| => ps[i].payload)
  }

  /** A response of a rule node carries the latest payload to the port its decision targets, and nothing elsewhere. */
  lemma ForwardedPayload(st: Station, got: Arrivals, port: PortId)
    requires got != [] && Forwarded(st, got).Some?
    ensures
      var p := got[|got| - 1].1;
      PayloadsIn(ForPort(Forwarded(st, got).value, port)) == if Target(st, p) == Some(port) then [p.payload] else []
  {
    var out := Forwarded(st, got).value;
    if out != [] {
      assert out[1..] == [] && ForPort(out[1..], port) == [];
    }
  }

  lemma {:induction false} RuleNodeOwes(
    run: Run, stations: map<NodeId, Station>, invoke: Response, n: NodeId, got: Arrivals, port: PortId)
    requires n in stations && Ready(run, n, stations[n])
    ensures PayloadsIn(ForPort(Owed(Mixed(stations, invoke), n, got), port))
         == PayloadsFor(stations[n], Packets(got), port)
  {
    if got != [] {
      var before := got[..|got| - 1];
      RuleNodeOwes(run, stations, invoke, n, before, port);
      ReadyStationsAreGood(run, n, stations[n], got);
      ForwardedPayload(stations[n], got, port);
      OwedPayloads(Mixed(stations, invoke), n, got, port);
      DecidedPayloads(stations[n], got, port);
    }
  }

  lemma OwedPayloads(prog: Programs, n: NodeId, got: Arrivals, port: PortId)
    requires got != []
    ensures PayloadsIn(ForPort(Owed(prog, n, got), port))
         == PayloadsIn(ForPort(Owed(prog, n, got[..|got| - 1]), port))
          + PayloadsIn(ForPort(Asked(prog.react(n, got)), port))
  {
    ForPortConcat(Owed(prog, n, got[..|got| - 1]), Asked(prog.react(n, got)), port);
  }

  lemma DecidedPayloads(st: Station, got: Arrivals, port: PortId)
    requires got != []
    ensures
      var before, p := got[..|got| - 1], got[|got| - 1].1;
      PayloadsFor(st, Packets(got), port)
        == PayloadsFor(st, Packets(before), port) + if Target(st, p) == Some(port) then [p.payload] else []
  {
    assert Packets(got)[..|got| - 1] == Packets(got[..|got| - 1]);
  }

  /**
   A batch node's ports carry, in order, exactly what its executor returned for all that was sent to it; a
   rule node's carry exactly the payloads its rules decided for them, of all that was sent to it.
   */
  ghost predicate Computes(
    run: Run, stations: map<NodeId, Station>, invoke: Response, net: Net, n: NodeId, got: Arrivals)
  {
    && (forall q :: ArrivedOn(got, q) == SentTo(run.w.edges, net, Endpoint(n, q), |run.w.edges|))
    && (n !in stations ==>
          && invoke(n, got).Some?
          && forall port :: Network.Sent(net, Endpoint(n, port)) == ForPort(invoke(n, got).value, port))
    && (n in stations ==>
          forall port ::
            PayloadsIn(Network.Sent(net, Endpoint(n, port))) == PayloadsFor(stations[n], Packets(got), port))
  }

  lemma SettledComputes(run: Run, stations: map<NodeId, Station>, invoke: Response, sys: Sys, n: NodeId)
    requires GoodInvoke(run, invoke) && Declared(run.w.nodes, n)
    requires n in stations ==> Ready(run, n, stations[n])
    requires Settled(run, Mixed(stations, invoke), sys, n)
    ensures Computes(run, stations, invoke, sys.net, n, PhaseOf(sys, n).got)
  {
    var prog, got := Mixed(stations, invoke), PhaseOf(sys, n).got;
    if n !in stations {
      assert GoodResponse(run, n, invoke(n, got));
      BatchOwesNothingYet(stations, invoke, n, got);
      assert Owed(prog, n, got) + Asked(prog.close(n, got)) == invoke(n, got).value;
    } else {
      assert Owed(prog, n, got) + Asked(prog.close(n, got)) == Owed(prog, n, got);
      forall port
        ensures PayloadsIn(Network.Sent(sys.net, Endpoint(n, port))) == PayloadsFor(stations[n], Packets(got), port)
      {
        RuleNodeOwes(run, stations, invoke, n, got, port);
      }
    }
  }

  /** Every fair run of such a workflow computes what its executors and rules say, at every node. */
  lemma MixedRunsCompute(run: Run, stations: map<NodeId, Station>, invoke: Response, sched: Schedule) returns (i: nat)
    requires Valid(run.w) && !Cyclic(run.w.edges) && Placed(run, stations) && Fair(run, sched)
    requires GoodInvoke(run, invoke) && forall n | n in stations :: Ready(run, n, stations[n])
    ensures
      var net := At(run, Mixed(stations, invoke), sched, i).net;
      && AllFinished(run, net) && !net.cancelled
      && forall n | Declared(run.w.nodes, n) :: exists got :: Computes(run, stations, invoke, net, n, got)
  {
    MixedIsWellBehaved(run, stations, invoke);
    i := RunsSettle(run, Mixed(stations, invoke), sched);
    var sys := At(run, Mixed(stations, invoke), sched, i);
    forall n | Declared(run.w.nodes, n) ensures exists got :: Computes(run, stations, invoke, sys.net, n, got) {
      SettledComputes(run, stations, invoke, sys, n);
    }
  }
}
