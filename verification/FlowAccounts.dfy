/**
 What the nodes of a run have received and sent, against what their programs ask for: nothing a node was given
 is forgotten, and nothing it was to send is dropped, repeated or reordered.
 */
module FlowAccounts {
  import opened Types
  import opened Graph
  import opened Edges
  import opened Wiring
  import opened Network
  import opened Flow
  import opened FlowLiveness
  import opened FlowDelivery

  // ---- What a node owes -----------------------------------------------------------

  /** The packets of a response, if there is one. */
  function Asked(response: Option<Sends>): Sends {
    if response.Some? then response.value else []
  }

  /** Everything a node is to send for its arrivals: its response to the first, to the first two, and so on. */
  function Owed(prog: Programs, n: NodeId, got: Arrivals): Sends {
    if got == [] then [] else Owed(prog, n, got[..|got| - 1]) + Asked(prog.react(n, got))
  }

  /** With its inputs closed, also what it sends then. */
  function OwedIn(prog: Programs, n: NodeId, ph: Phase): Sends {
    if ph.Sending? && ph.closing then Owed(prog, n, ph.got) + Asked(prog.close(n, ph.got)) else Owed(prog, n, ph.got)
  }

  /** The part of it for one port, in order. */
  function ForPort(out: Sends, port: PortId): seq<Packet> {
    if out == [] then []
    else
      var rest := ForPort(out[1..], port);
      if out[0].0 == port then [out[0].1] + rest else rest
  }

  lemma {:induction false} ForPortConcat(a: Sends, b: Sends, port: PortId)
    ensures ForPort(a + b, port) == ForPort(a, port) + ForPort(b, port)
  {
    if a == [] {
      assert a + b == b;
    } else {
      ForPortConcat(a[1..], b, port);
      assert (a + b)[1..] == a[1..] + b;
    }
  }

  function ToSend(ph: Phase): Sends {
    if ph.Sending? then ph.todo else []
  }

  /** The books of one port balance: what was sent, then what is still to be sent, is what is owed. */
  predicate Balanced(prog: Programs, net: Net, ph: Phase, at: Endpoint) {
    Sent(net, at) + ForPort(ToSend(ph), at.port) == ForPort(OwedIn(prog, at.node, ph), at.port)
  }

  // ---- What a node was given ------------------------------------------------------

  function Packets(got: Arrivals): seq<Packet> {
    seq(|got|, i requires 0 <= i < |got| => got[i].1)
  }

  /** The packets that arrived on one port. */
  function ArrivedOn(got: Arrivals, port: PortId): multiset<Packet> {
    if got == [] then multiset{}
    else
      var before, last := ArrivedOn(got[..|got| - 1], port), got[|got| - 1];
      if last.0 == port then before + multiset{last.1} else before
  }

  /** The packets delivered by the first `k` edges into an input port. */
  function DeliveredTo(edges: seq<Edge>, es: seq<EdgeState>, at: Endpoint, k: nat): multiset<Packet>
    requires k <= |edges| == |es|
  {
    if k == 0 then multiset{}
    else
      var before := DeliveredTo(edges, es, at, k - 1);
      if edges[k - 1].target == at then before + multiset(es[k - 1].received) else before
  }

  function Delivered(run: Run, net: Net, at: Endpoint): multiset<Packet>
    requires Shape(run, net)
  {
    DeliveredTo(run.w.edges, net.edges, at, |run.w.edges|)
  }

  lemma {:induction false} DeliveredFrame(
    edges: seq<Edge>, es: seq<EdgeState>, es': seq<EdgeState>, at: Endpoint, k: nat)
    requires k <= |edges| == |es| == |es'|
    requires forall i | 0 <= i < k && edges[i].target == at :: es[i].received == es'[i].received
    ensures DeliveredTo(edges, es, at, k) == DeliveredTo(edges, es', at, k)
  {
    if k > 0 {
      DeliveredFrame(edges, es, es', at, k - 1);
    }
  }

  lemma {:induction false} DeliveredGrows(
    edges: seq<Edge>, es: seq<EdgeState>, es': seq<EdgeState>, at: Endpoint, k: nat, j: nat, p: Packet)
    requires j < k <= |edges| == |es| == |es'| && edges[j].target == at
    requires es'[j].received == es[j].received + [p]
    requires forall i | 0 <= i < |es| && i != j :: es[i] == es'[i]
    ensures DeliveredTo(edges, es', at, k) == DeliveredTo(edges, es, at, k) + multiset{p}
  {
    if j == k - 1 {
      DeliveredFrame(edges, es, es', at, k - 1);
    } else {
      DeliveredGrows(edges, es, es', at, k - 1, j, p);
    }
  }

  lemma {:induction false} ArrivedAppend(got: Arrivals, port: PortId, p: Packet, q: PortId)
    ensures ArrivedOn(got + [(port, p)], q)
         == if port == q then ArrivedOn(got, q) + multiset{p} else ArrivedOn(got, q)
  {
    assert (got + [(port, p)])[..|got|] == got;
  }

  // ---- The accounts of a node -----------------------------------------------------

  /** Nobody has made the node stop before its end. */
  predicate Untroubled(run: Run, sys: Sys, n: NodeId) {
    Active(run, sys.net, n) || !sys.net.cancelled
  }

  /** A node at its end: its inputs were closed, and all was sent. */
  predicate Closed(ph: Phase) {
    ph.Sending? && ph.closing && ph.todo == []
  }

  /**
   For one node and one port name: until it is stopped, what it was given and what it sent account for each
   other exactly; whatever happens it sends no more than it owes; and ending early requests cancellation.
   */
  predicate Accounts(run: Run, prog: Programs, sys: Sys, at: Endpoint)
    requires Shape(run, sys.net)
  {
    var ph := PhaseOf(sys, at.node);
    && Sent(sys.net, at) <= ForPort(OwedIn(prog, at.node, ph), at.port)
    && (Untroubled(run, sys, at.node) ==> Balanced(prog, sys.net, ph, at))
    && (Untroubled(run, sys, at.node) ==> ArrivedOn(ph.got, at.port) == Delivered(run, sys.net, at))
    && (at.node in sys.net.finished && !sys.net.cancelled ==> Closed(ph))
  }

  lemma BalancedIsBounded(prog: Programs, net: Net, ph: Phase, at: Endpoint)
    requires Balanced(prog, net, ph, at)
    ensures Sent(net, at) <= ForPort(OwedIn(prog, at.node, ph), at.port)
  {
  }

  // ---- What a step does to them ---------------------------------------------------

  lemma FinishFrame(run: Run, net: Net, m: NodeId, at: Endpoint)
    requires Shape(run, net)
    ensures Sent(DoFinish(run, net, m), at) == Sent(net, at)
    ensures Delivered(run, DoFinish(run, net, m), at) == Delivered(run, net, at)
  {
    DeliveredFrame(run.w.edges, net.edges, DoFinish(run, net, m).edges, at, |run.w.edges|);
  }

  lemma SendThroughSends(run: Run, net: Net, at: Endpoint, p: Packet)
    requires Shape(run, net) && PortOutcome(PortEdges(run, net, Output, at)) == Granted && Accepted(run, at, p)
    ensures Sent(SendThrough(run, net, at, p), at) == Sent(net, at) + [p]
  {
  }

  lemma SendThroughLeaves(run: Run, net: Net, at: Endpoint, p: Packet, b: Endpoint)
    requires Shape(run, net)
    ensures b != at || !Accepted(run, at, p) ==> Sent(SendThrough(run, net, at, p), b) == Sent(net, b)
    ensures Delivered(run, SendThrough(run, net, at, p), b) == Delivered(run, net, b)
  {
    var net' := SendThrough(run, net, at, p);
    forall i | 0 <= i < |run.w.edges| ensures net.edges[i].received == net'.edges[i].received {
      ReserveReceives(run, net, at, i);
      CommitReceives(run, DoReserve(run, net, at), at, p, i);
    }
    DeliveredFrame(run.w.edges, net.edges, net'.edges, b, |run.w.edges|);
  }

  lemma ReserveReceives(run: Run, net: Net, at: Endpoint, i: nat)
    requires Shape(run, net) && i < |net.edges|
    ensures DoReserve(run, net, at).edges[i].received == net.edges[i].received
  {
  }

  lemma CommitReceives(run: Run, net: Net, at: Endpoint, p: Packet, i: nat)
    requires Shape(run, net) && i < |net.edges|
    ensures DoCommit(run, net, at, p).edges[i].received == net.edges[i].received
  {
  }

  lemma ReceiveDelivers(run: Run, net: Net, at: Endpoint, k: nat, b: Endpoint)
    requires Shape(run, net) && PollPort(PortEdges(run, net, Input, at)) == PortReady(k)
    ensures
      var p := PortEdges(run, net, Input, at)[k].queue[0];
      Delivered(run, DoReceive(run, net, at), b)
        == if b == at then Delivered(run, net, b) + multiset{p} else Delivered(run, net, b)
  {
    var idx := Incident(run.w.edges, Input, at);
    IncidentMeaning(run.w.edges, Input, at, |run.w.edges|);
    var i := idx[k];
    assert i in idx;
    var net' := DoReceive(run, net, at);
    assert net'.edges == net.edges[i := net.edges[i].Receive()];
    if b == at {
      DeliveredGrows(run.w.edges, net.edges, net'.edges, b, |run.w.edges|, i, net.edges[i].queue[0]);
    } else {
      DeliveredFrame(run.w.edges, net.edges, net'.edges, b, |run.w.edges|);
    }
  }

  lemma FailKeepsAccounts(run: Run, prog: Programs, sys: Sys, at: Endpoint)
    requires Shape(run, sys.net)
    requires Sent(sys.net, at) <= ForPort(OwedIn(prog, at.node, PhaseOf(sys, at.node)), at.port)
    ensures Accounts(run, prog, Fail(run, sys, at.node), at)
  {
    FinishFrame(run, sys.net, at.node, at);
  }

  lemma {:induction false} OwedGrows(prog: Programs, n: NodeId, got: Arrivals, x: (PortId, Packet), port: PortId)
    ensures ForPort(Owed(prog, n, got + [x]), port)
         == ForPort(Owed(prog, n, got), port) + ForPort(Asked(prog.react(n, got + [x])), port)
  {
    assert (got + [x])[..|got|] == got;
    ForPortConcat(Owed(prog, n, got), Asked(prog.react(n, got + [x])), port);
  }

  /** A packet is taken in, and the response to it is what is to be sent. */
  lemma TakeKeepsAccounts(run: Run, prog: Programs, sys: Sys, at: Endpoint, from: PortId, k: nat)
    requires Shape(run, sys.net) && Accounts(run, prog, sys, at) && Active(run, sys.net, at.node)
    requires PhaseOf(sys, at.node).Receiving?
    requires PollPort(PortEdges(run, sys.net, Input, Endpoint(at.node, from))) == PortReady(k)
    ensures
      var got, b := PhaseOf(sys, at.node).got, Endpoint(at.node, from);
      var got' := got + [(from, PortEdges(run, sys.net, Input, b)[k].queue[0])];
      var taken := sys.(net := DoReceive(run, sys.net, b));
      Accounts(run, prog, Respond(run, taken, at.node, got', prog.react(at.node, got'), false), at)
  {
    var n, got, b := at.node, PhaseOf(sys, at.node).got, Endpoint(at.node, from);
    var x := (from, PortEdges(run, sys.net, Input, b)[k].queue[0]);
    var taken := sys.(net := DoReceive(run, sys.net, b));
    var response := prog.react(n, got + [x]);
    if response.None? {
      FailKeepsAccounts(run, prog, taken, at);
    } else {
      OwedGrows(prog, n, got, x, at.port);
      ReceiveDelivers(run, sys.net, b, k, at);
      ArrivedAppend(got, from, x.1, at.port);
      var sys' := Respond(run, taken, n, got + [x], response, false);
      assert Balanced(prog, sys'.net, PhaseOf(sys', n), at);
      BalancedIsBounded(prog, sys'.net, PhaseOf(sys', n), at);
    }
  }

  lemma CloseKeepsAccounts(run: Run, prog: Programs, sys: Sys, at: Endpoint)
    requires Shape(run, sys.net) && Accounts(run, prog, sys, at) && Active(run, sys.net, at.node)
    requires PhaseOf(sys, at.node).Receiving?
    ensures
      var got := PhaseOf(sys, at.node).got;
      Accounts(run, prog, Respond(run, sys, at.node, got, prog.close(at.node, got), true), at)
  {
    var n, got := at.node, PhaseOf(sys, at.node).got;
    var response := prog.close(n, got);
    if response.None? {
      FailKeepsAccounts(run, prog, sys, at);
    } else {
      ForPortConcat(Owed(prog, n, got), Asked(response), at.port);
      var sys' := Respond(run, sys, n, got, response, true);
      assert Balanced(prog, sys'.net, PhaseOf(sys', n), at);
      BalancedIsBounded(prog, sys'.net, PhaseOf(sys', n), at);
    }
  }

  lemma ReceiveKeepsAccounts(run: Run, prog: Programs, sys: Sys, at: Endpoint)
    requires Shape(run, sys.net) && Accounts(run, prog, sys, at) && Active(run, sys.net, at.node)
    requires PhaseOf(sys, at.node).Receiving?
    ensures Accounts(run, prog, PollReceive(run, prog, sys, at.node, PhaseOf(sys, at.node).got), at)
  {
    var n, poll := at.node, PollAny(InputPolls(run, sys.net, at.node));
    if sys.net.cancelled && Checks(run, prog, n) {
      FailKeepsAccounts(run, prog, sys, at);
    } else if poll.AnyReady? {
      TakeKeepsAccounts(run, prog, sys, at, InputsOf(run.w.nodes, n)[poll.port], poll.index);
    } else if poll.AllClosed? {
      CloseKeepsAccounts(run, prog, sys, at);
    }
  }

  /** A packet goes out, and is struck from what is to be sent; no other is. */
  lemma PushKeepsAccounts(run: Run, prog: Programs, sys: Sys, at: Endpoint)
    requires Shape(run, sys.net) && Accounts(run, prog, sys, at) && Active(run, sys.net, at.node)
    requires PhaseOf(sys, at.node).Sending? && PhaseOf(sys, at.node).todo != []
    requires PortOutcome(PortEdges(run, sys.net, Output, Endpoint(at.node, PhaseOf(sys, at.node).todo[0].0))) == Granted
    ensures Accounts(run, prog, PushNext(run, sys, at.node, PhaseOf(sys, at.node)), at)
  {
    var n, ph := at.node, PhaseOf(sys, at.node);
    var b, p := Endpoint(n, ph.todo[0].0), ph.todo[0].1;
    var put := Sys(SendThrough(run, sys.net, b, p), sys.phases[n := ph.(todo := ph.todo[1..])]);
    SendThroughLeaves(run, sys.net, b, p, at);
    if Accepted(run, b, p) {
      SendThroughSends(run, sys.net, b, p);
      StruckIsBalanced(prog, sys.net, put.net, ph, at);
      BalancedIsBounded(prog, put.net, PhaseOf(put, n), at);
    } else {
      FailKeepsAccounts(run, prog, put, at);
    }
  }

  lemma StruckIsBalanced(prog: Programs, net: Net, net': Net, ph: Phase, at: Endpoint)
    requires ph.Sending? && ph.todo != [] && Balanced(prog, net, ph, at)
    requires Sent(net', at) == if ph.todo[0].0 == at.port then Sent(net, at) + [ph.todo[0].1] else Sent(net, at)
    ensures Balanced(prog, net', ph.(todo := ph.todo[1..]), at)
  {
    Strike(Sent(net, at), ph.todo[0].1, ForPort(ph.todo[1..], at.port));
  }

  lemma Strike(sent: seq<Packet>, p: Packet, rest: seq<Packet>)
    ensures sent + [p] + rest == sent + ([p] + rest)
  {
  }

  lemma SendKeepsAccounts(run: Run, prog: Programs, sys: Sys, at: Endpoint)
    requires Shape(run, sys.net) && Accounts(run, prog, sys, at) && Active(run, sys.net, at.node)
    requires PhaseOf(sys, at.node).Sending?
    ensures Accounts(run, prog, PollSend(run, prog, sys, at.node, PhaseOf(sys, at.node)), at)
  {
    var n, ph := at.node, PhaseOf(sys, at.node);
    FailKeepsAccounts(run, prog, sys, at);
    if ph.todo == [] {
      FinishFrame(run, sys.net, n, at);
    } else if PortOutcome(PortEdges(run, sys.net, Output, Endpoint(n, ph.todo[0].0))) == Granted {
      PushKeepsAccounts(run, prog, sys, at);
    }
  }

  // ---- Other nodes do not touch them ----------------------------------------------

  lemma ReceiveLeavesBooks(run: Run, prog: Programs, sys: Sys, m: NodeId, got: Arrivals, at: Endpoint)
    requires Shape(run, sys.net) && m != at.node
    ensures
      var net' := PollReceive(run, prog, sys, m, got).net;
      Sent(net', at) == Sent(sys.net, at) && Delivered(run, net', at) == Delivered(run, sys.net, at)
  {
    FinishFrame(run, sys.net, m, at);
    var poll := PollAny(InputPolls(run, sys.net, m));
    if poll.AnyReady? {
      var b := Endpoint(m, InputsOf(run.w.nodes, m)[poll.port]);
      ReceiveDelivers(run, sys.net, b, poll.index, at);
      FinishFrame(run, DoReceive(run, sys.net, b), m, at);
    }
  }

  lemma PushLeavesBooks(run: Run, sys: Sys, m: NodeId, ph: Phase, at: Endpoint)
    requires Shape(run, sys.net) && m != at.node && ph.Sending? && ph.todo != []
    ensures
      var net' := PushNext(run, sys, m, ph).net;
      Sent(net', at) == Sent(sys.net, at) && Delivered(run, net', at) == Delivered(run, sys.net, at)
  {
    var b, p := Endpoint(m, ph.todo[0].0), ph.todo[0].1;
    SendThroughLeaves(run, sys.net, b, p, at);
    FinishFrame(run, SendThrough(run, sys.net, b, p), m, at);
  }

  lemma SendLeavesBooks(run: Run, prog: Programs, sys: Sys, m: NodeId, ph: Phase, at: Endpoint)
    requires Shape(run, sys.net) && m != at.node && ph.Sending?
    ensures
      var net' := PollSend(run, prog, sys, m, ph).net;
      Sent(net', at) == Sent(sys.net, at) && Delivered(run, net', at) == Delivered(run, sys.net, at)
  {
    FinishFrame(run, sys.net, m, at);
    if ph.todo != [] {
      PushLeavesBooks(run, sys, m, ph, at);
    }
  }

  lemma PollKeepsCancelled(run: Run, prog: Programs, sys: Sys, m: NodeId)
    requires Shape(run, sys.net) && sys.net.cancelled
    ensures Poll(run, prog, sys, m).net.cancelled
  {
  }

  lemma OthersKeepAccounts(run: Run, prog: Programs, sys: Sys, m: NodeId, at: Endpoint)
    requires Shape(run, sys.net) && Accounts(run, prog, sys, at) && m != at.node
    ensures Accounts(run, prog, Poll(run, prog, sys, m), at)
  {
    var ph := PhaseOf(sys, m);
    PollLeavesPhases(run, prog, sys, m, at.node);
    if Active(run, sys.net, m) {
      if ph.Receiving? {
        ReceiveLeavesBooks(run, prog, sys, m, ph.got, at);
      } else {
        SendLeavesBooks(run, prog, sys, m, ph, at);
      }
    }
    if sys.net.cancelled {
      PollKeepsCancelled(run, prog, sys, m);
    }
  }

  lemma PollKeepsAccounts(run: Run, prog: Programs, sys: Sys, m: NodeId, at: Endpoint)
    requires Shape(run, sys.net) && Accounts(run, prog, sys, at)
    ensures Accounts(run, prog, Poll(run, prog, sys, m), at)
  {
    if m != at.node {
      OthersKeepAccounts(run, prog, sys, m, at);
    } else if Active(run, sys.net, m) {
      if PhaseOf(sys, m).Receiving? {
        ReceiveKeepsAccounts(run, prog, sys, at);
      } else {
        SendKeepsAccounts(run, prog, sys, at);
      }
    }
  }

  // ---- Every run ------------------------------------------------------------------

  lemma {:induction false} NothingDelivered(edges: seq<Edge>, es: seq<EdgeState>, at: Endpoint, k: nat)
    requires k <= |edges| == |es| && forall i | 0 <= i < |es| :: es[i].received == []
    ensures DeliveredTo(edges, es, at, k) == multiset{}
  {
    if k > 0 {
      NothingDelivered(edges, es, at, k - 1);
    }
  }

  /** At every moment of every run, fair or not, the accounts of every node are in order. */
  lemma {:induction false} AccountsHold(run: Run, prog: Programs, sched: Schedule, i: nat, at: Endpoint)
    ensures Accounts(run, prog, At(run, prog, sched, i), at)
  {
    if i == 0 {
      NothingDelivered(run.w.edges, Initial(run).edges, at, |run.w.edges|);
    } else {
      AccountsHold(run, prog, sched, i - 1, at);
      PollKeepsAccounts(run, prog, At(run, prog, sched, i - 1), sched(i - 1), at);
    }
  }

  /** Once cancellation is requested nothing more is sent. */
  lemma CancelledSendsNothing(run: Run, prog: Programs, sys: Sys, m: NodeId, at: Endpoint)
    requires Shape(run, sys.net) && sys.net.cancelled
    ensures Sent(Poll(run, prog, sys, m).net, at) == Sent(sys.net, at)
  {
    var ph := PhaseOf(sys, m);
    FinishFrame(run, sys.net, m, at);
    if ph.Receiving? && PollAny(InputPolls(run, sys.net, m)).AnyReady? {
      var poll := PollAny(InputPolls(run, sys.net, m));
      FinishFrame(run, DoReceive(run, sys.net, Endpoint(m, InputsOf(run.w.nodes, m)[poll.port])), m, at);
    }
  }

  /** What has been sent to a port by all the output ports that feed it. */
  function SentTo(edges: seq<Edge>, net: Net, at: Endpoint, k: nat): multiset<Packet>
    requires k <= |edges|
  {
    if k == 0 then multiset{}
    else
      var before := SentTo(edges, net, at, k - 1);
      if edges[k - 1].target == at then before + multiset(Sent(net, edges[k - 1].source)) else before
  }

  lemma {:induction false} DeliveredIsSent(edges: seq<Edge>, net: Net, at: Endpoint, k: nat)
    requires k <= |edges| == |net.edges|
    requires forall i | 0 <= i < |edges| :: net.edges[i].received == Sent(net, edges[i].source)
    ensures DeliveredTo(edges, net.edges, at, k) == SentTo(edges, net, at, k)
  {
    if k > 0 {
      DeliveredIsSent(edges, net, at, k - 1);
    }
  }

  /** A node that is done: it was given all that was sent to it, and each of its ports carried exactly what it owed. */
  ghost predicate Settled(run: Run, prog: Programs, sys: Sys, n: NodeId) {
    var ph := PhaseOf(sys, n);
    && Closed(ph)
    && (forall port :: ArrivedOn(ph.got, port) == SentTo(run.w.edges, sys.net, Endpoint(n, port), |run.w.edges|))
    && (forall port :: Sent(sys.net, Endpoint(n, port)) == ForPort(OwedIn(prog, n, ph), port))
  }

  /** With well-behaved nodes, every fair run of an acyclic workflow settles every node. */
  lemma RunsSettle(run: Run, prog: Programs, sched: Schedule) returns (i: nat)
    requires Valid(run.w) && !Cyclic(run.w.edges) && Streams(run, prog) && Fair(run, sched)
    requires WellBehaved(run, prog)
    ensures AllFinished(run, At(run, prog, sched, i).net) && !At(run, prog, sched, i).net.cancelled
    ensures forall n | Declared(run.w.nodes, n) :: Settled(run, prog, At(run, prog, sched, i), n)
  {
    i := RunsDeliver(run, prog, sched);
    var sys := At(run, prog, sched, i);
    forall n | Declared(run.w.nodes, n) ensures Settled(run, prog, sys, n) {
      AccountsHold(run, prog, sched, i, Endpoint(n, ""));
      forall port
        ensures ArrivedOn(PhaseOf(sys, n).got, port) == SentTo(run.w.edges, sys.net, Endpoint(n, port), |run.w.edges|)
        ensures Sent(sys.net, Endpoint(n, port)) == ForPort(OwedIn(prog, n, PhaseOf(sys, n)), port)
      {
        AccountsHold(run, prog, sched, i, Endpoint(n, port));
        DeliveredIsSent(run.w.edges, sys.net, Endpoint(n, port), |run.w.edges|);
        assert ForPort(ToSend(PhaseOf(sys, n)), port) == [];
      }
    }
  }

  /** Once cancellation is requested, a node ends at its next receive, send, or end of a packet. */
  lemma CancelledEndsNode(run: Run, prog: Programs, sys: Sys, n: NodeId)
    requires Shape(run, sys.net) && sys.net.cancelled && Active(run, sys.net, n)
    requires
      || (PhaseOf(sys, n).Receiving? && Checks(run, prog, n))
      || (PhaseOf(sys, n).Sending? && (PhaseOf(sys, n).todo != [] || PhaseOf(sys, n).closing || n in prog.streams))
    ensures n in Poll(run, prog, sys, n).net.finished
  {
  }
}
