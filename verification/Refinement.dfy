/** The in-place port operations on wired channels simulate the steps of `Network`, edge by edge. */
module Refinement {
  import opened Types
  import opened Edges
  import opened Validation
  import opened Ports
  import opened Wiring
  import Network

  /** The channels of a run hold exactly the edge states of `net`. */
  ghost predicate Holds(run: Network.Run, net: Network.Net, channels: seq<Channel>)
    reads channels
  {
    && Network.Shape(run, net) && |channels| == |net.edges| && Distinct(channels)
    && Views(channels) == net.edges
  }

  /** The handle `WireWorkflow` gives a node for one of its ports. */
  function HandleAt(run: Network.Run, channels: seq<Channel>, side: Side, at: Endpoint): Handle
    requires |channels| == |run.w.edges|
  {
    Handle(at.port, Pick(channels, Incident(run.w.edges, side, at)))
  }

  /** A handle lists different channels: those of the edges attached to its port. */
  lemma HandleLists(run: Network.Run, channels: seq<Channel>, side: Side, at: Endpoint)
    requires |channels| == |run.w.edges| && Distinct(channels)
    ensures Distinct(HandleAt(run, channels, side, at).channels)
    ensures forall i | 0 <= i < |channels| ::
      channels[i] in HandleAt(run, channels, side, at).channels <==> End(run.w.edges[i], side) == at
  {
    var idx, picked := Incident(run.w.edges, side, at), HandleAt(run, channels, side, at).channels;
    IncidentMeaning(run.w.edges, side, at, |run.w.edges|);
    forall i, j | 0 <= i < j < |picked| ensures picked[i] != picked[j] {
      assert idx[i] < idx[j];
    }
    forall i | 0 <= i < |channels| ensures channels[i] in picked <==> End(run.w.edges[i], side) == at {
      if i in idx {
        var j :| 0 <= j < |idx| && idx[j] == i;
        assert picked[j] == channels[i];
      } else {
        forall j | 0 <= j < |picked| ensures picked[j] != channels[i] {
          assert idx[j] in idx;
        }
      }
    }
  }

  lemma HandleViews(run: Network.Run, net: Network.Net, channels: seq<Channel>, side: Side, at: Endpoint)
    requires Holds(run, net, channels)
    ensures Views(HandleAt(run, channels, side, at).channels) == Network.PortEdges(run, net, side, at)
  {
  }

  method ReserveStep(
    ghost run: Network.Run, ghost net: Network.Net, ghost channels: seq<Channel>, ghost at: Endpoint, h: Handle)
    returns (r: Result<Permit, SendError>)
    requires Holds(run, net, channels) && h == HandleAt(run, channels, Output, at)
    modifies h.channels
    ensures Holds(run, Network.DoReserve(run, net, at), channels)
    ensures r.Ok? <==> PortOutcome(Network.PortEdges(run, net, Output, at)) == Granted
    ensures r.Ok? ==> r.value == Permit(at.port, h.channels)
  {
    HandleLists(run, channels, Output, at);
    HandleViews(run, net, channels, Output, at);
    r := TryReserve(h);
    forall i | 0 <= i < |channels|
      ensures channels[i].View() == Network.DoReserve(run, net, at).edges[i]
    {
      if channels[i] in h.channels {
        var j :| 0 <= j < |h.channels| && h.channels[j] == channels[i];
      }
    }
  }

  method CommitStep(
    ghost run: Network.Run, ghost net: Network.Net, ghost channels: seq<Channel>, ghost at: Endpoint,
    permit: Permit, validator: Option<Validator>, p: Packet)
    returns (r: Option<SendError>)
    requires Holds(run, net, channels) && Network.Permits(net, at) > 0
    requires permit == Permit(at.port, HandleAt(run, channels, Output, at).channels)
    requires validator == Network.ValidatorFor(run, at.node)
    modifies permit.channels
    ensures Holds(run, Network.DoCommit(run, net, at, p), channels)
    ensures r.None? <==> Network.Accepted(run, at, p)
  {
    HandleLists(run, channels, Output, at);
    r := SendPermit(permit, validator, p);
    forall i | 0 <= i < |channels|
      ensures channels[i].View() == Network.DoCommit(run, net, at, p).edges[i]
    {
      if channels[i] in permit.channels {
        var j :| 0 <= j < |permit.channels| && permit.channels[j] == channels[i];
      }
    }
  }

  method AbortStep(
    ghost run: Network.Run, ghost net: Network.Net, ghost channels: seq<Channel>, ghost at: Endpoint, permit: Permit)
    requires Holds(run, net, channels) && Network.Permits(net, at) > 0
    requires permit == Permit(at.port, HandleAt(run, channels, Output, at).channels)
    modifies permit.channels
    ensures Holds(run, Network.DoAbort(run, net, at), channels)
  {
    HandleLists(run, channels, Output, at);
    AbortAll(permit.channels);
    forall i | 0 <= i < |channels| ensures channels[i].View() == Network.DoAbort(run, net, at).edges[i] {
      if channels[i] in permit.channels {
        var j :| 0 <= j < |permit.channels| && permit.channels[j] == channels[i];
      }
    }
  }

  method ReceiveStep(
    ghost run: Network.Run, ghost net: Network.Net, ghost channels: seq<Channel>, ghost at: Endpoint, h: Handle)
    returns (r: Polled)
    requires Holds(run, net, channels) && h == HandleAt(run, channels, Input, at)
    modifies h.channels
    ensures Holds(run, Network.DoReceive(run, net, at), channels)
    ensures r.Arrived? <==> PollPort(Network.PortEdges(run, net, Input, at)).PortReady?
    ensures r.Closed? <==> PollPort(Network.PortEdges(run, net, Input, at)).PortClosed?
  {
    HandleLists(run, channels, Input, at);
    HandleViews(run, net, channels, Input, at);
    ghost var poll := PollPort(Network.PortEdges(run, net, Input, at));
    r := PollInput(h, poll);
    if r.Arrived? {
      ghost var k := Incident(run.w.edges, Input, at)[poll.index];
      assert h.channels[poll.index] == channels[k];
      forall i | 0 <= i < |channels| ensures channels[i].View() == Network.DoReceive(run, net, at).edges[i] {
        if i != k {
          assert channels[i] != channels[k];
        }
      }
    }
  }

  // ---- A node ends ----------------------------------------------------------------

  /** The edges after a node has dropped the given output and input ports. */
  ghost function Detached(run: Network.Run, net: Network.Net, node: NodeId, outs: set<PortId>, ins: set<PortId>)
    : (es: seq<EdgeState>)
    requires Network.Shape(run, net)
    ensures |es| == |net.edges|
  {
    seq(|net.edges|, i requires 0 <= i < |net.edges| => DetachedEdge(run, net, node, outs, ins, i))
  }

  ghost function DetachedEdge(
    run: Network.Run, net: Network.Net, node: NodeId, outs: set<PortId>, ins: set<PortId>, i: nat): EdgeState
    requires Network.Shape(run, net) && i < |net.edges|
  {
    var e, at := net.edges[i], run.w.edges[i];
    var e' :=
      if at.source.node == node && at.source.port in outs then e.DropSender(Network.Permits(net, at.source)) else e;
    if at.target.node == node && at.target.port in ins then e'.DropReceiver() else e'
  }

  method DropOutput(
    ghost run: Network.Run, ghost net: Network.Net, ghost channels: seq<Channel>, ghost outs: set<PortId>,
    ghost at: Endpoint, h: Handle, held: nat)
    requires Network.Shape(run, net) && |channels| == |net.edges| && Distinct(channels)
    requires Views(channels) == Detached(run, net, at.node, outs, {}) && at.port !in outs
    requires h == HandleAt(run, channels, Output, at) && held == Network.Permits(net, at)
    modifies h.channels
    ensures Views(channels) == Detached(run, net, at.node, outs + {at.port}, {})
  {
    HandleLists(run, channels, Output, at);
    ghost var before := Views(channels);
    DropSenders(h, held);
    forall i | 0 <= i < |channels|
      ensures channels[i].View() == DetachedEdge(run, net, at.node, outs + {at.port}, {}, i)
    {
      assert before[i] == DetachedEdge(run, net, at.node, outs, {}, i);
      if channels[i] in h.channels {
        var j :| 0 <= j < |h.channels| && h.channels[j] == channels[i];
      }
    }
  }

  method DropInput(
    ghost run: Network.Run, ghost net: Network.Net, ghost channels: seq<Channel>, ghost outs: set<PortId>,
    ghost ins: set<PortId>, ghost at: Endpoint, h: Handle)
    requires Network.Shape(run, net) && |channels| == |net.edges| && Distinct(channels)
    requires Views(channels) == Detached(run, net, at.node, outs, ins) && at.port !in ins
    requires h == HandleAt(run, channels, Input, at)
    modifies h.channels
    ensures Views(channels) == Detached(run, net, at.node, outs, ins + {at.port})
  {
    HandleLists(run, channels, Input, at);
    ghost var before := Views(channels);
    DropReceivers(h);
    forall i | 0 <= i < |channels|
      ensures channels[i].View() == DetachedEdge(run, net, at.node, outs, ins + {at.port}, i)
    {
      assert before[i] == DetachedEdge(run, net, at.node, outs, ins, i);
      if channels[i] in h.channels {
        var j :| 0 <= j < |h.channels| && h.channels[j] == channels[i];
      }
    }
  }
}
