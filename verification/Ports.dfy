/** Channels and port handles: two-phase fan-out sends and ordered fan-in receives, in place. */
module Ports {
  import opened Types
  import opened Edges
  import opened Validation

  datatype SendError =
    | OutputDisconnected
    | OutputFull
    | SendCancelled
    | Rejected(reason: Rejection)

  /** The bounded channel of one edge. */
  class Channel {
    const capacity: nat
    var queue: seq<Packet>
    var reserved: nat
    var senderAlive: bool
    var receiverAlive: bool
    ghost var committed: seq<Packet>
    ghost var received: seq<Packet>

    ghost function View(): EdgeState
      reads this
    {
      EdgeState(capacity, queue, reserved, senderAlive, receiverAlive, committed, received)
    }

    constructor (capacity: nat)
      ensures View() == Fresh(capacity)
    {
      this.capacity := capacity;
      queue, reserved, senderAlive, receiverAlive := [], 0, true, true;
      committed, received := [], [];
    }

    method TryReserve() returns (outcome: SendOutcome)
      modifies this
      ensures outcome == old(View()).ReserveOutcome()
      ensures View() == if outcome == Granted then old(View()).Reserve() else old(View())
    {
      if !receiverAlive {
        return Disconnected;
      }
      if |queue| + reserved >= capacity {
        return Full;
      }
      reserved := reserved + 1;
      outcome := Granted;
    }

    method Abort()
      modifies this
      ensures View() == old(View()).Release()
    {
      if reserved > 0 {
        reserved := reserved - 1;
      }
    }

    method Send(p: Packet)
      modifies this
      ensures View() == old(View()).Commit(p)
    {
      Abort();
      if receiverAlive {
        queue := queue + [p];
        committed := committed + [p];
      }
    }

    /** The sender is dropped, with the permits its node still held. */
    method DropSender(held: nat)
      modifies this
      ensures View() == old(View()).DropSender(held)
    {
      senderAlive := false;
      reserved := if held <= reserved then reserved - held else 0;
    }

    method DropReceiver()
      modifies this
      ensures View() == old(View()).DropReceiver()
    {
      receiverAlive := false;
    }

    /** `None` stands for both an empty and a disconnected channel; `Drained` tells them apart. */
    method TryRecv() returns (r: Option<Packet>)
      modifies this
      ensures r.Some? <==> old(queue) != []
      ensures r.Some? ==> r.value == old(queue)[0] && View() == old(View()).Receive()
      ensures r.None? ==> unchanged(this)
    {
      if queue == [] {
        return None;
      }
      r := Some(queue[0]);
      received := received + [queue[0]];
      queue := queue[1..];
    }
  }

  ghost function Views(cs: seq<Channel>): (vs: seq<EdgeState>)
    reads cs
    ensures |vs| == |cs| && forall i | 0 <= i < |cs| :: vs[i] == cs[i].View()
  {
    seq(|cs|, i requires 0 <= i < |cs| reads cs => cs[i].View())
  }

  predicate Distinct(cs: seq<Channel>) {
    forall i, j | 0 <= i < j < |cs| :: cs[i] != cs[j]
  }

  /** A declared port and its edges: the senders of an output port or the receivers of an input port. */
  datatype Handle = Handle(port: PortId, channels: seq<Channel>)

  datatype Permit = Permit(port: PortId, channels: seq<Channel>)

  /** Reserve a slot on every edge or on none: slots taken before a refusal are given back. */
  method TryReserve(h: Handle) returns (r: Result<Permit, SendError>)
    requires Distinct(h.channels)
    modifies h.channels
    ensures PortOutcome(old(Views(h.channels))) == Granted ==>
      && r == Ok(Permit(h.port, h.channels))
      && forall i | 0 <= i < |h.channels| :: h.channels[i].View() == old(h.channels[i].View()).Reserve()
    ensures PortOutcome(old(Views(h.channels))) != Granted ==>
      && r == Err(if PortOutcome(old(Views(h.channels))) == Full then OutputFull else OutputDisconnected)
      && forall i | 0 <= i < |h.channels| :: h.channels[i].View() == old(h.channels[i].View())
  {
    var taken, outcome := ReserveEach(h.channels);
    if outcome == Granted {
      return Ok(Permit(h.port, h.channels));
    }
    AbortAll(h.channels[..taken]);
    r := Err(if outcome == Full then OutputFull else OutputDisconnected);
  }

  /** The reservation loop: stops at the first refusal with `taken` slots in hand. */
  method ReserveEach(senders: seq<Channel>) returns (taken: nat, outcome: SendOutcome)
    requires Distinct(senders)
    modifies senders
    ensures outcome == PortOutcome(old(Views(senders)))
    ensures taken <= |senders| && (outcome == Granted ==> taken == |senders|)
    ensures forall j | 0 <= j < |senders| ::
      senders[j].View() == if j < taken then old(senders[j].View()).Reserve() else old(senders[j].View())
  {
    ghost var views := Views(senders);
    assert views[0..] == views;
    taken := 0;
    while taken < |senders|
      invariant taken <= |senders|
      invariant PortOutcome(views) == PortOutcome(views[taken..])
      invariant forall j | 0 <= j < |senders| ::
          senders[j].View() == if j < taken then views[j].Reserve() else views[j]
    {
      assert views[taken..][0] == views[taken] && views[taken..][1..] == views[taken + 1..];
      outcome := senders[taken].TryReserve();
      if outcome != Granted {
        return;
      }
      taken := taken + 1;
    }
    outcome := Granted;
  }

  /** Give back every slot held: an explicit abort, a dropped permit, or an unwound reservation. */
  method AbortAll(channels: seq<Channel>)
    requires Distinct(channels)
    modifies channels
    ensures forall i | 0 <= i < |channels| :: channels[i].View() == old(channels[i].View()).Release()
  {
    for i := 0 to |channels|
      invariant forall j | 0 <= j < i :: channels[j].View() == old(channels[j].View()).Release()
      invariant forall j | i <= j < |channels| :: channels[j].View() == old(channels[j].View())
    {
      channels[i].Abort();
    }
  }

  /** An output handle is dropped with its node, along with `held` permits on it. */
  method DropSenders(h: Handle, held: nat)
    requires Distinct(h.channels)
    modifies h.channels
    ensures forall i | 0 <= i < |h.channels| :: h.channels[i].View() == old(h.channels[i].View()).DropSender(held)
  {
    for i := 0 to |h.channels|
      invariant forall j | 0 <= j < i :: h.channels[j].View() == old(h.channels[j].View()).DropSender(held)
      invariant forall j | i <= j < |h.channels| :: h.channels[j].View() == old(h.channels[j].View())
    {
      h.channels[i].DropSender(held);
    }
  }

  method DropReceivers(h: Handle)
    requires Distinct(h.channels)
    modifies h.channels
    ensures forall i | 0 <= i < |h.channels| :: h.channels[i].View() == old(h.channels[i].View()).DropReceiver()
  {
    for i := 0 to |h.channels|
      invariant forall j | 0 <= j < i :: h.channels[j].View() == old(h.channels[j].View()).DropReceiver()
      invariant forall j | i <= j < |h.channels| :: h.channels[j].View() == old(h.channels[j].View())
    {
      h.channels[i].DropReceiver();
    }
  }

  /** Commit a permit: the same packet on every edge, or on none when the validator rejects it. */
  method SendPermit(permit: Permit, validator: Option<Validator>, p: Packet) returns (r: Option<SendError>)
    requires Distinct(permit.channels)
    modifies permit.channels
    ensures r == (match validator
                  case None => None
                  case Some(v) =>
                    match Validate(v, permit.port, p) case None => None case Some(reason) => Some(Rejected(reason)))
    ensures r.None? ==> forall i | 0 <= i < |permit.channels| ::
        permit.channels[i].View() == old(permit.channels[i].View()).Commit(p)
    ensures r.Some? ==> forall i | 0 <= i < |permit.channels| ::
        permit.channels[i].View() == old(permit.channels[i].View()).Release()
  {
    if validator.Some? && Validate(validator.value, permit.port, p).Some? {
      AbortAll(permit.channels);
      return Some(Rejected(Validate(validator.value, permit.port, p).value));
    }
    for i := 0 to |permit.channels|
      invariant forall j | 0 <= j < i ::
          permit.channels[j].View() == old(permit.channels[j].View()).Commit(p)
      invariant forall j | i <= j < |permit.channels| ::
          permit.channels[j].View() == old(permit.channels[j].View())
    {
      permit.channels[i].Send(p);
    }
    r := None;
  }

  /** One poll of `reserve`: cancelled, a permit, a hard error, or suspended (`None`) holding nothing. */
  method PollReserve(h: Handle, cancelled: bool) returns (r: Option<Result<Permit, SendError>>)
    requires Distinct(h.channels)
    modifies h.channels
    ensures r == (match Edges.PollReserve(cancelled, PortOutcome(old(Views(h.channels))))
                  case ReserveCancelled => Some(Err(SendCancelled))
                  case ReserveGranted => Some(Ok(Permit(h.port, h.channels)))
                  case ReserveDisconnected => Some(Err(OutputDisconnected))
                  case ReserveYields => None)
    ensures forall i | 0 <= i < |h.channels| ::
      h.channels[i].View() ==
        if r.Some? && r.value.Ok? then old(h.channels[i].View()).Reserve() else old(h.channels[i].View())
  {
    if cancelled {
      return Some(Err(SendCancelled));
    }
    var attempt := TryReserve(h);
    r := if attempt == Err(OutputFull) then None else Some(attempt);
  }

  datatype Polled = Arrived(packet: Packet) | Closed | Pending

  /** One pass over the edges of an input port, in declaration order. */
  method PollInput(h: Handle, ghost poll: PortPoll) returns (r: Polled)
    requires poll == PollPort(Views(h.channels))
    modifies h.channels
    ensures r.Arrived? <==> poll.PortReady?
    ensures r.Closed? <==> poll.PortClosed?
    ensures !r.Arrived? ==> unchanged(h.channels)
    ensures r.Arrived? ==>
      var c := h.channels[poll.index];
      && r.packet == old(c.queue)[0]
      && c.View() == old(c.View()).Receive()
      && forall d | d in h.channels && d != c :: d.View() == old(d.View())
  {
    var disconnected := 0;
    ghost var views := Views(h.channels);
    PollFromMeaning(views, 0);
    for i := 0 to |h.channels|
      invariant unchanged(h.channels)
      invariant forall j | 0 <= j < i :: views[j].queue == []
      invariant disconnected <= i
      invariant disconnected == i <==> forall j | 0 <= j < i :: views[j].Drained()
    {
      var got := h.channels[i].TryRecv();
      if got.Some? {
        return Arrived(got.value);
      }
      assert views[i].queue == [];
      if !h.channels[i].senderAlive {
        disconnected := disconnected + 1;
      }
    }
    if disconnected == |h.channels| {
      return Closed;
    }
    r := Pending;
  }

  function Flatten(ports: seq<Handle>): set<Channel> {
    set h, c | h in ports && c in h.channels :: c
  }

  ghost function Polls(ports: seq<Handle>): (ps: seq<PortPoll>)
    reads Flatten(ports)
    ensures |ps| == |ports|
  {
    if ports == [] then []
    else
      assert Flatten(ports) == (set c | c in ports[0].channels) + Flatten(ports[1..]);
      [PollPort(Views(ports[0].channels))] + Polls(ports[1..])
  }

  lemma {:induction false} PollsAt(ports: seq<Handle>, i: nat)
    requires i < |ports|
    ensures Polls(ports)[i] == PollPort(Views(ports[i].channels))
  {
    if i > 0 {
      PollsAt(ports[1..], i - 1);
    }
  }

  lemma InFlatten(ports: seq<Handle>, i: nat)
    requires i < |ports|
    ensures forall c | c in ports[i].channels :: c in Flatten(ports)
  {
  }

  datatype PolledAny = Took(port: PortId, packet: Packet) | NoMore | Cancelled | Suspended

  method PollNth(ports: seq<Handle>, i: nat, ghost polls: seq<PortPoll>, ghost all: set<Channel>)
    returns (r: Polled)
    requires all == Flatten(ports) && polls == Polls(ports) && i < |ports|
    modifies all
    ensures polls[i].PortReady? ==> polls[i].index < |ports[i].channels|
    ensures r.Arrived? <==> polls[i].PortReady?
    ensures r.Closed? <==> polls[i].PortClosed?
    ensures !r.Arrived? ==> unchanged(all)
    ensures r.Arrived? ==>
      var c := ports[i].channels[polls[i].index];
      && old(c.queue) != [] && r.packet == old(c.queue)[0]
      && c.View() == old(c.View()).Receive()
      && forall d | d in all && d != c :: d.View() == old(d.View())
  {
    InFlatten(ports, i);
    PollsAt(ports, i);
    r := PollInput(ports[i], polls[i]);
  }

  /** The pass of `recv_any` over the ports: stops at the first that yields a packet. */
  method PollEach(ports: seq<Handle>, ghost polls: seq<PortPoll>, ghost all: set<Channel>)
    returns (i: nat, packet: Option<Packet>, closed: nat)
    requires all == Flatten(ports) && polls == Polls(ports)
    modifies all
    ensures closed == |ports| <==> PollAny(polls).AllClosed?
    ensures packet.Some? <==> PollAny(polls).AnyReady?
    ensures packet.None? ==> unchanged(all)
    ensures packet.Some? ==> i == PollAny(polls).port && polls[i].index < |ports[i].channels|
    ensures packet.Some? ==>
      var c := ports[i].channels[polls[i].index];
      && old(c.queue) != [] && packet.value == old(c.queue)[0]
      && c.View() == old(c.View()).Receive()
      && forall d | d in all && d != c :: d.View() == old(d.View())
  {
    i, closed, packet := 0, 0, None;
    while i < |ports|
      invariant i <= |ports| && closed <= i && packet.None?
      invariant unchanged(all)
      invariant PollAny(polls) ==
          if closed == i then PollAnyFrom(polls, i) else NotClosed(PollAnyFrom(polls, i))
    {
      var polled := PollNth(ports, i, polls, all);
      if polled.Arrived? {
        packet := Some(polled.packet);
        return;
      }
      if polled.Closed? {
        closed := closed + 1;
      }
      i := i + 1;
    }
  }

  /** One poll of `recv_any`. */
  method PollRecvAny(ports: seq<Handle>, cancelled: bool) returns (r: PolledAny)
    modifies Flatten(ports)
    ensures ports == [] ==> r == NoMore
    ensures ports != [] && cancelled ==> r == Cancelled
    ensures ports != [] && !cancelled ==>
      && (r.Took? <==> PollAny(old(Polls(ports))).AnyReady?)
      && (r.NoMore? <==> PollAny(old(Polls(ports))).AllClosed?)
      && !r.Cancelled?
    ensures r.Took? ==>
      var poll := PollAny(old(Polls(ports)));
      poll.index < |ports[poll.port].channels| &&
      var c := ports[poll.port].channels[poll.index];
      && old(c.queue) != [] && r == Took(ports[poll.port].port, old(c.queue)[0])
      && c.View() == old(c.View()).Receive()
      && forall d | d in Flatten(ports) && d != c :: d.View() == old(d.View())
    ensures !r.Took? ==> unchanged(Flatten(ports))
  {
    if ports == [] {
      return NoMore;
    }
    if cancelled {
      return Cancelled;
    }
    var i, packet, closed := PollEach(ports, Polls(ports), Flatten(ports));
    if packet.Some? {
      return Took(ports[i].port, packet.value);
    }
    r := if closed == |ports| then NoMore else Suspended;
  }
}
