/**
 One bounded edge as a value, with the history of what was committed to it and received from it.
 Fan-out (`PortOutcome`) and fan-in (`PortPoll`, `AnyPoll`) scan edges in declaration order.
 */
module Edges {
  import opened Types

  datatype EdgeState = EdgeState(
    capacity: nat,
    queue: seq<Packet>,
    reserved: nat,
    senderAlive: bool,
    receiverAlive: bool,
    committed: seq<Packet>,
    received: seq<Packet>)
  {
    /** Slots never exceed the bound and nothing committed is lost, duplicated or reordered. */
    predicate Sound() {
      && |queue| + reserved <= capacity
      && received + queue == committed
    }

    function ReserveOutcome(): SendOutcome {
      if !receiverAlive then Disconnected
      else if |queue| + reserved >= capacity then Full
      else Granted
    }

    function Reserve(): EdgeState {
      this.(reserved := reserved + 1)
    }

    function Release(): EdgeState {
      this.(reserved := if reserved > 0 then reserved - 1 else 0)
    }

    /** A permit sends: its slot becomes a queued packet, or nothing if the receiver is gone. */
    function Commit(p: Packet): EdgeState {
      if receiverAlive then Release().(queue := queue + [p], committed := committed + [p]) else Release()
    }

    function Receive(): EdgeState
      requires queue != []
    {
      this.(queue := queue[1..], received := received + [queue[0]])
    }

    /** The sending node has ended: its sender and the permits it still held on this edge are gone. */
    function DropSender(held: nat): EdgeState {
      this.(senderAlive := false, reserved := if held <= reserved then reserved - held else 0)
    }

    function DropReceiver(): EdgeState {
      this.(receiverAlive := false)
    }

    predicate Drained() {
      queue == [] && !senderAlive
    }
  }

  datatype SendOutcome = Granted | Full | Disconnected

  /** How one poll of `reserve` ends: it looks at the token before it tries the edges. */
  datatype ReservePoll = ReserveCancelled | ReserveGranted | ReserveDisconnected | ReserveYields

  function PollReserve(cancelled: bool, outcome: SendOutcome): ReservePoll {
    if cancelled then ReserveCancelled
    else match outcome
      case Granted => ReserveGranted
      case Full => ReserveYields
      case Disconnected => ReserveDisconnected
  }

  function Fresh(capacity: nat): EdgeState {
    EdgeState(capacity, [], 0, true, true, [], [])
  }

  /** The verdict of reserving on every edge of one output port: the first refusal, if any. */
  function PortOutcome(es: seq<EdgeState>): SendOutcome {
    if es == [] then Granted
    else if es[0].ReserveOutcome() != Granted then es[0].ReserveOutcome()
    else PortOutcome(es[1..])
  }

  datatype PortPoll = PortReady(index: nat) | PortClosed | PortPending

  /** One poll of an input port: the lowest-indexed edge with a packet, or closed, or pending. */
  function PollFrom(es: seq<EdgeState>, i: nat): (r: PortPoll)
    requires i <= |es|
    ensures r.PortReady? ==> i <= r.index < |es| && es[r.index].queue != []
    decreases |es| - i
  {
    if i == |es| then PortClosed
    else if es[i].queue != [] then PortReady(i)
    else match PollFrom(es, i + 1)
      case PortReady(k) => PortReady(k)
      case PortClosed => if es[i].senderAlive then PortPending else PortClosed
      case PortPending => PortPending
  }

  function PollPort(es: seq<EdgeState>): (r: PortPoll)
    ensures r.PortReady? ==> r.index < |es| && es[r.index].queue != []
  {
    PollFrom(es, 0)
  }

  /** What a poll means: ready at the first non-empty edge, closed iff every edge is drained for good. */
  lemma {:induction false} PollFromMeaning(es: seq<EdgeState>, i: nat)
    requires i <= |es|
    ensures PollFrom(es, i).PortReady? <==> exists k | i <= k < |es| :: es[k].queue != []
    ensures PollFrom(es, i).PortReady? ==> forall k | i <= k < PollFrom(es, i).index :: es[k].queue == []
    ensures PollFrom(es, i).PortClosed? <==> forall k | i <= k < |es| :: es[k].Drained()
    decreases |es| - i
  {
    if i < |es| {
      PollFromMeaning(es, i + 1);
    }
  }

  datatype AnyPoll = AnyReady(port: nat, index: nat) | AllClosed | AnyPending

  /** One poll over all declared input ports, in declaration order, from the polls of each. */
  function PollAnyFrom(polls: seq<PortPoll>, i: nat): (r: AnyPoll)
    requires i <= |polls|
    ensures r.AnyReady? ==> i <= r.port < |polls| && polls[r.port] == PortReady(r.index)
    decreases |polls| - i
  {
    if i == |polls| then AllClosed
    else match polls[i]
      case PortReady(k) => AnyReady(i, k)
      case PortClosed => PollAnyFrom(polls, i + 1)
      case PortPending => NotClosed(PollAnyFrom(polls, i + 1))
  }

  function NotClosed(r: AnyPoll): AnyPoll {
    if r == AllClosed then AnyPending else r
  }

  function PollAny(polls: seq<PortPoll>): (r: AnyPoll)
    ensures r.AnyReady? ==> r.port < |polls| && polls[r.port] == PortReady(r.index)
  {
    PollAnyFrom(polls, 0)
  }

  lemma {:induction false} PollAnyMeaning(polls: seq<PortPoll>, i: nat)
    requires i <= |polls|
    ensures PollAnyFrom(polls, i).AnyReady? <==> exists k | i <= k < |polls| :: polls[k].PortReady?
    ensures PollAnyFrom(polls, i).AnyReady? ==> forall k | i <= k < PollAnyFrom(polls, i).port :: !polls[k].PortReady?
    ensures PollAnyFrom(polls, i).AllClosed? <==> forall k | i <= k < |polls| :: polls[k].PortClosed?
    decreases |polls| - i
  {
    if i < |polls| {
      PollAnyMeaning(polls, i + 1);
    }
  }

  /** A port is granted iff every edge is; a refusal is that of the first edge that refuses. */
  lemma {:induction false} PortOutcomeIsFirstRefusal(es: seq<EdgeState>)
    ensures PortOutcome(es) == Granted <==> forall e | e in es :: e.ReserveOutcome() == Granted
    ensures PortOutcome(es) != Granted ==>
      exists k | 0 <= k < |es| ::
        es[k].ReserveOutcome() == PortOutcome(es) && forall j | 0 <= j < k :: es[j].ReserveOutcome() == Granted
  {
    if es != [] {
      PortOutcomeIsFirstRefusal(es[1..]);
      assert es == [es[0]] + es[1..];
      if es[0].ReserveOutcome() == Granted && PortOutcome(es) != Granted {
        var k :| 0 <= k < |es| - 1 && es[1..][k].ReserveOutcome() == PortOutcome(es)
          && forall j | 0 <= j < k :: es[1..][j].ReserveOutcome() == Granted;
        assert es[k + 1].ReserveOutcome() == PortOutcome(es);
        assert forall j | 0 < j < k + 1 :: es[j] == es[1..][j - 1];
      }
    }
  }

  lemma StepsKeepSound(e: EdgeState, p: Packet)
    requires e.Sound()
    ensures e.ReserveOutcome() == Granted ==> e.Reserve().Sound()
    ensures e.Release().Sound()
    ensures e.reserved > 0 ==> e.Commit(p).Sound()
    ensures e.queue != [] ==> e.Receive().Sound()
  {
    assert e.received + (e.queue + [p]) == e.received + e.queue + [p];
    if e.queue != [] {
      assert e.received + [e.queue[0]] + e.queue[1..] == e.received + e.queue;
    }
  }
}
