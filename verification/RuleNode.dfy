/** The native rule node: receive, evaluate, record, send, over every behaviour of its environment. */
module RuleNode {
  import opened Types
  import opened Edges
  import opened Validation
  import opened Identifiers
  import opened Conditions
  import opened Rules
  import opened RuleContract

  datatype NodeContext = NodeContext(node: NodeId, workflow: WorkflowId, execution: Execution)

  /** A rule node on its ports; `counter` is its packet counter when the run starts, 0 for a new node. */
  datatype Station = Station(
    ctx: NodeContext, rules: RuleSet, outputs: seq<PortId>, validator: Option<Validator>, counter: nat)

  datatype Failure =
    | InputNotDeclared
    | CancelledWhileWaiting
    | CancelledAfterPacket
    | Halted(message: string)
    | MessageIdRejected
    | SendFailed(error: SendFailure)

  datatype SendFailure = UnknownPort | PortDisconnected | SendCancelled | PacketRejected(reason: Rejection)

  datatype Received = Got(packet: Packet) | EndOfStream | InputUndeclared | RecvCancelled

  /** What one poll of `reserve` finds: the token, and the verdict of the port's edges. */
  datatype Moment = Moment(cancelled: bool, outcome: SendOutcome)

  /**
   One turn of the environment: what the receive returns, what each poll of the send finds, and whether the
   token is cancelled when the packet is done.
   */
  datatype Turn = Turn(received: Received, polls: seq<Moment>, cancelled: bool)

  datatype EvalRecord = EvalRecord(
    node: NodeId, workflow: WorkflowId, execution: Execution,
    ruleSetId: string, strategy: Strategy, decision: Decision, rulesEvaluated: nat,
    source: Option<NodeId>, arrivalPort: PortId)

  datatype Event = Arrival(packet: Packet) | Recorded(record: EvalRecord) | Sent(port: PortId, packet: Packet)

  /** The evaluation context a rule node builds for a packet. */
  function SubjectOf(ctx: NodeContext, p: Packet): Subject {
    Subject(p.payload, Context(
      map[],
      if p.source.Some? then Some(p.source.value.node) else None,
      Some(p.target.port),
      0,
      ctx.workflow,
      map[]))
  }

  function BuildRecord(st: Station, p: Packet, decision: Decision): EvalRecord {
    EvalRecord(
      st.ctx.node, st.ctx.workflow, st.ctx.execution,
      st.rules.id, st.rules.strategy, decision, |st.rules.rules|,
      if p.source.Some? then Some(p.source.value.node) else None, p.target.port)
  }

  /** The record a packet is owed: what was decided, by which rules, about which arrival. */
  function RecordOf(st: Station, p: Packet): EvalRecord {
    BuildRecord(st, p, Decide(st.rules, SubjectOf(st.ctx, p)))
  }

  function Digits(n: nat): string {
    if n < 10 then [('0' as int + n) as char] else Digits(n / 10) + [('0' as int + n % 10) as char]
  }

  /** The packet counter is an `AtomicU64`, which wraps. */
  const COUNTER_RANGE: nat := 0x1_0000_0000_0000_0000

  /** What the counter gives the `n`-th packet of the run. */
  function NumberOf(st: Station, n: nat): nat {
    (st.counter + n) % COUNTER_RANGE
  }

  function ForwardPacket(ctx: NodeContext, port: PortId, number: nat, p: Packet): Packet {
    var here := Endpoint(ctx.node, port);
    Packet(ctx.node + "-rule-" + port + "-" + Digits(number), ctx.workflow, ctx.execution, Some(here), here, p.payload)
  }

  /** The port a packet is sent to by the rule set, if any. */
  function Target(st: Station, p: Packet): Option<PortId> {
    SendPort(Decide(st.rules, SubjectOf(st.ctx, p)).action)
  }

  // ---- What happens to one packet -------------------------------------------------

  /** How a `reserve` polled at these moments ends; it yields for as long as no poll decides it. */
  function Awaited(polls: seq<Moment>): ReservePoll {
    if polls == [] then ReserveYields
    else
      var first := PollReserve(polls[0].cancelled, polls[0].outcome);
      if first != ReserveYields then first else Awaited(polls[1..])
  }

  /** The loop of `reserve`. */
  method AwaitReserve(polls: seq<Moment>) returns (r: ReservePoll)
    ensures r == Awaited(polls)
  {
    assert polls[0..] == polls;
    for i := 0 to |polls|
      invariant Awaited(polls) == Awaited(polls[i..])
    {
      assert polls[i..][1..] == polls[i + 1..];
      r := PollReserve(polls[i].cancelled, polls[i].outcome);
      if r != ReserveYields {
        return;
      }
    }
    r := ReserveYields;
  }

  /** Whether a decision has been carried out, is suspended in its send, or has failed. */
  datatype Handling = Done | Suspended | Failed(failure: Failure)

  function Rejecting(st: Station, port: PortId, p: Packet): Option<Rejection> {
    if st.validator.None? then None else Validate(st.validator.value, port, p)
  }

  function Sending(st: Station, port: PortId, p: Packet, polls: seq<Moment>): Handling {
    match Awaited(polls)
    case ReserveYields => Suspended
    case ReserveCancelled => Failed(SendFailed(SendCancelled))
    case ReserveDisconnected => Failed(SendFailed(PortDisconnected))
    case ReserveGranted =>
      var rejection := Rejecting(st, port, p);
      if rejection.Some? then Failed(SendFailed(PacketRejected(rejection.value))) else Done
  }

  function Acting(st: Station, action: Action, number: nat, p: Packet, turn: Turn): Handling {
    match SendPort(action)
    case None => if action.Halt? then Failed(Halted(action.message)) else Done
    case Some(port) =>
      var forwarded := ForwardPacket(st.ctx, port, number, p);
      if !ValidId(forwarded.messageId) then Failed(MessageIdRejected)
      else if port !in st.outputs then Failed(SendFailed(UnknownPort))
      else Sending(st, port, forwarded, turn.polls)
  }

  /** What becomes of the `n`-th packet of a run. */
  function HandlingOf(st: Station, n: nat, p: Packet, turn: Turn): Handling {
    Acting(st, Decide(st.rules, SubjectOf(st.ctx, p)).action, NumberOf(st, n), p, turn)
  }

  function SendEvents(ctx: NodeContext, target: Option<PortId>, number: nat, p: Packet): seq<Event> {
    if target.None? then [] else [Sent(target.value, ForwardPacket(ctx, target.value, number, p))]
  }

  /** What is on the log before the decision on a packet is carried out. */
  function Head(st: Station, p: Packet): seq<Event> {
    [Arrival(p), Recorded(RecordOf(st, p))]
  }

  /** The send the decision on the `n`-th packet asks for. */
  function Tail(st: Station, n: nat, p: Packet): seq<Event> {
    SendEvents(st.ctx, Target(st, p), NumberOf(st, n), p)
  }

  /** `PortsOut::send` on a declared port: reserve, then commit through the validator. */
  method Send(st: Station, port: PortId, p: Packet, polls: seq<Moment>) returns (h: Handling)
    ensures h == Sending(st, port, p, polls)
  {
    var reserved := AwaitReserve(polls);
    match reserved
    case ReserveYields => h := Suspended;
    case ReserveCancelled => h := Failed(SendFailed(SendCancelled));
    case ReserveDisconnected => h := Failed(SendFailed(PortDisconnected));
    case ReserveGranted =>
      if st.validator.Some? {
        var verdict := Validate(st.validator.value, port, p);
        if verdict.Some? {
          return Failed(SendFailed(PacketRejected(verdict.value)));
        }
      }
      h := Done;
  }

  /** `execute_action`: at most one send, whose failure fails the node. */
  method ExecuteAction(st: Station, action: Action, number: nat, p: Packet, turn: Turn)
    returns (sent: seq<Event>, h: Handling)
    ensures h == Acting(st, action, number, p, turn)
    ensures sent == if h.Done? then SendEvents(st.ctx, SendPort(action), number, p) else []
  {
    if action.Halt? {
      return [], Failed(Halted(action.message));
    }
    var port := SendPort(action);
    if port.None? {
      return [], Done;
    }
    var forwarded := ForwardPacket(st.ctx, port.value, number, p);
    if !ValidId(forwarded.messageId) {
      return [], Failed(MessageIdRejected);
    }
    if port.value !in st.outputs {
      return [], Failed(SendFailed(UnknownPort));
    }
    h := Send(st, port.value, forwarded, turn.polls);
    sent := if h.Done? then [Sent(port.value, forwarded)] else [];
  }

  /** One packet: evaluate, record, then act. */
  method Handle(st: Station, n: nat, p: Packet, turn: Turn) returns (events: seq<Event>, h: Handling)
    ensures h == HandlerOf(st)(n, p, turn)
    ensures events == Head(st, p) + if h.Done? then Tail(st, n, p) else []
  {
    var decision := Evaluate(st.rules, SubjectOf(st.ctx, p));
    events := [Arrival(p), Recorded(BuildRecord(st, p, decision))];
    var sent;
    sent, h := ExecuteAction(st, decision.action, NumberOf(st, n), p, turn);
    events := events + sent;
  }

  // ---- Whole runs -----------------------------------------------------------------

  /** The events of packets handled to completion: arrival, record, then the send its decision asks for. */
  function FullTrace(st: Station, ps: seq<Packet>): seq<Event> {
    if ps == [] then []
    else
      var n := |ps| - 1;
      FullTrace(st, ps[..n]) + Head(st, ps[n]) + Tail(st, n, ps[n])
  }

  /** How a run ended; `Waiting` for the next packet or `Blocked` in a send when the environment gives no more. */
  datatype Outcome = Waiting | Blocked | Finished | Error(failure: Failure)

  predicate Delivered(turns: seq<Turn>, received: seq<Packet>) {
    |received| <= |turns| && forall i | 0 <= i < |received| :: turns[i].received == Got(received[i])
  }

  lemma DeliveredExtends(turns: seq<Turn>, received: seq<Packet>, p: Packet)
    requires Delivered(turns, received) && |received| < |turns| && turns[|received|].received == Got(p)
    ensures Delivered(turns, received + [p])
  {
  }

  /** What becomes of the `n`-th packet of a run in its turn. */
  type Handler = (nat, Packet, Turn) -> Handling

  function HandlerOf(st: Station): Handler {
    (n: nat, p: Packet, turn: Turn) => HandlingOf(st, n, p, turn)
  }

  /** The last packet received has been dealt with, as far as its send goes. */
  predicate LastDone(f: Handler, turns: seq<Turn>, received: seq<Packet>)
    requires |received| <= |turns|
  {
    received == [] || var n := |received| - 1; f(n, received[n], turns[n]).Done?
  }

  /** The log of a run: complete, lacking the send of the last packet exactly when that was not carried out. */
  predicate LogOf(st: Station, turns: seq<Turn>, received: seq<Packet>, log: seq<Event>)
    requires |received| <= |turns|
  {
    if LastDone(HandlerOf(st), turns, received) then log == FullTrace(st, received)
    else var n := |received| - 1; log == FullTrace(st, received[..n]) + Head(st, received[n])
  }

  lemma {:induction false} TraceGrows(st: Station, turns: seq<Turn>, received: seq<Packet>, p: Packet)
    requires |received| < |turns|
    ensures
      var log, n := FullTrace(st, received), |received|;
      var done := HandlerOf(st)(n, p, turns[n]).Done?;
      && LogOf(st, turns, received + [p], log + (Head(st, p) + if done then Tail(st, n, p) else []))
      && (done ==> FullTrace(st, received + [p]) == log + (Head(st, p) + Tail(st, n, p)))
      && (LastDone(HandlerOf(st), turns, received + [p]) <==> done)
  {
    assert (received + [p])[..|received|] == received;
  }

  /** A packet arrives in this turn, its decision is carried out, and the node goes on to the next packet. */
  predicate GoesOn(f: Handler, n: nat, turn: Turn) {
    turn.received.Got? && !turn.cancelled && f(n, turn.received.packet, turn).Done?
  }

  /** The node goes on after each of the first `n` turns. */
  predicate GoesOnUntil(f: Handler, turns: seq<Turn>, n: int)
    requires n <= |turns|
  {
    forall i | 0 <= i < n :: GoesOn(f, i, turns[i])
  }

  lemma GoesOnExtends(f: Handler, turns: seq<Turn>, n: nat)
    requires n < |turns| && GoesOnUntil(f, turns, n) && GoesOn(f, n, turns[n])
    ensures GoesOnUntil(f, turns, n + 1)
  {
  }

  /** The run stopped where its environment made it stop, for the reason it reports, and not before. */
  predicate Explained(f: Handler, turns: seq<Turn>, received: seq<Packet>, outcome: Outcome)
    requires |received| <= |turns|
  {
    var n := |received|;
    Reason(
      if n < |turns| then Some(turns[n].received) else None,
      if n > 0 then Some(f(n - 1, received[n - 1], turns[n - 1])) else None,
      n > 0 && turns[n - 1].cancelled,
      GoesOnUntil(f, turns, n),
      GoesOnUntil(f, turns, n - 1),
      outcome)
  }

  /**
   Why a run ends: what the next receive returned, what became of the last packet, whether the token was
   cancelled after it, and whether the node had gone on after every packet, or after all but the last.
   */
  predicate Reason(
    next: Option<Received>, last: Option<Handling>, cancelled: bool, afterAll: bool, beforeLast: bool, outcome: Outcome)
  {
    match outcome
    case Waiting => next.None? && afterAll
    case Finished => next == Some(EndOfStream) && afterAll
    case Error(InputNotDeclared) => next == Some(InputUndeclared) && afterAll
    case Error(CancelledWhileWaiting) => next == Some(RecvCancelled) && afterAll
    case Error(CancelledAfterPacket) => last == Some(Done) && cancelled && beforeLast
    case Blocked => last == Some(Suspended) && beforeLast
    case Error(f) => last == Some(Failed(f)) && beforeLast
  }

  /** `RuleNode::run` with a metadata sink attached. */
  method Run(st: Station, turns: seq<Turn>) returns (log: seq<Event>, received: seq<Packet>, outcome: Outcome)
    // The packets are those the environment delivered, in order, one per turn.
    ensures Delivered(turns, received)
    ensures LogOf(st, turns, received, log)
    ensures Explained(HandlerOf(st), turns, received, outcome)
  {
    log, received := [], [];
    for i := 0 to |turns|
      invariant |received| == i
      invariant Delivered(turns, received)
      invariant GoesOnUntil(HandlerOf(st), turns, i)
      invariant log == FullTrace(st, received) && LastDone(HandlerOf(st), turns, received)
    {
      match turns[i].received {
        case EndOfStream =>
          return log, received, Finished;
        case InputUndeclared =>
          return log, received, Error(InputNotDeclared);
        case RecvCancelled =>
          return log, received, Error(CancelledWhileWaiting);
        case Got(packet) =>
          DeliveredExtends(turns, received, packet);
          TraceGrows(st, turns, received, packet);
          received := received + [packet];
          var events, h := Handle(st, i, packet, turns[i]);
          log := log + events;
          if h.Suspended? {
            return log, received, Blocked;
          }
          if h.Failed? {
            HandlerIsProper(st, i, packet, turns[i]);
            return log, received, Error(h.failure);
          }
          if turns[i].cancelled {
            return log, received, Error(CancelledAfterPacket);
          }
          GoesOnExtends(HandlerOf(st), turns, i);
      }
    }
    outcome := Waiting;
  }

  /** A failure to carry out a decision is none of the loop's own errors. */
  predicate Proper(h: Handling) {
    h.Failed? ==>
      !h.failure.InputNotDeclared? && !h.failure.CancelledWhileWaiting? && !h.failure.CancelledAfterPacket?
  }

  lemma HandlerIsProper(st: Station, n: nat, p: Packet, turn: Turn)
    ensures Proper(HandlerOf(st)(n, p, turn))
  {
  }
}
