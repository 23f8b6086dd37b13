/** Exactly when a rule node carries out a decision, is held up in it, or fails, and how. */
module RuleNodeSends {
  import opened Types
  import opened Edges
  import opened Validation
  import opened Identifiers
  import opened Conditions
  import opened Rules
  import opened RuleContract
  import opened RuleNode
  import opened RuleNodeLaws

  // ---- How a reservation ends -----------------------------------------------------

  /** A receiver is first found gone at poll `g`. */
  predicate GoneAt(polls: seq<Moment>, g: nat) {
    g < |polls| && polls[g].outcome == Disconnected && FullBefore(polls, g)
  }

  ghost predicate Opens(polls: seq<Moment>) {
    exists g: nat :: OpensAt(polls, g) && ActiveUntil(polls, g)
  }

  ghost predicate Breaks(polls: seq<Moment>) {
    exists g: nat :: GoneAt(polls, g) && ActiveUntil(polls, g)
  }

  predicate AlwaysFull(polls: seq<Moment>) {
    forall i | 0 <= i < |polls| :: polls[i] == Moment(false, Full)
  }

  /** A reservation finds its receiver gone iff the first poll that is not full does, with the token active so far. */
  lemma {:induction false} AwaitedDisconnectedIff(polls: seq<Moment>)
    ensures Awaited(polls) == ReserveDisconnected <==> Breaks(polls)
  {
    if polls != [] {
      var rest := polls[1..];
      AwaitedDisconnectedIff(rest);
      if Awaited(polls) == ReserveDisconnected {
        if polls[0].outcome == Disconnected {
          assert GoneAt(polls, 0) && ActiveUntil(polls, 0);
        } else {
          var g: nat :| GoneAt(rest, g) && ActiveUntil(rest, g);
          assert GoneAt(polls, g + 1);
          assert ActiveUntil(polls, g + 1) by {
            forall j | 0 <= j <= g + 1 ensures !polls[j].cancelled {
              assert j > 0 ==> polls[j] == rest[j - 1];
            }
          }
        }
      }
      if g: nat :| GoneAt(polls, g) && ActiveUntil(polls, g) {
        if g > 0 {
          assert polls[0].outcome == Full && !polls[0].cancelled;
          assert GoneAt(rest, g - 1) && ActiveUntil(rest, g - 1);
        }
      }
    }
  }

  /** It goes on waiting iff every poll so far found the port full and the token active. */
  lemma {:induction false} AwaitedYieldsIff(polls: seq<Moment>)
    ensures Awaited(polls) == ReserveYields <==> AlwaysFull(polls)
  {
    if polls != [] {
      AwaitedYieldsIff(polls[1..]);
      assert polls == [polls[0]] + polls[1..];
    }
  }

  // ---- How a decision ends --------------------------------------------------------

  function ActionOf(st: Station, p: Packet): Action {
    Decide(st.rules, SubjectOf(st.ctx, p)).action
  }

  /** What sending this action's packet meets once it is tried. */
  lemma ActingIs(st: Station, action: Action, number: nat, p: Packet, turn: Turn)
    ensures
      var h, port := Acting(st, action, number, p, turn), SendPort(action);
      if port.None? then h == (if action.Halt? then Failed(Halted(action.message)) else Done)
      else
        var forwarded := ForwardPacket(st.ctx, port.value, number, p);
        if !ValidId(forwarded.messageId) then h == Failed(MessageIdRejected)
        else if port.value !in st.outputs then h == Failed(SendFailed(UnknownPort))
        else h == Sending(st, port.value, forwarded, turn.polls)
  {
  }

  /** A send is made iff the port opens while the token is active and the packet is not rejected; and so on. */
  lemma SendingIff(st: Station, port: PortId, p: Packet, polls: seq<Moment>)
    ensures Sending(st, port, p, polls) == Done <==> Opens(polls) && Rejecting(st, port, p).None?
    ensures Sending(st, port, p, polls) == Suspended <==> AlwaysFull(polls)
    ensures Sending(st, port, p, polls) == Failed(SendFailed(SendCancelled)) <==> CancelledInTime(polls)
    ensures Sending(st, port, p, polls) == Failed(SendFailed(PortDisconnected)) <==> Breaks(polls)
    ensures forall reason :: Sending(st, port, p, polls) == Failed(SendFailed(PacketRejected(reason))) <==>
      Opens(polls) && Rejecting(st, port, p) == Some(reason)
  {
    AwaitedGrantedIff(polls);
    AwaitedYieldsIff(polls);
    AwaitedCancelledIff(polls);
    AwaitedDisconnectedIff(polls);
  }

  function ForwardedTo(st: Station, n: nat, p: Packet): Packet
    requires Target(st, p).Some?
  {
    ForwardPacket(st.ctx, Target(st, p).value, NumberOf(st, n), p)
  }

  /**
   A decision is carried out iff there is nothing to send and no halt, or its port opens while the token is
   active and the packet is not rejected.
   */
  lemma DoneIff(st: Station, n: nat, p: Packet, turn: Turn)
    ensures HandlingOf(st, n, p, turn) == Done <==>
      || (Target(st, p).None? && !ActionOf(st, p).Halt?)
      || (Sendable(st, n, p) && Acceptable(st, n, p) && Opens(turn.polls))
    ensures HandlingOf(st, n, p, turn) == Suspended <==> Sendable(st, n, p) && AlwaysFull(turn.polls)
  {
    ActingIs(st, ActionOf(st, p), NumberOf(st, n), p, turn);
    if Target(st, p).Some? {
      SendingIff(st, Target(st, p).value, ForwardedTo(st, n, p), turn.polls);
    }
  }

  /** A send fails for a receiver that is gone iff one is found gone before the port opens or the token is cancelled. */
  lemma DisconnectedIff(st: Station, n: nat, p: Packet, turn: Turn)
    ensures HandlingOf(st, n, p, turn) == Failed(SendFailed(PortDisconnected)) <==>
      Sendable(st, n, p) && Breaks(turn.polls)
  {
    ActingIs(st, ActionOf(st, p), NumberOf(st, n), p, turn);
    if Target(st, p).Some? {
      SendingIff(st, Target(st, p).value, ForwardedTo(st, n, p), turn.polls);
    }
  }

  /** It fails for the validator iff the port opens and the validator rejects the packet, for that reason. */
  lemma RejectedIff(st: Station, n: nat, p: Packet, turn: Turn, reason: Rejection)
    ensures HandlingOf(st, n, p, turn) == Failed(SendFailed(PacketRejected(reason))) <==>
      && Sendable(st, n, p) && Opens(turn.polls)
      && Rejecting(st, Target(st, p).value, ForwardedTo(st, n, p)) == Some(reason)
  {
    ActingIs(st, ActionOf(st, p), NumberOf(st, n), p, turn);
    if Target(st, p).Some? {
      SendingIff(st, Target(st, p).value, ForwardedTo(st, n, p), turn.polls);
    }
  }

  /** Halts, refused ids and unknown ports fail before anything is polled. */
  lemma FailsUnpolledIff(st: Station, n: nat, p: Packet, turn: Turn, message: string)
    ensures HandlingOf(st, n, p, turn) == Failed(Halted(message)) <==> ActionOf(st, p) == Halt(message)
    ensures HandlingOf(st, n, p, turn) == Failed(MessageIdRejected) <==>
      Target(st, p).Some? && !ValidId(ForwardedTo(st, n, p).messageId)
    ensures HandlingOf(st, n, p, turn) == Failed(SendFailed(UnknownPort)) <==>
      Target(st, p).Some? && ValidId(ForwardedTo(st, n, p).messageId) && Target(st, p).value !in st.outputs
  {
    ActingFailsUnpolled(st, ActionOf(st, p), NumberOf(st, n), p, turn, message);
  }

  lemma ActingFailsUnpolled(st: Station, action: Action, number: nat, p: Packet, turn: Turn, message: string)
    ensures Acting(st, action, number, p, turn) == Failed(Halted(message)) <==> action == Halt(message)
    ensures Acting(st, action, number, p, turn) == Failed(MessageIdRejected) <==>
      SendPort(action).Some? && !ValidId(ForwardPacket(st.ctx, SendPort(action).value, number, p).messageId)
    ensures Acting(st, action, number, p, turn) == Failed(SendFailed(UnknownPort)) <==>
      && SendPort(action).Some? && ValidId(ForwardPacket(st.ctx, SendPort(action).value, number, p).messageId)
      && SendPort(action).value !in st.outputs
  {
    ActingIs(st, action, number, p, turn);
  }

  /** A routed packet goes to its port, a dead letter to `dead_letter`, and nothing else goes anywhere. */
  lemma TargetIs(st: Station, p: Packet, port: PortId)
    ensures Target(st, p) == Some(port) <==>
      ActionOf(st, p) == Route(port) || (ActionOf(st, p).DeadLetter? && port == "dead_letter")
  {
  }

  // ---- How it ends the run --------------------------------------------------------

  /** A run whose last packet failed ends with that failure, the packet recorded and not sent. */
  lemma FailureEndsRun(
    st: Station, turns: seq<Turn>, received: seq<Packet>, log: seq<Event>, outcome: Outcome, failure: Failure)
    requires RunOf(st, turns, received, log, outcome) && received != []
    requires HandlingOf(st, |received| - 1, received[|received| - 1], turns[|received| - 1]) == Failed(failure)
    ensures outcome == Error(failure)
    ensures
      var n := |received| - 1;
      log == FullTrace(st, received[..n]) + Head(st, received[n])
  {
    var n := |received|;
    HandlerIsProper(st, n - 1, received[n - 1], turns[n - 1]);
    assert HandlerOf(st)(n - 1, received[n - 1], turns[n - 1]) == Failed(failure);
    assert turns[n - 1].received == Got(received[n - 1]);
  }

  /** A halt ends the run with its message, and nothing is sent for that packet. */
  lemma HaltEndsRun(
    st: Station, turns: seq<Turn>, received: seq<Packet>, log: seq<Event>, outcome: Outcome, message: string)
    requires RunOf(st, turns, received, log, outcome) && received != []
    requires ActionOf(st, received[|received| - 1]) == Halt(message)
    ensures outcome == Error(Halted(message))
    ensures
      var n := |received| - 1;
      log == FullTrace(st, received[..n]) + Head(st, received[n])
  {
    var n := |received| - 1;
    FailsUnpolledIff(st, n, received[n], turns[n], message);
    FailureEndsRun(st, turns, received, log, outcome, Halted(message));
  }

  /** A run on a port whose receiver is gone: recorded, not sent, and failed. */
  method DisconnectedPacketFails(workflow: WorkflowId, execution: Execution, p: Packet)
    returns (log: seq<Event>, received: seq<Packet>, outcome: Outcome)
    ensures received == [p] && log == Head(Router(workflow, execution), p)
    ensures outcome == Error(SendFailed(PortDisconnected))
  {
    var st := Router(workflow, execution);
    var turn := Turn(Got(p), [Moment(false, Disconnected)], false);
    RouterRoutes(workflow, execution, p);
    ShortIdIsValid(st, p);
    assert GoneAt(turn.polls, 0) && ActiveUntil(turn.polls, 0);
    DisconnectedIff(st, 0, p, turn);
    StopsAtFirst(st, p, turn, SendFailed(PortDisconnected));
    log, received, outcome := Run(st, [turn]);
    RunIsDetermined(st, [turn], received, log, outcome, [p], Head(st, p), Error(SendFailed(PortDisconnected)));
  }

  // ---- Records --------------------------------------------------------------------

  /** A record names its node and run, the whole rule set and what it decided, and where the packet came from. */
  lemma RecordTells(st: Station, p: Packet)
    ensures
      var r := RecordOf(st, p);
      && r.node == st.ctx.node && r.workflow == st.ctx.workflow && r.execution == st.ctx.execution
      && r.ruleSetId == st.rules.id && r.strategy == st.rules.strategy && r.rulesEvaluated == |st.rules.rules|
      && r.decision.action == ActionOf(st, p)
      && r.arrivalPort == p.target.port
      && (r.source.Some? <==> p.source.Some?)
      && (p.source.Some? ==> r.source.value == p.source.value.node)
  {
  }

  /** A rule node sees a packet's payload, source and target, its own workflow, and no tags or metadata at all. */
  lemma SubjectTells(ctx: NodeContext, p: Packet, key: string, n: NodeId, port: PortId)
    ensures
      var x := SubjectOf(ctx, p);
      && x.payload == p.payload
      && !Eval(TagExists(key), x.payload, x.context) && !Eval(HopCountGt(0), x.payload, x.context)
      && (Eval(SourceNode(n), x.payload, x.context) <==> p.source.Some? && p.source.value.node == n)
      && (Eval(ArrivedOnPort(port), x.payload, x.context) <==> p.target.port == port)
      && Eval(WorkflowIs(ctx.workflow), x.payload, x.context)
  {
  }

  /** The send at this place of the log is that of some packet, right behind the packet's arrival and record. */
  ghost predicate SentInPlace(st: Station, ps: seq<Packet>, log: seq<Event>, j: nat)
    requires j < |log| && log[j].Sent?
  {
    exists k | 0 <= k < |ps| :: IsSendOf(st, k, ps[k], log, j)
  }

  predicate IsSendOf(st: Station, k: nat, p: Packet, log: seq<Event>, j: nat)
    requires j < |log|
  {
    && j >= 2
    && log[j - 2] == Arrival(p)
    && log[j - 1] == Recorded(RecordOf(st, p))
    && Target(st, p).Some?
    && log[j] == Sent(Target(st, p).value, ForwardPacket(st.ctx, Target(st, p).value, NumberOf(st, k), p))
  }

  /** Every packet sent was received and recorded first, and went where its own decision sent it. */
  lemma {:induction false} RecordPrecedesSend(st: Station, ps: seq<Packet>, j: nat)
    requires j < |FullTrace(st, ps)| && FullTrace(st, ps)[j].Sent?
    ensures SentInPlace(st, ps, FullTrace(st, ps), j)
  {
    var n := |ps| - 1;
    var before, log := FullTrace(st, ps[..n]), FullTrace(st, ps);
    if j < |before| {
      assert log[j] == before[j];
      RecordPrecedesSend(st, ps[..n], j);
      var k :| 0 <= k < n && IsSendOf(st, k, ps[..n][k], before, j);
      assert log[j - 1] == before[j - 1] && log[j - 2] == before[j - 2];
      assert IsSendOf(st, k, ps[k], log, j);
    } else {
      LastSendIs(st, before, ps[n], n, log, j);
    }
  }

  lemma LastSendIs(st: Station, before: seq<Event>, p: Packet, n: nat, log: seq<Event>, j: nat)
    requires log == before + Head(st, p) + Tail(st, n, p)
    requires |before| <= j < |log| && log[j].Sent?
    ensures IsSendOf(st, n, p, log, j)
  {
    assert log[|before|] == Arrival(p);
    assert log[|before| + 1] == Recorded(RecordOf(st, p));
    assert j == |before| + 2;
    assert log[j] == Tail(st, n, p)[0];
  }
}
