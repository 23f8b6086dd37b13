/** What a run of a rule node guarantees: faithful routing, the exact drain condition, fresh message ids. */
module RuleNodeLaws {
  import opened Types
  import opened Graph
  import opened Edges
  import opened Validation
  import opened Identifiers
  import opened Conditions
  import opened Rules
  import opened RuleContract
  import opened RuleNode

  ghost predicate RunOf(st: Station, turns: seq<Turn>, received: seq<Packet>, log: seq<Event>, outcome: Outcome) {
    && Delivered(turns, received)
    && LogOf(st, turns, received, log)
    && Explained(HandlerOf(st), turns, received, outcome)
  }

  // ---- The run is determined ------------------------------------------------------

  lemma StopsNoEarlier(
    f: Handler, turns: seq<Turn>, received: seq<Packet>, outcome: Outcome, more: seq<Packet>, outcome': Outcome)
    requires Delivered(turns, received) && Explained(f, turns, received, outcome)
    requires Delivered(turns, more) && Explained(f, turns, more, outcome')
    ensures |received| >= |more|
  {
    var n := |received|;
    assert n > 0 ==> turns[n - 1].received == Got(received[n - 1]);
    assert GoesOnUntil(f, turns, |more| - 1);
  }

  lemma SamePackets(turns: seq<Turn>, received: seq<Packet>, received': seq<Packet>)
    requires Delivered(turns, received) && Delivered(turns, received') && |received| == |received'|
    ensures received == received'
  {
    forall i | 0 <= i < |received| ensures received[i] == received'[i] {
      assert turns[i].received == Got(received[i]) && turns[i].received == Got(received'[i]);
    }
  }

  lemma SameOutcome(f: Handler, turns: seq<Turn>, received: seq<Packet>, outcome: Outcome, outcome': Outcome)
    requires Delivered(turns, received) && forall n, p, turn :: Proper(f(n, p, turn))
    requires Explained(f, turns, received, outcome) && Explained(f, turns, received, outcome')
    ensures outcome == outcome'
  {
    var n := |received|;
    if n > 0 {
      assert turns[n - 1].received == Got(received[n - 1]);
      assert GoesOnUntil(f, turns, n) ==> GoesOn(f, n - 1, turns[n - 1]);
      assert Proper(f(n - 1, received[n - 1], turns[n - 1]));
    }
  }

  /** The contract of a run leaves nothing open: one environment, one run. */
  lemma RunIsDetermined(
    st: Station, turns: seq<Turn>,
    received: seq<Packet>, log: seq<Event>, outcome: Outcome,
    received': seq<Packet>, log': seq<Event>, outcome': Outcome)
    requires RunOf(st, turns, received, log, outcome) && RunOf(st, turns, received', log', outcome')
    ensures received == received' && log == log' && outcome == outcome'
  {
    var f := HandlerOf(st);
    StopsNoEarlier(f, turns, received, outcome, received', outcome');
    StopsNoEarlier(f, turns, received', outcome', received, outcome);
    SamePackets(turns, received, received');
    forall n, p, turn ensures Proper(f(n, p, turn)) {
      HandlerIsProper(st, n, p, turn);
    }
    SameOutcome(f, turns, received, outcome, outcome');
  }

  // ---- Cancellation in a send -----------------------------------------------------

  /** The token is cancelled at some poll before which the port was always full. */
  predicate CancelledInTime(polls: seq<Moment>) {
    exists i | 0 <= i < |polls| :: polls[i].cancelled && FullBefore(polls, i)
  }

  predicate FullBefore(polls: seq<Moment>, i: nat)
    requires i <= |polls|
  {
    forall j | 0 <= j < i :: polls[j].outcome == Full
  }

  /** The port first opens at poll `g`. */
  predicate OpensAt(polls: seq<Moment>, g: nat) {
    g < |polls| && polls[g].outcome == Granted && FullBefore(polls, g)
  }

  predicate ActiveUntil(polls: seq<Moment>, g: nat)
    requires g < |polls|
  {
    forall j | 0 <= j <= g :: !polls[j].cancelled
  }

  /** A token never becomes active again. */
  predicate Monotone(polls: seq<Moment>) {
    forall i, j | 0 <= i < j < |polls| :: polls[i].cancelled ==> polls[j].cancelled
  }

  /** A reservation is cancelled exactly when the token is, at a poll no later than the first that is not full. */
  lemma {:induction false} AwaitedCancelledIff(polls: seq<Moment>)
    ensures Awaited(polls) == ReserveCancelled <==> CancelledInTime(polls)
  {
    if polls != [] {
      var rest := polls[1..];
      AwaitedCancelledIff(rest);
      if CancelledInTime(rest) && polls[0].outcome == Full {
        var i :| 0 <= i < |rest| && rest[i].cancelled && FullBefore(rest, i);
        assert polls[i + 1].cancelled && FullBefore(polls, i + 1);
      }
      if polls[0].cancelled {
        assert FullBefore(polls, 0);
      } else if CancelledInTime(polls) {
        var i :| 0 <= i < |polls| && polls[i].cancelled && FullBefore(polls, i);
        assert polls[0].outcome == Full;
        assert rest[i - 1].cancelled && FullBefore(rest, i - 1);
      }
    }
  }

  /** A reservation is granted exactly when the port opens while the token is still active. */
  lemma {:induction false} AwaitedGrantedIff(polls: seq<Moment>)
    ensures Awaited(polls) == ReserveGranted <==> exists g: nat :: OpensAt(polls, g) && ActiveUntil(polls, g)
  {
    if polls != [] {
      var rest := polls[1..];
      AwaitedGrantedIff(rest);
      if Awaited(polls) == ReserveGranted {
        if polls[0].outcome == Granted {
          assert OpensAt(polls, 0) && ActiveUntil(polls, 0);
        } else {
          var g: nat :| OpensAt(rest, g) && ActiveUntil(rest, g);
          assert OpensAt(polls, g + 1);
          assert ActiveUntil(polls, g + 1) by {
            forall j | 0 <= j <= g + 1 ensures !polls[j].cancelled {
              assert j > 0 ==> polls[j] == rest[j - 1];
            }
          }
        }
      }
      if g: nat :| OpensAt(polls, g) && ActiveUntil(polls, g) {
        if g > 0 {
          assert polls[0].outcome == Full && !polls[0].cancelled;
          assert OpensAt(rest, g - 1) && ActiveUntil(rest, g - 1);
        }
      }
    }
  }

  lemma OpensOnce(polls: seq<Moment>, g: nat, h: nat)
    requires OpensAt(polls, g) && OpensAt(polls, h)
    ensures g == h
  {
    assert polls[g].outcome != Full && polls[h].outcome != Full;
  }

  /** Nothing but the polls stands between this packet and its port. */
  predicate Sendable(st: Station, n: nat, p: Packet) {
    && Target(st, p).Some?
    && ValidId(ForwardPacket(st.ctx, Target(st, p).value, NumberOf(st, n), p).messageId)
    && Target(st, p).value in st.outputs
  }

  predicate Acceptable(st: Station, n: nat, p: Packet) {
    Target(st, p).Some? ==>
      Rejecting(st, Target(st, p).value, ForwardPacket(st.ctx, Target(st, p).value, NumberOf(st, n), p)).None?
  }

  /** A packet goes unsent by cancellation iff the token is cancelled no later than the first poll that is not full. */
  lemma UnsentByCancellationIff(st: Station, n: nat, p: Packet, turn: Turn)
    ensures HandlingOf(st, n, p, turn) == Failed(SendFailed(SendCancelled)) <==>
      Sendable(st, n, p) && CancelledInTime(turn.polls)
  {
    AwaitedCancelledIff(turn.polls);
  }

  /** The promise to finish the packet in flight is kept iff the token is active when its port opens. */
  lemma DrainedIffActive(st: Station, n: nat, p: Packet, turn: Turn, g: nat)
    requires Sendable(st, n, p) && Acceptable(st, n, p)
    requires OpensAt(turn.polls, g) && Monotone(turn.polls)
    ensures HandlingOf(st, n, p, turn) == Done <==> !turn.polls[g].cancelled
  {
    AwaitedGrantedIff(turn.polls);
    if !turn.polls[g].cancelled {
      assert ActiveUntil(turn.polls, g);
    } else if h: nat :| OpensAt(turn.polls, h) && ActiveUntil(turn.polls, h) {
      OpensOnce(turn.polls, g, h);
    }
  }

  /** A node that routes everything to its one output. */
  function Router(workflow: WorkflowId, execution: Execution): Station {
    Station(
      NodeContext("n", workflow, execution),
      RuleSet("set", FirstMatch, [Rule("all", Always, Route("out"), 0, "")], Drop, false), ["out"], None, 0)
  }

  lemma RouterRoutes(workflow: WorkflowId, execution: Execution, p: Packet)
    ensures Target(Router(workflow, execution), p) == Some("out")
  {
    var st := Router(workflow, execution);
    FirstStopIs(st.rules.rules, SubjectOf(st.ctx, p), 0);
  }

  lemma RouterIsCancelled(workflow: WorkflowId, execution: Execution, p: Packet, turn: Turn)
    requires turn == Turn(Got(p), [Moment(true, Granted)], true)
    ensures HandlerOf(Router(workflow, execution))(0, p, turn) == Failed(SendFailed(SendCancelled))
  {
    RouterRoutes(workflow, execution, p);
    ShortIdIsValid(Router(workflow, execution), p);
  }

  lemma StopsAtFirst(st: Station, p: Packet, turn: Turn, failure: Failure)
    requires turn.received == Got(p) && HandlerOf(st)(0, p, turn) == Failed(failure) && Proper(Failed(failure))
    ensures RunOf(st, [turn], [p], Head(st, p), Error(failure))
  {
    assert [p][..0] == [];
    assert FullTrace(st, []) + Head(st, p) == Head(st, p);
  }

  /** The smallest run that breaks the promise: a routed packet on an open port, its token cancelled. */
  method CancelledPacketGoesUnsent(workflow: WorkflowId, execution: Execution, p: Packet)
    returns (st: Station, log: seq<Event>, received: seq<Packet>, outcome: Outcome)
    ensures OpensAt([Moment(true, Granted)], 0) && Target(st, p) == Some("out") && "out" in st.outputs
    ensures received == [p] && log == Head(st, p) && outcome == Error(SendFailed(SendCancelled))
  {
    st := Router(workflow, execution);
    var turn := Turn(Got(p), [Moment(true, Granted)], true);
    RouterRoutes(workflow, execution, p);
    RouterIsCancelled(workflow, execution, p, turn);
    StopsAtFirst(st, p, turn, SendFailed(SendCancelled));
    log, received, outcome := Run(st, [turn]);
    RunIsDetermined(st, [turn], received, log, outcome, [p], Head(st, p), Error(SendFailed(SendCancelled)));
  }

  lemma ShortIdIsValid(st: Station, p: Packet)
    requires st.ctx.node == "n" && st.counter == 0
    ensures ValidId(ForwardPacket(st.ctx, "out", NumberOf(st, 0), p).messageId)
  {
    AsciiLength("n");
    AsciiLength("out");
    CleanIsValid("n");
    CleanIsValid("out");
    PowAtLeastTen(Room(st.ctx, "out"));
    MessageIdRefusedIff(st.ctx, "out", NumberOf(st, 0), p);
  }

  // ---- What the trace says --------------------------------------------------------

  function PayloadsOf(e: Event, port: PortId): seq<Payload> {
    if e.Sent? && e.port == port then [e.packet.payload] else []
  }

  function PayloadsSent(log: seq<Event>, port: PortId): seq<Payload> {
    if log == [] then [] else PayloadsSent(log[..|log| - 1], port) + PayloadsOf(log[|log| - 1], port)
  }

  /** The payloads of the packets whose decision targets the port, in arrival order. */
  function PayloadsFor(st: Station, ps: seq<Packet>, port: PortId): seq<Payload> {
    if ps == [] then []
    else
      var n := |ps| - 1;
      PayloadsFor(st, ps[..n], port) + if Target(st, ps[n]) == Some(port) then [ps[n].payload] else []
  }

  function RecordsOf(e: Event): seq<EvalRecord> {
    if e.Recorded? then [e.record] else []
  }

  function Records(log: seq<Event>): seq<EvalRecord> {
    if log == [] then [] else Records(log[..|log| - 1]) + RecordsOf(log[|log| - 1])
  }

  function RecordsFor(st: Station, ps: seq<Packet>): seq<EvalRecord> {
    seq(|ps|, i requires 0 <= i < |ps| => RecordOf(st, ps[i]))
  }

  lemma RecordsForPrefix(st: Station, ps: seq<Packet>)
    requires ps != []
    ensures RecordsFor(st, ps) == RecordsFor(st, ps[..|ps| - 1]) + [RecordOf(st, ps[|ps| - 1])]
  {
  }

  lemma {:induction false} PayloadsAppend(log: seq<Event>, e: Event, port: PortId)
    ensures PayloadsSent(log + [e], port) == PayloadsSent(log, port) + PayloadsOf(e, port)
  {
    assert (log + [e])[..|log|] == log;
  }

  lemma {:induction false} RecordsAppend(log: seq<Event>, e: Event)
    ensures Records(log + [e]) == Records(log) + RecordsOf(e)
  {
    assert (log + [e])[..|log|] == log;
  }

  lemma HeadEffect(log: seq<Event>, p: Packet, r: EvalRecord, port: PortId)
    ensures PayloadsSent(log + [Arrival(p), Recorded(r)], port) == PayloadsSent(log, port)
    ensures Records(log + [Arrival(p), Recorded(r)]) == Records(log) + [r]
  {
    assert log + [Arrival(p), Recorded(r)] == log + [Arrival(p)] + [Recorded(r)];
    PayloadsAppend(log, Arrival(p), port);
    PayloadsAppend(log + [Arrival(p)], Recorded(r), port);
    RecordsAppend(log, Arrival(p));
    RecordsAppend(log + [Arrival(p)], Recorded(r));
  }

  lemma SendEffect(log: seq<Event>, ctx: NodeContext, target: Option<PortId>, number: nat, p: Packet, port: PortId)
    ensures PayloadsSent(log + SendEvents(ctx, target, number, p), port)
         == PayloadsSent(log, port) + if target == Some(port) then [p.payload] else []
    ensures Records(log + SendEvents(ctx, target, number, p)) == Records(log)
  {
    if target.Some? {
      var e := Sent(target.value, ForwardPacket(ctx, target.value, number, p));
      PayloadsAppend(log, e, port);
      RecordsAppend(log, e);
    } else {
      assert log + [] == log;
    }
  }

  /** Records match received packets one to one in order, and each port carries exactly the payloads decided for it. */
  lemma {:induction false} TraceRoutesFaithfully(st: Station, ps: seq<Packet>, port: PortId)
    ensures PayloadsSent(FullTrace(st, ps), port) == PayloadsFor(st, ps, port)
    ensures Records(FullTrace(st, ps)) == RecordsFor(st, ps)
  {
    if ps != [] {
      var n := |ps| - 1;
      TraceRoutesFaithfully(st, ps[..n], port);
      var before := FullTrace(st, ps[..n]);
      HeadEffect(before, ps[n], RecordOf(st, ps[n]), port);
      SendEffect(before + Head(st, ps[n]), st.ctx, Target(st, ps[n]), NumberOf(st, n), ps[n], port);
      RecordsForPrefix(st, ps);
    }
  }

  lemma CutTrace(st: Station, ps: seq<Packet>, port: PortId)
    requires ps != []
    ensures
      var n := |ps| - 1;
      var log := FullTrace(st, ps[..n]) + Head(st, ps[n]);
      PayloadsSent(log, port) == PayloadsFor(st, ps[..n], port) && Records(log) == RecordsFor(st, ps)
  {
    var n := |ps| - 1;
    TraceRoutesFaithfully(st, ps[..n], port);
    HeadEffect(FullTrace(st, ps[..n]), ps[n], RecordOf(st, ps[n]), port);
    RecordsForPrefix(st, ps);
  }

  /**
   Every run: the records are those of the received packets, in order, none missing; each port carries in
   order the payloads decided for it, and misses one, the last, exactly when that packet's send was not
   carried out.
   */
  lemma RunTrace(st: Station, turns: seq<Turn>, received: seq<Packet>, log: seq<Event>, port: PortId)
    requires |received| <= |turns| && LogOf(st, turns, received, log)
    ensures Records(log) == RecordsFor(st, received)
    ensures LastDone(HandlerOf(st), turns, received) ==> PayloadsSent(log, port) == PayloadsFor(st, received, port)
    ensures !LastDone(HandlerOf(st), turns, received) ==>
      PayloadsSent(log, port) == PayloadsFor(st, received[..|received| - 1], port)
    ensures PayloadsSent(log, port) == PayloadsFor(st, received, port) <==>
      LastDone(HandlerOf(st), turns, received) || Target(st, received[|received| - 1]) != Some(port)
  {
    if LastDone(HandlerOf(st), turns, received) {
      TraceRoutesFaithfully(st, received, port);
    } else {
      CutTrace(st, received, port);
    }
  }

  // ---- Message ids ----------------------------------------------------------------

  lemma {:induction false} DigitsHaveNoDash(n: nat)
    ensures '-' !in Digits(n)
    ensures Digits(n) != []
  {
    if n >= 10 {
      DigitsHaveNoDash(n / 10);
    }
  }

  lemma {:induction false} DigitsInjective(m: nat, n: nat)
    requires Digits(m) == Digits(n)
    ensures m == n
  {
    var a, b := Digits(m), Digits(n);
    DigitsHaveNoDash(m / 10);
    DigitsHaveNoDash(n / 10);
    if m >= 10 && n >= 10 {
      assert a[..|a| - 1] == Digits(m / 10) && b[..|b| - 1] == Digits(n / 10);
      assert a[|a| - 1] == b[|b| - 1];
      DigitsInjective(m / 10, n / 10);
    }
  }

  lemma LastDash(a: string, x: string, k: int)
    requires '-' !in x && |a| < k < |a| + 1 + |x|
    ensures (a + ['-'] + x)[k] != '-'
  {
    assert (a + ['-'] + x)[k] == x[k - |a| - 1];
  }

  /** Equal strings agree before and behind their last dash. */
  lemma SameParts(a: string, x: string, b: string, y: string)
    requires a + ['-'] + x == b + ['-'] + y
    requires '-' !in x && '-' !in y
    ensures a == b && x == y
  {
    assert (a + ['-'] + x)[|a|] == '-' && (b + ['-'] + y)[|b|] == '-';
    if |a| < |b| {
      LastDash(a, x, |b|);
    } else if |b| < |a| {
      LastDash(b, y, |a|);
    } else {
      assert x == (a + ['-'] + x)[|a| + 1..] && y == (b + ['-'] + y)[|b| + 1..];
      assert a == (a + ['-'] + x)[..|a|] && b == (b + ['-'] + y)[..|b|];
    }
  }

  /** Two forwarded packets share a message id iff they share number and port, whatever the ports are called. */
  lemma MessageIdsMeetIff(ctx: NodeContext, port: PortId, m: nat, p: Packet, port': PortId, n: nat, p': Packet)
    ensures ForwardPacket(ctx, port, m, p).messageId == ForwardPacket(ctx, port', n, p').messageId <==>
      m == n && port == port'
  {
    var stem := ctx.node + "-rule-";
    var a, b := stem + port, stem + port';
    if a + "-" + Digits(m) == b + "-" + Digits(n) {
      DigitsHaveNoDash(m);
      DigitsHaveNoDash(n);
      SameParts(a, Digits(m), b, Digits(n));
      DigitsInjective(m, n);
      assert port == a[|stem|..] && port' == b[|stem|..];
    }
  }

  function Pow10(d: nat): nat {
    if d == 0 then 1 else 10 * Pow10(d - 1)
  }

  lemma {:induction false} DigitCount(n: nat, d: nat)
    requires d > 0
    ensures |Digits(n)| <= d <==> n < Pow10(d)
  {
    if d == 1 {
      DigitsHaveNoDash(n / 10);
      assert Pow10(1) == 10 * Pow10(0);
    } else if n < 10 {
      PowAtLeastTen(d);
    } else {
      DigitCount(n / 10, d - 1);
    }
  }

  lemma {:induction false} PowAtLeastTen(d: nat)
    requires d > 0
    ensures Pow10(d) >= 10
  {
    if d > 1 {
      PowAtLeastTen(d - 1);
    }
  }

  lemma {:induction false} DigitsArePlain(n: nat)
    ensures Ascii(Digits(n)) && Clean(Digits(n)) && Digits(n) != []
  {
    if n >= 10 {
      DigitsArePlain(n / 10);
      CleanConcat(Digits(n / 10), [('0' as int + n % 10) as char]);
    }
  }

  /** The number that digits stand for. */
  function Reading(s: string): int {
    if s == [] then 0 else 10 * Reading(s[..|s| - 1]) + (s[|s| - 1] as int - '0' as int)
  }

  lemma {:induction false} DigitsRead(n: nat)
    ensures Reading(Digits(n)) == n
  {
    if n >= 10 {
      DigitsRead(n / 10);
      assert Digits(n)[..|Digits(n)| - 1] == Digits(n / 10);
    }
  }

  /** Digits a message id has room for beside the names of its node and port. */
  function Room(ctx: NodeContext, port: PortId): int {
    MAX_IDENTIFIER_LEN - 7 - ByteLength(ctx.node) - ByteLength(port)
  }

  lemma MessageIdLength(ctx: NodeContext, port: PortId, number: nat, p: Packet)
    ensures ByteLength(ForwardPacket(ctx, port, number, p).messageId)
         == ByteLength(ctx.node) + 6 + ByteLength(port) + 1 + |Digits(number)|
  {
    var a := ctx.node + "-rule-";
    DigitsArePlain(number);
    AsciiLength("-rule-");
    AsciiLength("-");
    AsciiLength(Digits(number));
    ByteLengthConcat(ctx.node, "-rule-");
    ByteLengthConcat(a, port);
    ByteLengthConcat(a + port, "-");
    ByteLengthConcat(a + port + "-", Digits(number));
  }

  lemma MessageIdIsClean(ctx: NodeContext, port: PortId, number: nat, p: Packet)
    requires Clean(ctx.node) && Clean(port)
    ensures Clean(ForwardPacket(ctx, port, number, p).messageId)
  {
    var a := ctx.node + "-rule-";
    DigitsArePlain(number);
    CleanConcat(ctx.node, "-rule-");
    CleanConcat(a, port);
    CleanConcat(a + port, "-");
    CleanConcat(a + port + "-", Digits(number));
  }

  /** A message id is refused iff the counter has outgrown the room the names leave it. */
  lemma MessageIdRefusedIff(ctx: NodeContext, port: PortId, number: nat, p: Packet)
    requires ValidId(ctx.node) && ValidId(port)
    ensures !ValidId(ForwardPacket(ctx, port, number, p).messageId) <==>
      Room(ctx, port) < 1 || number >= Pow10(Room(ctx, port))
  {
    MessageIdLength(ctx, port, number, p);
    MessageIdIsClean(ctx, port, number, p);
    CleanIsValid(ForwardPacket(ctx, port, number, p).messageId);
    DigitsArePlain(number);
    if Room(ctx, port) >= 1 {
      DigitCount(number, Room(ctx, port));
    }
  }

  /** The counter repeats exactly after its whole range. */
  lemma NumbersMeetIff(st: Station, k: nat, n: nat)
    ensures NumberOf(st, k) == NumberOf(st, n) <==> (k - n) % COUNTER_RANGE == 0
    ensures st.counter + n < COUNTER_RANGE ==> NumberOf(st, n) == st.counter + n
  {
  }

  ghost predicate FreshIds(log: seq<Event>) {
    forall i, j | 0 <= i < j < |log| && log[i].Sent? && log[j].Sent? ::
      log[i].packet.messageId != log[j].packet.messageId
  }

  /** Every packet on the log carries the number of one of the packets received. */
  ghost predicate Numbered(st: Station, log: seq<Event>, n: nat) {
    forall i | 0 <= i < |log| && log[i].Sent? :: FromSome(st, log[i], n)
  }

  ghost predicate FromSome(st: Station, e: Event, n: nat)
    requires e.Sent?
  {
    exists k, p | 0 <= k < n :: e.packet == ForwardPacket(st.ctx, e.port, NumberOf(st, k), p)
  }

  lemma AppendSend(st: Station, log: seq<Event>, port: PortId, n: nat, p: Packet)
    requires n < COUNTER_RANGE && FreshIds(log) && Numbered(st, log, n)
    ensures
      var log' := log + [Sent(port, ForwardPacket(st.ctx, port, NumberOf(st, n), p))];
      FreshIds(log') && Numbered(st, log', n + 1)
  {
    var e := Sent(port, ForwardPacket(st.ctx, port, NumberOf(st, n), p));
    forall i | 0 <= i < |log| && log[i].Sent?
      ensures log[i].packet.messageId != e.packet.messageId && FromSome(st, log[i], n + 1)
    {
      assert FromSome(st, log[i], n);
      var k, q :| 0 <= k < n && log[i].packet == ForwardPacket(st.ctx, log[i].port, NumberOf(st, k), q);
      NumbersMeetIff(st, k, n);
      MessageIdsMeetIff(st.ctx, log[i].port, NumberOf(st, k), q, port, NumberOf(st, n), p);
    }
    assert FromSome(st, e, n + 1);
  }

  lemma AppendQuietly(st: Station, log: seq<Event>, more: seq<Event>, n: nat)
    requires FreshIds(log) && Numbered(st, log, n) && forall k | 0 <= k < |more| :: !more[k].Sent?
    ensures FreshIds(log + more) && Numbered(st, log + more, n)
  {
    var log' := log + more;
    assert forall i | |log| <= i < |log'| :: log'[i] == more[i - |log|];
  }

  lemma NumberedWiden(st: Station, log: seq<Event>, n: nat)
    requires Numbered(st, log, n)
    ensures Numbered(st, log, n + 1)
  {
    forall i | 0 <= i < |log| && log[i].Sent? ensures FromSome(st, log[i], n + 1) {
      assert FromSome(st, log[i], n);
      var k, q :| 0 <= k < n && log[i].packet == ForwardPacket(st.ctx, log[i].port, NumberOf(st, k), q);
    }
  }

  lemma {:induction false} TraceIdsAreFresh(st: Station, ps: seq<Packet>)
    requires |ps| <= COUNTER_RANGE
    ensures FreshIds(FullTrace(st, ps)) && Numbered(st, FullTrace(st, ps), |ps|)
  {
    if ps != [] {
      var n := |ps| - 1;
      TraceIdsAreFresh(st, ps[..n]);
      var before := FullTrace(st, ps[..n]);
      AppendQuietly(st, before, Head(st, ps[n]), n);
      if Target(st, ps[n]).Some? {
        AppendSend(st, before + Head(st, ps[n]), Target(st, ps[n]).value, n, ps[n]);
      } else {
        NumberedWiden(st, before + Head(st, ps[n]), n);
        assert before + Head(st, ps[n]) + [] == before + Head(st, ps[n]);
      }
    }
  }

  /** No two packets sent in one run share a message id, up to the range of the packet counter. */
  lemma MessageIdsAreFresh(st: Station, turns: seq<Turn>, received: seq<Packet>, log: seq<Event>)
    requires |received| <= |turns| && LogOf(st, turns, received, log) && |received| <= COUNTER_RANGE
    ensures FreshIds(log)
  {
    if LastDone(HandlerOf(st), turns, received) {
      TraceIdsAreFresh(st, received);
    } else {
      var n := |received| - 1;
      TraceIdsAreFresh(st, received[..n]);
      AppendQuietly(st, FullTrace(st, received[..n]), Head(st, received[n]), n);
    }
  }

  // ---- Validated rule sets --------------------------------------------------------

  lemma ValidatedTargetsAreDeclared(w: Workflow, st: Station, p: Packet)
    requires Legal(w, st.ctx.node, st.rules) && Target(st, p).Some?
    ensures Target(st, p).value in HostOf(w.nodes, st.ctx.node).value.outputs
  {
    ValidatedNeverSendsUnknown(w, st.ctx.node, st.rules, SubjectOf(st.ctx, p));
  }

  /** A validated rule node, run on its host's outputs in any environment, never ends with an unknown port. */
  method RunValidated(st: Station, turns: seq<Turn>, w: Workflow, host: Node)
    returns (log: seq<Event>, received: seq<Packet>, outcome: Outcome)
    requires Legal(w, st.ctx.node, st.rules) && HostOf(w.nodes, st.ctx.node) == Some(host) && st.outputs == host.outputs
    ensures outcome != Error(SendFailed(UnknownPort))
    ensures RunOf(st, turns, received, log, outcome)
  {
    log, received, outcome := Run(st, turns);
    if outcome == Error(SendFailed(UnknownPort)) {
      LastFailed(HandlerOf(st), turns, received, SendFailed(UnknownPort));
      ValidatedHandling(w, st, host, |received| - 1, received[|received| - 1], turns[|received| - 1]);
    }
  }

  lemma LastFailed(f: Handler, turns: seq<Turn>, received: seq<Packet>, failure: Failure)
    requires Delivered(turns, received) && Explained(f, turns, received, Error(failure)) && Proper(Failed(failure))
    ensures received != [] && f(|received| - 1, received[|received| - 1], turns[|received| - 1]) == Failed(failure)
  {
  }

  lemma ValidatedHandling(w: Workflow, st: Station, host: Node, n: nat, p: Packet, turn: Turn)
    requires Legal(w, st.ctx.node, st.rules) && HostOf(w.nodes, st.ctx.node) == Some(host) && st.outputs == host.outputs
    ensures HandlerOf(st)(n, p, turn) != Failed(SendFailed(UnknownPort))
  {
    if Target(st, p).Some? {
      ValidatedTargetsAreDeclared(w, st, p);
    }
  }

  /** Forwarded packets always pass the host's contract validator on a contracted port. */
  lemma ForwardedPacketIsAccepted(ctx: NodeContext, port: PortId, number: nat, p: Packet, ports: set<PortId>)
    requires port in ports
    ensures
      var forwarded := ForwardPacket(ctx, port, number, p);
      && Validate(Validator(ctx.workflow, ctx.node, ctx.execution, ports), port, forwarded).None?
      && Provenance(ctx.workflow, ctx.execution, Endpoint(ctx.node, port), forwarded)
      && forwarded.payload == p.payload
      && forwarded.source == Some(forwarded.target) && forwarded.target == Endpoint(ctx.node, port)
  {
  }

  /**
   A forwarded packet names the sender's output port as its target, so a downstream rule node's
   `ArrivedOnPort` condition holds exactly for that name, whatever input port the edge leads to.
   */
  lemma ArrivalPortIsUpstreamOutput(
    ctx: NodeContext, down: NodeContext, port: PortId, number: nat, p: Packet, q: PortId)
    ensures
      var x := SubjectOf(down, ForwardPacket(ctx, port, number, p));
      Eval(ArrivedOnPort(q), x.payload, x.context) <==> q == port
  {
  }
}
