/**
 The runtime wrapper around each node: lifecycle records, error records and the returned result, written to
 one log that the nodes of a run share while the supervisor collects their results.
 */
module Lifecycle {
  import opened Types
  import opened Supervisor

  datatype Kind = NodeStarted | NodeCompleted | NodeFailed | NodeCancelled

  datatype NodeRecord = Transition(kind: Kind) | Failure(error: Error)

  /** A record on the shared log, with the node it is about. */
  datatype Entry = Entry(node: NodeId, record: NodeRecord)

  /** What each observation returns: `None` when the sink or hook accepts, else its error. */
  datatype Observers = Observers(
    startSink: Option<Error>, startHook: Option<Error>,
    errorSink: Option<Error>,
    endSink: Option<Error>, endHook: Option<Error>)

  const AllAccept := Observers(None, None, None, None, None)

  function TerminalKind(result: Option<Error>): Kind {
    KindOf(OutcomeOf(result))
  }

  function KindOf(outcome: Outcome): Kind {
    match outcome
    case Succeeded => NodeCompleted
    case WasCancelled => NodeCancelled
    case HasFailed => NodeFailed
  }

  predicate IsTerminal(r: NodeRecord) {
    r.Transition? && r.kind != NodeStarted
  }

  /** What a node whose start was observed writes at its end. */
  function EndTrace(result: Option<Error>, obs: Observers): seq<NodeRecord> {
    (if result.Some? && obs.errorSink.None? then [Failure(result.value)] else [])
    + (if obs.endSink.None? then [Transition(TerminalKind(result))] else [])
  }

  function StartTrace(obs: Observers): seq<NodeRecord> {
    if obs.startSink.Some? then [] else [Transition(NodeStarted)]
  }

  /** The records a node writes, of which some may be refused. */
  function Trace(result: Option<Error>, obs: Observers): seq<NodeRecord> {
    StartTrace(obs) + if obs.startSink.Some? || obs.startHook.Some? then [] else EndTrace(result, obs)
  }

  /** The records of a fully observed node: started, its error if any, one terminal transition. */
  function FullTrace(result: Option<Error>): seq<NodeRecord> {
    [Transition(NodeStarted)]
    + (if result.Some? then [Failure(result.value)] else [])
    + [Transition(TerminalKind(result))]
  }

  function Tagged(n: NodeId, records: seq<NodeRecord>): seq<Entry> {
    seq(|records|, i requires 0 <= i < |records| => Entry(n, records[i]))
  }

  lemma TaggedConcat(n: NodeId, a: seq<NodeRecord>, b: seq<NodeRecord>)
    ensures Tagged(n, a + b) == Tagged(n, a) + Tagged(n, b)
  {
  }

  /** What a node writes at its start when nothing is refused. */
  function StartEntries(n: NodeId): seq<Entry> {
    [Entry(n, Transition(NodeStarted))]
  }

  /** What it writes at its end. */
  function EndEntries(n: NodeId, result: Option<Error>): seq<Entry> {
    if result.None? then [Entry(n, Transition(TerminalKind(result)))]
    else [Entry(n, Failure(result.value)), Entry(n, Transition(TerminalKind(result)))]
  }

  lemma AcceptedEntries(n: NodeId, result: Option<Error>)
    ensures Tagged(n, StartTrace(AllAccept)) == StartEntries(n)
    ensures Tagged(n, EndTrace(result, AllAccept)) == EndEntries(n, result)
  {
  }

  // ---- Writing the log ------------------------------------------------------------

  class NodeLog {
    var entries: seq<Entry>

    constructor ()
      ensures entries == []
    {
      entries := [];
    }

    method Write(n: NodeId, r: NodeRecord, verdict: Option<Error>) returns (err: Option<Error>)
      modifies this
      ensures err == verdict
      ensures entries == old(entries) + if verdict.None? then [Entry(n, r)] else []
    {
      if verdict.None? {
        entries := entries + [Entry(n, r)];
      }
      err := verdict;
    }

    method ObserveLifecycle(n: NodeId, kind: Kind, sink: Option<Error>, hook: Option<Error>)
      returns (err: Option<Error>)
      modifies this
      ensures err == if sink.Some? then sink else hook
      ensures entries == old(entries) + if sink.None? then [Entry(n, Transition(kind))] else []
    {
      err := Write(n, Transition(kind), sink);
      if err.None? {
        err := hook;
      }
    }

    /** What happens before the node's executor is first polled. */
    method Begin(n: NodeId, obs: Observers) returns (err: Option<Error>)
      modifies this
      ensures err == if obs.startSink.Some? then obs.startSink else obs.startHook
      ensures entries == old(entries) + Tagged(n, StartTrace(obs))
    {
      err := ObserveLifecycle(n, NodeStarted, obs.startSink, obs.startHook);
    }

    /** What happens once the executor has returned. */
    method End(n: NodeId, result: Option<Error>, obs: Observers) returns (r: Option<Error>)
      modifies this
      ensures r == if result.Some? then result else if obs.endSink.Some? then obs.endSink else obs.endHook
      ensures entries == old(entries) + Tagged(n, EndTrace(result, obs))
    {
      if result.None? {
        r := ObserveLifecycle(n, NodeCompleted, obs.endSink, obs.endHook);
      } else {
        var err := result.value;
        var _ := Write(n, Failure(err), obs.errorSink);
        var _ := ObserveLifecycle(
          n, if err.Cancellation? then NodeCancelled else NodeFailed, obs.endSink, obs.endHook);
        r := Some(err);
      }
      TaggedEnd(n, result, obs);
    }
  }

  lemma TaggedEnd(n: NodeId, result: Option<Error>, obs: Observers)
    ensures Tagged(n, EndTrace(result, obs))
         == (if result.Some? && obs.errorSink.None? then [Entry(n, Failure(result.value))] else [])
          + (if obs.endSink.None? then [Entry(n, Transition(TerminalKind(result)))] else [])
  {
  }

  /** `run_node_with_observers`, for a node whose run yields `result`. */
  method RunNodeWithObservers(log: NodeLog, n: NodeId, result: Option<Error>, obs: Observers) returns (r: Option<Error>)
    modifies log
    ensures log.entries == old(log.entries) + Tagged(n, Trace(result, obs))
    // A node error is never masked by a failing observer, and success needs every observation.
    ensures obs.startSink.None? && obs.startHook.None? && result.Some? ==> r == result
    ensures r.None? <==>
      && result.None?
      && obs.startSink.None? && obs.startHook.None? && obs.endSink.None? && obs.endHook.None?
  {
    r := log.Begin(n, obs);
    if r.Some? {
      assert Trace(result, obs) == StartTrace(obs);
      return;
    }
    r := log.End(n, result, obs);
    TaggedConcat(n, StartTrace(obs), EndTrace(result, obs));
  }

  /**
   Whatever the observers refuse, the start comes first and at most once, and at most one terminal
   transition follows it, last, of the kind the node's result calls for; nothing refused keeps all.
   */
  lemma TraceShape(result: Option<Error>, obs: Observers)
    ensures
      var t := Trace(result, obs);
      && (forall i | 0 <= i < |t| :: t[i] == Transition(NodeStarted) <==> i == 0)
      && (forall i | 0 <= i < |t| && IsTerminal(t[i]) :: i == |t| - 1 && t[i].kind == TerminalKind(result))
    ensures Trace(result, AllAccept) == FullTrace(result)
    // The error of a failed node, and no other, is on record before its terminal transition.
    ensures forall e :: Failure(e) in FullTrace(result) <==> result == Some(e)
    ensures |FullTrace(result)| == if result.Some? then 3 else 2
  {
    assert |Trace(result, obs)| <= 3;
    if result.Some? {
      assert FullTrace(result)[1] == Failure(result.value);
    }
  }

  // ---- One log for all nodes ------------------------------------------------------

  /** A node starts, a node ends and its result is collected, or the watchdog fires. */
  datatype Step = Begin(node: NodeId) | End(node: NodeId, result: Option<Error>) | Fire

  /** A run with a sink and hook that accept everything; `events` is what the supervisor has seen. */
  datatype Life = Life(
    log: seq<Entry>, begun: set<NodeId>, ended: map<NodeId, Option<Error>>, events: seq<Event>, supervisor: State)

  function Starting(setup: Setup): Life {
    Life([], {}, map[], [], Start(setup))
  }

  function Observe(setup: Setup, s: Life, ev: Event): Life {
    s.(events := s.events + [ev], supervisor := OnEvent(setup, s.supervisor, ev))
  }

  /** Steps come in any order; one that cannot happen changes nothing. */
  function Live(setup: Setup, nodes: set<NodeId>, s: Life, step: Step): Life {
    if s.supervisor.done then s
    else match step
      case Begin(n) =>
        if n !in nodes || n in s.begun then s
        else s.(log := s.log + StartEntries(n), begun := s.begun + {n})
      case End(n, result) =>
        if n !in s.begun || n in s.ended then s
        else Observe(setup,
          s.(log := s.log + EndEntries(n, result), ended := s.ended[n := result]), NodeDone(result, true))
      case Fire => Observe(setup, s, Watchdog(true))
  }

  function LifeOf(setup: Setup, nodes: set<NodeId>, steps: seq<Step>): Life {
    if steps == [] then Starting(setup)
    else Live(setup, nodes, LifeOf(setup, nodes, steps[..|steps| - 1]), steps[|steps| - 1])
  }

  /** What the shared log says of one node. */
  function Project(log: seq<Entry>, n: NodeId): seq<NodeRecord> {
    if log == [] then []
    else
      var before, last := Project(log[..|log| - 1], n), log[|log| - 1];
      if last.node == n then before + [last.record] else before
  }

  function CountKind(log: seq<Entry>, kind: Kind): nat {
    if log == [] then 0
    else CountKind(log[..|log| - 1], kind) + Indicator(log[|log| - 1].record == Transition(kind))
  }

  lemma {:induction false} LogGrows(log: seq<Entry>, e: Entry, n: NodeId, kind: Kind)
    ensures Project(log + [e], n) == if e.node == n then Project(log, n) + [e.record] else Project(log, n)
    ensures CountKind(log + [e], kind) == CountKind(log, kind) + Indicator(e.record == Transition(kind))
  {
    assert (log + [e])[..|log|] == log;
  }

  lemma LogEnds(log: seq<Entry>, n: NodeId, result: Option<Error>, m: NodeId, kind: Kind)
    ensures CountKind(log + EndEntries(n, result), kind)
         == CountKind(log, kind) + Indicator(kind == TerminalKind(result))
    ensures m != n ==> Project(log + EndEntries(n, result), m) == Project(log, m)
    ensures Project(log, n) == [Transition(NodeStarted)] ==>
      Project(log + EndEntries(n, result), n) == FullTrace(result)
  {
    var last := Entry(n, Transition(TerminalKind(result)));
    if result.None? {
      LogGrows(log, last, m, kind);
      LogGrows(log, last, n, kind);
    } else {
      var error := Entry(n, Failure(result.value));
      assert log + EndEntries(n, result) == log + [error] + [last];
      LogGrows(log, error, m, kind);
      LogGrows(log, error, n, kind);
      LogGrows(log + [error], last, m, kind);
      LogGrows(log + [error], last, n, kind);
    }
  }

  // ---- What every step keeps ------------------------------------------------------

  /** What a node has written so far: nothing, its start, or the whole of its trace. */
  function Written(s: Life, n: NodeId): seq<NodeRecord> {
    if n in s.ended then FullTrace(s.ended[n]) else if n in s.begun then [Transition(NodeStarted)] else []
  }

  /** The supervisor has collected the result of every node that has ended, and of no other. */
  ghost predicate Supervised(setup: Setup, nodes: set<NodeId>, s: Life) {
    && s.supervisor == Collect(setup, s.events)
    && s.ended.Keys <= s.begun <= nodes
    && s.supervisor.running + |s.ended| == setup.scheduled
  }

  /** The log's counts are the summary's. */
  predicate Agree(s: Life) {
    && CountKind(s.log, NodeStarted) == |s.begun|
    && CountKind(s.log, NodeCompleted) == s.supervisor.summary.completed
    && CountKind(s.log, NodeFailed) == s.supervisor.summary.failed
    && CountKind(s.log, NodeCancelled) == s.supervisor.summary.cancelled
  }

  lemma SomeoneIsRunning(setup: Setup, nodes: set<NodeId>, s: Life, n: NodeId)
    requires Supervised(setup, nodes, s) && |nodes| == setup.scheduled && n in s.begun && n !in s.ended
    ensures s.supervisor.running > 0
  {
    var left := nodes - s.ended.Keys;
    assert n in left;
    assert nodes == s.ended.Keys + left;
    assert |nodes| == |s.ended.Keys| + |left|;
  }

  lemma ObserveCollects(setup: Setup, s: Life, ev: Event)
    requires s.supervisor == Collect(setup, s.events)
    ensures Observe(setup, s, ev).supervisor == Collect(setup, Observe(setup, s, ev).events)
  {
    assert (s.events + [ev])[..|s.events|] == s.events;
  }

  lemma StepKeepsSupervised(setup: Setup, nodes: set<NodeId>, s: Life, step: Step)
    requires |nodes| == setup.scheduled < USIZE_MAX && Supervised(setup, nodes, s)
    ensures Supervised(setup, nodes, Live(setup, nodes, s, step))
  {
    match step
    case Begin(_) =>
    case Fire => ObserveCollects(setup, s, Watchdog(true));
    case End(n, result) =>
      if n in s.begun && n !in s.ended && !s.supervisor.done {
        SomeoneIsRunning(setup, nodes, s, n);
        ObserveCollects(setup, s, NodeDone(result, true));
        SupervisorInvariant(setup, s.events);
        OrdinaryStep(setup, s.supervisor, NodeDone(result, true));
      }
  }

  lemma BeginKeepsWritten(setup: Setup, nodes: set<NodeId>, s: Life, m: NodeId, n: NodeId)
    requires s.ended.Keys <= s.begun && Project(s.log, n) == Written(s, n)
    ensures
      var s' := Live(setup, nodes, s, Begin(m));
      Project(s'.log, n) == Written(s', n)
  {
    if m in nodes && m !in s.begun {
      LogGrows(s.log, Entry(m, Transition(NodeStarted)), n, NodeStarted);
    }
  }

  lemma EndWrites(s: Life, s': Life, m: NodeId, result: Option<Error>, n: NodeId)
    requires m in s.begun && m !in s.ended && Project(s.log, n) == Written(s, n)
    requires s'.log == s.log + EndEntries(m, result) && s'.begun == s.begun && s'.ended == s.ended[m := result]
    ensures Project(s'.log, n) == Written(s', n)
  {
    LogEnds(s.log, m, result, n, NodeStarted);
  }

  lemma EndKeepsWritten(setup: Setup, nodes: set<NodeId>, s: Life, m: NodeId, result: Option<Error>, n: NodeId)
    requires s.ended.Keys <= s.begun && Project(s.log, n) == Written(s, n)
    ensures
      var s' := Live(setup, nodes, s, End(m, result));
      Project(s'.log, n) == Written(s', n)
  {
    if !s.supervisor.done && m in s.begun && m !in s.ended {
      EndWrites(s, Live(setup, nodes, s, End(m, result)), m, result, n);
    }
  }

  lemma StepKeepsWritten(setup: Setup, nodes: set<NodeId>, s: Life, step: Step, n: NodeId)
    requires s.ended.Keys <= s.begun && Project(s.log, n) == Written(s, n)
    ensures
      var s' := Live(setup, nodes, s, step);
      Project(s'.log, n) == Written(s', n)
  {
    match step
    case Fire =>
    case Begin(m) => BeginKeepsWritten(setup, nodes, s, m, n);
    case End(m, result) => EndKeepsWritten(setup, nodes, s, m, result, n);
  }

  lemma BeginKeepsAgree(setup: Setup, nodes: set<NodeId>, s: Life, n: NodeId)
    requires Agree(s)
    ensures Agree(Live(setup, nodes, s, Begin(n)))
  {
    var e := Entry(n, Transition(NodeStarted));
    LogGrows(s.log, e, n, NodeStarted);
    LogGrows(s.log, e, n, NodeCompleted);
    LogGrows(s.log, e, n, NodeFailed);
    LogGrows(s.log, e, n, NodeCancelled);
  }

  lemma EndKeepsAgree(setup: Setup, nodes: set<NodeId>, s: Life, n: NodeId, result: Option<Error>)
    requires |nodes| == setup.scheduled < USIZE_MAX && Supervised(setup, nodes, s) && Agree(s)
    requires n in s.begun && n !in s.ended && !s.supervisor.done
    ensures Agree(Live(setup, nodes, s, End(n, result)))
  {
    SomeoneIsRunning(setup, nodes, s, n);
    SupervisorInvariant(setup, s.events);
    OrdinaryStep(setup, s.supervisor, NodeDone(result, true));
    LogEnds(s.log, n, result, n, NodeStarted);
    LogEnds(s.log, n, result, n, NodeCompleted);
    LogEnds(s.log, n, result, n, NodeFailed);
    LogEnds(s.log, n, result, n, NodeCancelled);
  }

  lemma StepKeepsAgree(setup: Setup, nodes: set<NodeId>, s: Life, step: Step)
    requires |nodes| == setup.scheduled < USIZE_MAX && Supervised(setup, nodes, s) && Agree(s)
    ensures Agree(Live(setup, nodes, s, step))
  {
    match step
    case Begin(n) => BeginKeepsAgree(setup, nodes, s, n);
    case End(n, result) =>
      if n in s.begun && n !in s.ended && !s.supervisor.done {
        EndKeepsAgree(setup, nodes, s, n, result);
      }
    case Fire =>
  }

  lemma {:induction false} LifeKeeps(setup: Setup, nodes: set<NodeId>, steps: seq<Step>, n: NodeId)
    requires |nodes| == setup.scheduled < USIZE_MAX
    ensures
      var s := LifeOf(setup, nodes, steps);
      Supervised(setup, nodes, s) && Project(s.log, n) == Written(s, n) && Agree(s)
  {
    if steps != [] {
      var before, step := LifeOf(setup, nodes, steps[..|steps| - 1]), steps[|steps| - 1];
      LifeKeeps(setup, nodes, steps[..|steps| - 1], n);
      StepKeepsSupervised(setup, nodes, before, step);
      StepKeepsWritten(setup, nodes, before, step, n);
      StepKeepsAgree(setup, nodes, before, step);
    }
  }

  lemma UnfinishedIsPrefix(s: Life, n: NodeId, result: Option<Error>)
    requires n !in s.ended
    ensures Written(s, n) <= FullTrace(result)
  {
  }

  /**
   However the nodes of a run interleave, after every step: each node's own records are a prefix of its full
   trace, complete once its result is collected and of the kind that result calls for, and the log counts
   the same completed, failed and cancelled nodes as the supervisor's summary of the events it has seen.
   */
  lemma LogAgreesWithSummary(setup: Setup, nodes: set<NodeId>, steps: seq<Step>, n: NodeId)
    requires |nodes| == setup.scheduled < USIZE_MAX
    ensures
      var s := LifeOf(setup, nodes, steps);
      && s.supervisor == Collect(setup, s.events)
      && Project(s.log, n) == Written(s, n)
      && (n !in s.ended ==> forall result :: Project(s.log, n) <= FullTrace(result))
      && Agree(s)
  {
    LifeKeeps(setup, nodes, steps, n);
    var s := LifeOf(setup, nodes, steps);
    if n !in s.ended {
      forall result ensures Project(s.log, n) <= FullTrace(result) {
        UnfinishedIsPrefix(s, n, result);
      }
    }
  }
}
