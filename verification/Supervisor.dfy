/** The workflow supervisor: collecting node results, cancelling on the first error, and the watchdog. */
module Supervisor {
  import opened Types

  const USIZE_MAX: nat := 0xFFFF_FFFF_FFFF_FFFF

  function SatAdd(a: nat, b: nat): nat {
    if a + b > USIZE_MAX then USIZE_MAX else a + b
  }

  function SatSub(a: nat, b: nat): nat {
    if b > a then 0 else a - b
  }

  datatype Diagnostic = Diagnostic(
    scheduled: nat, pending: nat, completed: nat, failed: nat, cancelled: nat, edges: nat, timeout: nat)

  /** Error texts are kept structured: plain text, or the watchdog's rendered diagnostic. */
  datatype Message = Text(text: string) | NoProgress(diagnostic: Diagnostic)

  datatype Error =
    | ValidationError(message: Message)
    | ExecutionError(message: Message)
    | Cancellation(message: Message)
    | LifecycleError(message: Message)
    | MetadataError(message: Message)

  datatype Terminal = Completed | Failed | Cancelled

  datatype Summary = Summary(
    terminal: Terminal,
    scheduled: nat,
    completed: nat,
    failed: nat,
    cancelled: nat,
    errorCount: nat,
    firstError: Option<Error>,
    diagnostic: Option<Diagnostic>)
  {
    function Pending(): nat {
      SatSub(scheduled, SatAdd(SatAdd(completed, failed), cancelled))
    }

    function Success(): Summary {
      this.(completed := SatAdd(completed, 1))
    }

    function WithFirst(err: Error): Summary {
      if firstError.Some? then this
      else this.(firstError := Some(err), terminal := if err.Cancellation? then Cancelled else Failed)
    }

    function NodeError(err: Error): Summary {
      var counted := this.(errorCount := SatAdd(errorCount, 1));
      (if err.Cancellation? then counted.(cancelled := SatAdd(cancelled, 1))
       else counted.(failed := SatAdd(failed, 1))).WithFirst(err)
    }

    function WorkflowError(err: Error): Summary {
      this.(errorCount := SatAdd(errorCount, 1)).WithFirst(err)
    }
  }

  function NewSummary(scheduled: nat): Summary {
    Summary(Completed, scheduled, 0, 0, 0, 0, None, None)
  }

  // ---- The stateful objects -------------------------------------------------------

  /** `WorkflowRunSummary`, updated in place as results arrive. */
  class RunSummary {
    var value: Summary

    constructor (scheduled: nat)
      ensures value == NewSummary(scheduled)
    {
      value := NewSummary(scheduled);
    }

    method RecordSuccess()
      modifies this
      ensures value == old(value).Success()
    {
      value := value.(completed := SatAdd(value.completed, 1));
    }

    method RecordError(err: Error)
      modifies this
      ensures value == old(value).NodeError(err)
    {
      value := value.(errorCount := SatAdd(value.errorCount, 1));
      if err.Cancellation? {
        value := value.(cancelled := SatAdd(value.cancelled, 1));
      } else {
        value := value.(failed := SatAdd(value.failed, 1));
      }
      if value.firstError.None? {
        value := value.(terminal := if err.Cancellation? then Cancelled else Failed, firstError := Some(err));
      }
    }

    method RecordWorkflowError(err: Error)
      modifies this
      ensures value == old(value).WorkflowError(err)
    {
      value := value.(errorCount := SatAdd(value.errorCount, 1));
      if value.firstError.None? {
        value := value.(terminal := if err.Cancellation? then Cancelled else Failed, firstError := Some(err));
      }
    }

    method RecordDiagnostic(d: Diagnostic)
      modifies this
      ensures value == old(value).(diagnostic := Some(d))
    {
      value := value.(diagnostic := Some(d));
    }
  }

  /** The signal shared by a cancellation handle and all its tokens; it keeps the error that caused it. */
  class CancellationSignal {
    var request: Option<Error>

    constructor ()
      ensures request.None?
    {
      request := None;
    }

    method RequestCancellation(cause: Error) returns (first: bool)
      modifies this
      ensures first <==> old(request).None?
      ensures request == if old(request).None? then Some(cause) else old(request)
    {
      if request.Some? {
        return false;
      }
      request := Some(cause);
      first := true;
    }
  }

  datatype Record = WorkflowFailed(error: Error, diagnostic: Option<Diagnostic>)

  class Sink {
    var records: seq<Record>

    constructor ()
      ensures records == []
    {
      records := [];
    }

    /** A sink may refuse a record; `accepts` is its verdict. */
    method Write(r: Record, accepts: bool) returns (ok: bool)
      modifies this
      ensures ok == accepts
      ensures records == old(records) + if accepts then [r] else []
    {
      if accepts {
        records := records + [r];
      }
      ok := accepts;
    }
  }

  // ---- Specification --------------------------------------------------------------

  /** What the collector can observe next; `accepts` is the sink's verdict on a record written then. */
  datatype Event = NodeDone(error: Option<Error>, accepts: bool) | Watchdog(accepts: bool)

  /** `running` counts unfinished node futures; `refused` means a sink error ended the collection. */
  datatype State = State(
    summary: Summary, request: Option<Error>, records: seq<Record>, running: nat, done: bool, refused: bool)

  datatype Setup = Setup(scheduled: nat, edges: nat, timeout: nat)

  function Start(setup: Setup): State {
    State(NewSummary(setup.scheduled), None, [], setup.scheduled, false, false)
  }

  function DiagnosticOf(setup: Setup, s: Summary): Diagnostic {
    Diagnostic(s.scheduled, s.Pending(), s.completed, s.failed, s.cancelled, setup.edges, setup.timeout)
  }

  /** Write a workflow-failed record and request cancellation; a refusing sink stops before the request. */
  function Announce(s: State, err: Error, diagnostic: Option<Diagnostic>, accepts: bool): State {
    if !accepts then s.(done := true, refused := true)
    else s.(
      records := s.records + [WorkflowFailed(err, diagnostic)],
      request := if s.request.None? then Some(err) else s.request)
  }

  function OnNodeDone(s: State, result: Option<Error>, accepts: bool): State {
    match result
    case None => s.(summary := s.summary.Success())
    case Some(err) =>
      var s' := if s.summary.firstError.None? then Announce(s, err, None, accepts) else s;
      if s'.refused then s' else s'.(summary := s'.summary.NodeError(err))
  }

  function OnWatchdog(setup: Setup, s: State, accepts: bool): State {
    var d := DiagnosticOf(setup, s.summary);
    var err := ExecutionError(NoProgress(d));
    var s' := Announce(s, err, Some(d), accepts);
    if s'.refused then s'
    else s'.(summary := s'.summary.WorkflowError(err).(diagnostic := Some(d)), done := true)
  }

  function OnEvent(setup: Setup, s: State, ev: Event): State {
    if s.done || s.running == 0 then s
    else match ev
      case NodeDone(error, accepts) => OnNodeDone(s.(running := s.running - 1), error, accepts)
      case Watchdog(accepts) => OnWatchdog(setup, s, accepts)
  }

  function Collect(setup: Setup, events: seq<Event>): State {
    if events == [] then Start(setup)
    else OnEvent(setup, Collect(setup, events[..|events| - 1]), events[|events| - 1])
  }

  // ---- The collector --------------------------------------------------------------

  ghost predicate Tracks(s: State, summary: RunSummary, signal: CancellationSignal, sink: Sink)
    reads summary, signal, sink
  {
    s.summary == summary.value && s.request == signal.request && s.records == sink.records
  }

  method RecordNodeRunResult(
    summary: RunSummary, signal: CancellationSignal, sink: Sink, result: Option<Error>, accepts: bool, ghost s: State)
    returns (ok: bool)
    requires Tracks(s, summary, signal, sink) && !s.refused
    modifies summary, signal, sink
    ensures Tracks(OnNodeDone(s, result, accepts), summary, signal, sink)
    ensures ok <==> !OnNodeDone(s, result, accepts).refused
  {
    if result.None? {
      summary.RecordSuccess();
      return true;
    }
    var err := result.value;
    if summary.value.firstError.None? {
      ok := sink.Write(WorkflowFailed(err, None), accepts);
      if !ok {
        return;
      }
      var _ := signal.RequestCancellation(err);
    }
    summary.RecordError(err);
    ok := true;
  }

  /** The collection loop with a watchdog; without watchdog events it is the plain loop. */
  method CollectSummary(setup: Setup, events: seq<Event>, summary: RunSummary, signal: CancellationSignal, sink: Sink)
    returns (ok: bool)
    requires Tracks(Start(setup), summary, signal, sink)
    modifies summary, signal, sink
    ensures Tracks(Collect(setup, events), summary, signal, sink)
    ensures ok <==> !Collect(setup, events).refused
  {
    var running := setup.scheduled;
    var i := 0;
    var stopped := false;
    ok := true;
    while i < |events|
      invariant i <= |events|
      invariant Tracks(Collect(setup, events[..i]), summary, signal, sink)
      invariant Collect(setup, events[..i]).running == running
      invariant Collect(setup, events[..i]).done == stopped
      invariant ok <==> !Collect(setup, events[..i]).refused
      invariant !ok ==> stopped
    {
      ghost var s := Collect(setup, events[..i]);
      assert events[..i + 1][..i] == events[..i];
      if running > 0 && !stopped {
        match events[i] {
          case NodeDone(result, accepts) =>
            running := running - 1;
            ok := RecordNodeRunResult(summary, signal, sink, result, accepts, s.(running := running));
            stopped := !ok;
          case Watchdog(accepts) =>
            var v := summary.value;
            var d := Diagnostic(
              v.scheduled, v.Pending(), v.completed, v.failed, v.cancelled, setup.edges, setup.timeout);
            var err := ExecutionError(NoProgress(d));
            ok := sink.Write(WorkflowFailed(err, Some(d)), accepts);
            stopped := true;
            if ok {
              var _ := signal.RequestCancellation(err);
              summary.RecordWorkflowError(err);
              summary.RecordDiagnostic(d);
            }
        }
      }
      i := i + 1;
    }
    assert events[..|events|] == events;
  }

  // ---- What every run keeps -------------------------------------------------------

  function Indicator(b: bool): nat {
    if b then 1 else 0
  }

  ghost predicate Consistent(setup: Setup, s: State) {
    var v := s.summary;
    && v.scheduled == setup.scheduled
    && v.completed + v.failed + v.cancelled + s.running <= v.scheduled
    && (s.refused ==> s.done)
    && (!s.refused ==> v.completed + v.failed + v.cancelled + s.running == v.scheduled)
    && v.Pending() + v.completed + v.failed + v.cancelled == v.scheduled
    && v.errorCount == v.failed + v.cancelled + Indicator(v.diagnostic.Some?)
    && (v.terminal == Completed <==> v.firstError.None?)
    && (v.terminal == Cancelled <==> v.firstError.Some? && v.firstError.value.Cancellation?)
    && s.request == v.firstError
    && (v.firstError.Some? <==> v.errorCount > 0)
    && (v.diagnostic.Some? ==> s.done && Reports(v.diagnostic.value, setup, v) && v.Pending() > 0)
  }

  /** The diagnostic tells the summary's own counts, under their own names, and the run's edges and timeout. */
  predicate Reports(d: Diagnostic, setup: Setup, v: Summary) {
    && d.scheduled == v.scheduled
    && d.pending == v.Pending()
    && d.completed == v.completed
    && d.failed == v.failed
    && d.cancelled == v.cancelled
    && d.edges == setup.edges
    && d.timeout == setup.timeout
  }

  /** What the watchdog reports as an error. */
  function WatchdogError(d: Diagnostic): Error {
    ExecutionError(NoProgress(d))
  }

  /**
   The workflow-failed records: none without an error; one for the first error of a node; one for the watchdog,
   with its diagnostic, after that or instead of it.
   */
  predicate RecordsTell(s: State) {
    var v := s.summary;
    var ofNode := if v.failed + v.cancelled > 0 then [(v.firstError, None)] else [];
    var ofWatchdog := if v.diagnostic.Some? then [(Some(WatchdogError(v.diagnostic.value)), v.diagnostic)] else [];
    && RecordedAs(s.records, ofNode + ofWatchdog)
    && (v.diagnostic.Some? && v.failed + v.cancelled == 0 ==> v.firstError == Some(WatchdogError(v.diagnostic.value)))
  }

  predicate RecordedAs(records: seq<Record>, told: seq<(Option<Error>, Option<Diagnostic>)>) {
    && |records| == |told|
    && forall i | 0 <= i < |told| ::
         Some(records[i].error) == told[i].0 && records[i].diagnostic == told[i].1
  }

  lemma EventKeepsConsistent(setup: Setup, s: State, ev: Event)
    requires setup.scheduled < USIZE_MAX && Consistent(setup, s)
    ensures Consistent(setup, OnEvent(setup, s, ev))
  {
  }

  lemma EventKeepsRecords(setup: Setup, s: State, ev: Event)
    requires setup.scheduled < USIZE_MAX && Consistent(setup, s) && RecordsTell(s)
    ensures RecordsTell(OnEvent(setup, s, ev))
  {
    EventKeepsConsistent(setup, s, ev);
  }

  /**
   Over every run and whatever the sink does: counts add up, the terminal state and the cancellation
   request mirror the first error, a fired watchdog reports the final counts with work pending, and the
   records tell the first error and the watchdog's, a second one exactly when the watchdog fires after a
   node error.
   */
  lemma {:induction false} SupervisorInvariant(setup: Setup, events: seq<Event>)
    requires setup.scheduled < USIZE_MAX
    ensures Consistent(setup, Collect(setup, events)) && RecordsTell(Collect(setup, events))
  {
    if events != [] {
      SupervisorInvariant(setup, events[..|events| - 1]);
      EventKeepsConsistent(setup, Collect(setup, events[..|events| - 1]), events[|events| - 1]);
      EventKeepsRecords(setup, Collect(setup, events[..|events| - 1]), events[|events| - 1]);
    }
  }

  /** The first error, and the cancellation request made for it, survive everything that follows. */
  lemma {:induction false} FirstErrorIsKept(setup: Setup, events: seq<Event>, more: seq<Event>)
    requires setup.scheduled < USIZE_MAX
    requires Collect(setup, events).summary.firstError.Some?
    ensures Collect(setup, events + more).summary.firstError == Collect(setup, events).summary.firstError
    ensures Collect(setup, events + more).request == Collect(setup, events).request
  {
    if more == [] {
      assert events + more == events;
    } else {
      FirstErrorIsKept(setup, events, more[..|more| - 1]);
      var all := events + more;
      assert all[..|all| - 1] == events + more[..|more| - 1];
      SupervisorInvariant(setup, events);
      EventKeepsFirst(setup, Collect(setup, all[..|all| - 1]), all[|all| - 1]);
    }
  }

  lemma EventKeepsFirst(setup: Setup, s: State, ev: Event)
    requires s.summary.firstError.Some? && s.request.Some?
    ensures OnEvent(setup, s, ev).summary.firstError == s.summary.firstError
    ensures OnEvent(setup, s, ev).request == s.request
  {
  }

  /** The error of the earliest failed result in a list of results. */
  function EarliestError(events: seq<Event>): Option<Error> {
    if events == [] then None
    else
      var earlier, last := EarliestError(events[..|events| - 1]), events[|events| - 1];
      if earlier.Some? || last.Watchdog? then earlier else last.error
  }

  datatype Outcome = Succeeded | WasCancelled | HasFailed

  function OutcomeOf(result: Option<Error>): Outcome {
    match result
    case None => Succeeded
    case Some(err) => if err.Cancellation? then WasCancelled else HasFailed
  }

  function Tally(events: seq<Event>, outcome: Outcome): nat {
    if events == [] then 0
    else
      var last := events[|events| - 1];
      Tally(events[..|events| - 1], outcome) + Indicator(last.NodeDone? && OutcomeOf(last.error) == outcome)
  }

  /** Results of at most all scheduled nodes, over a sink that accepts every record. */
  predicate Ordinary(setup: Setup, events: seq<Event>) {
    && |events| <= setup.scheduled < USIZE_MAX
    && forall i | 0 <= i < |events| :: events[i].NodeDone? && events[i].accepts
  }

  lemma OrdinaryStep(setup: Setup, s: State, ev: Event)
    requires setup.scheduled < USIZE_MAX && Consistent(setup, s)
    requires !s.done && s.running > 0 && ev.NodeDone? && ev.accepts
    ensures
      var s' := OnEvent(setup, s, ev);
      && !s'.done && s'.running == s.running - 1
      && s'.summary.completed == s.summary.completed + Indicator(OutcomeOf(ev.error) == Succeeded)
      && s'.summary.failed == s.summary.failed + Indicator(OutcomeOf(ev.error) == HasFailed)
      && s'.summary.cancelled == s.summary.cancelled + Indicator(OutcomeOf(ev.error) == WasCancelled)
      && s'.summary.firstError == s'.request == if s.summary.firstError.Some? then s.summary.firstError else ev.error
  {
  }

  /** The summary is the tally of the results and remembers the earliest error. */
  lemma {:induction false} SummaryIsTally(setup: Setup, events: seq<Event>)
    requires Ordinary(setup, events)
    ensures
      var s := Collect(setup, events);
      && !s.done && s.running == setup.scheduled - |events|
      && s.summary.completed == Tally(events, Succeeded)
      && s.summary.failed == Tally(events, HasFailed)
      && s.summary.cancelled == Tally(events, WasCancelled)
      && s.summary.firstError == s.request == EarliestError(events)
  {
    if events != [] {
      var init := events[..|events| - 1];
      SummaryIsTally(setup, init);
      SupervisorInvariant(setup, init);
      OrdinaryStep(setup, Collect(setup, init), events[|events| - 1]);
    }
  }
}
