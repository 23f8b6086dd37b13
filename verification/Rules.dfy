/** Rules, rule sets, and the three evaluation strategies. */
module Rules {
  import opened Types
  import opened Conditions

  datatype Action =
    | Route(port: PortId)
    | Drop
    | DeadLetter(reason: string)
    | Tag(key: string, value: Scalar)
    | Halt(message: string)
  {
    predicate Terminal() {
      !Tag?
    }
  }

  datatype Rule = Rule(id: string, condition: Condition, action: Action, priority: nat, description: string)

  datatype Strategy = FirstMatch | AllMatches | Score

  datatype RuleSet = RuleSet(
    id: string, strategy: Strategy, rules: seq<Rule>, defaultAction: Action, traceConditions: bool)

  datatype RuleError = EmptyRuleSetId | AllMatchesTerminalAction(ruleId: string, action: Action)

  datatype TraceEntry = TraceEntry(ruleId: string, matched: bool, surface: Surface)

  datatype Decision = Decision(
    action: Action, matchedRule: Option<string>, tags: seq<(string, Scalar)>, traces: seq<TraceEntry>)

  /** One packet as the evaluator sees it. */
  datatype Subject = Subject(payload: Payload, context: Context)

  predicate Fires(rule: Rule, x: Subject) {
    Eval(rule.condition, x.payload, x.context)
  }

  predicate Stops(rule: Rule, x: Subject) {
    Fires(rule, x) && rule.action.Terminal()
  }

  // ---- What the strategies mean ---------------------------------------------------

  /** The tags of all matching tag rules, in rule order. */
  function TagsOf(rules: seq<Rule>, x: Subject): seq<(string, Scalar)> {
    if rules == [] then []
    else
      var last := rules[|rules| - 1];
      TagsOf(rules[..|rules| - 1], x)
      + if Fires(last, x) && last.action.Tag? then [(last.action.key, last.action.value)] else []
  }

  function TracesOf(rules: seq<Rule>, x: Subject): seq<TraceEntry> {
    if rules == [] then []
    else
      var last := rules[|rules| - 1];
      TracesOf(rules[..|rules| - 1], x) + [TraceEntry(last.id, Fires(last, x), SurfaceOf(last.condition))]
  }

  /** Position of the first matching rule with a terminal action; the length if there is none. */
  function FirstStop(rules: seq<Rule>, x: Subject): (k: nat)
    ensures k <= |rules|
    ensures k < |rules| ==> Stops(rules[k], x)
  {
    if rules == [] then 0
    else if Stops(rules[0], x) then 0
    else 1 + FirstStop(rules[1..], x)
  }

  function Verdict(rs: RuleSet, k: nat, tags: seq<(string, Scalar)>, seen: seq<Rule>, x: Subject): Decision {
    var traces := if rs.traceConditions then TracesOf(seen, x) else [];
    if k < |rs.rules| then Decision(rs.rules[k].action, Some(rs.rules[k].id), tags, traces)
    else Decision(rs.defaultAction, None, tags, traces)
  }

  function Decide(rs: RuleSet, x: Subject): Decision {
    var k, n := FirstStop(rs.rules, x), |rs.rules|;
    match rs.strategy
    case FirstMatch => Verdict(rs, k, TagsOf(rs.rules[..k], x), rs.rules[..if k < n then k + 1 else n], x)
    case AllMatches => Verdict(rs, n, TagsOf(rs.rules, x), rs.rules, x)
    case Score => Verdict(rs, k, TagsOf(rs.rules, x), rs.rules, x)
  }

  // ---- The evaluation loops -------------------------------------------------------

  lemma {:induction false} NoStopBefore(rules: seq<Rule>, x: Subject, j: nat)
    requires j < FirstStop(rules, x)
    ensures !Stops(rules[j], x)
  {
    if j > 0 {
      NoStopBefore(rules[1..], x, j - 1);
    }
  }

  lemma NoneStopBefore(rules: seq<Rule>, x: Subject)
    ensures forall j | 0 <= j < FirstStop(rules, x) :: !Stops(rules[j], x)
  {
    forall j | 0 <= j < FirstStop(rules, x) ensures !Stops(rules[j], x) {
      NoStopBefore(rules, x, j);
    }
  }

  lemma FirstStopIs(rules: seq<Rule>, x: Subject, k: nat)
    requires k <= |rules| && forall j | 0 <= j < k :: !Stops(rules[j], x)
    requires k < |rules| ==> Stops(rules[k], x)
    ensures FirstStop(rules, x) == k
  {
    NoneStopBefore(rules, x);
  }

  lemma {:induction false} OneMore(rules: seq<Rule>, i: nat, x: Subject)
    requires i < |rules|
    ensures
      var before, rule := rules[..i], rules[i];
      && TracesOf(rules[..i + 1], x)
           == TracesOf(before, x) + [TraceEntry(rule.id, Fires(rule, x), SurfaceOf(rule.condition))]
      && TagsOf(rules[..i + 1], x) == if Fires(rule, x) && rule.action.Tag?
           then TagsOf(before, x) + [(rule.action.key, rule.action.value)] else TagsOf(before, x)
  {
    assert rules[..i + 1][..i] == rules[..i];
  }

  /** The first matching terminal rule. */
  function Best(rules: seq<Rule>, x: Subject): Option<Rule> {
    var k := FirstStop(rules, x);
    if k < |rules| then Some(rules[k]) else None
  }

  lemma BestOfMore(rules: seq<Rule>, i: nat, x: Subject)
    requires i < |rules|
    ensures Best(rules[..i + 1], x) ==
      if Best(rules[..i], x).Some? then Best(rules[..i], x) else if Stops(rules[i], x) then Some(rules[i]) else None
  {
    NoneStopBefore(rules[..i], x);
    FirstStopIs(rules[..i + 1], x,
      if Best(rules[..i], x).Some? then FirstStop(rules[..i], x) else if Stops(rules[i], x) then i else i + 1);
  }

  lemma StopsHere(rules: seq<Rule>, i: nat, x: Subject)
    requires i <= |rules| && Best(rules[..i], x).None? && (i < |rules| ==> Stops(rules[i], x))
    ensures FirstStop(rules, x) == i
  {
    forall j | 0 <= j < i ensures !Stops(rules[j], x) {
      NoStopBefore(rules[..i], x, j);
    }
    FirstStopIs(rules, x, i);
  }

  lemma StopsWith(rs: RuleSet, i: nat, x: Subject)
    requires rs.strategy == FirstMatch && i < |rs.rules| && Best(rs.rules[..i], x).None? && Stops(rs.rules[i], x)
    ensures Decide(rs, x) == Decision(
      rs.rules[i].action, Some(rs.rules[i].id), TagsOf(rs.rules[..i], x),
      if rs.traceConditions then TracesOf(rs.rules[..i + 1], x) else [])
  {
    StopsHere(rs.rules, i, x);
  }

  lemma NothingStops(rs: RuleSet, x: Subject)
    requires rs.strategy == FirstMatch && Best(rs.rules[..|rs.rules|], x).None?
    ensures Decide(rs, x) == Decision(
      rs.defaultAction, None, TagsOf(rs.rules[..|rs.rules|], x),
      if rs.traceConditions then TracesOf(rs.rules[..|rs.rules|], x) else [])
  {
    StopsHere(rs.rules, |rs.rules|, x);
  }

  /** The strategies that stop take the action of the first matching terminal rule. */
  lemma DecidesByBest(rs: RuleSet, x: Subject)
    requires rs.strategy != AllMatches
    ensures
      var d, best := Decide(rs, x), Best(rs.rules, x);
      && d.action == (if best.Some? then best.value.action else rs.defaultAction)
      && d.matchedRule == (if best.Some? then Some(best.value.id) else None)
      && d.tags == TagsOf(if rs.strategy == Score then rs.rules else rs.rules[..FirstStop(rs.rules, x)], x)
  {
  }

  method EvaluateFirstMatch(rs: RuleSet, x: Subject) returns (d: Decision)
    requires rs.strategy == FirstMatch
    ensures d == Decide(rs, x)
  {
    var tags: seq<(string, Scalar)>, traces: seq<TraceEntry> := [], [];
    for i := 0 to |rs.rules|
      invariant Best(rs.rules[..i], x).None?
      invariant tags == TagsOf(rs.rules[..i], x)
      invariant traces == if rs.traceConditions then TracesOf(rs.rules[..i], x) else []
    {
      var rule := rs.rules[i];
      OneMore(rs.rules, i, x);
      BestOfMore(rs.rules, i, x);
      var matched := Eval(rule.condition, x.payload, x.context);
      if rs.traceConditions {
        traces := traces + [TraceEntry(rule.id, matched, SurfaceOf(rule.condition))];
      }
      if matched {
        if rule.action.Tag? {
          tags := tags + [(rule.action.key, rule.action.value)];
        }
        if rule.action.Terminal() {
          StopsWith(rs, i, x);
          return Decision(rule.action, Some(rule.id), tags, traces);
        }
      }
    }
    NothingStops(rs, x);
    d := Decision(rs.defaultAction, None, tags, traces);
  }

  method EvaluateAllMatches(rs: RuleSet, x: Subject) returns (d: Decision)
    requires rs.strategy == AllMatches
    ensures d == Decide(rs, x)
  {
    var tags: seq<(string, Scalar)>, traces: seq<TraceEntry> := [], [];
    for i := 0 to |rs.rules|
      invariant tags == TagsOf(rs.rules[..i], x)
      invariant traces == if rs.traceConditions then TracesOf(rs.rules[..i], x) else []
    {
      var rule := rs.rules[i];
      OneMore(rs.rules, i, x);
      var matched := Eval(rule.condition, x.payload, x.context);
      if rs.traceConditions {
        traces := traces + [TraceEntry(rule.id, matched, SurfaceOf(rule.condition))];
      }
      if matched && rule.action.Tag? {
        tags := tags + [(rule.action.key, rule.action.value)];
      }
    }
    assert rs.rules[..|rs.rules|] == rs.rules;
    d := Decision(rs.defaultAction, None, tags, traces);
  }

  method EvaluateScore(rs: RuleSet, x: Subject) returns (d: Decision)
    requires rs.strategy == Score
    ensures d == Decide(rs, x)
  {
    var tags: seq<(string, Scalar)>, traces: seq<TraceEntry> := [], [];
    var best: Option<Rule> := None;
    for i := 0 to |rs.rules|
      invariant tags == TagsOf(rs.rules[..i], x)
      invariant traces == if rs.traceConditions then TracesOf(rs.rules[..i], x) else []
      invariant best == Best(rs.rules[..i], x)
    {
      var rule := rs.rules[i];
      OneMore(rs.rules, i, x);
      BestOfMore(rs.rules, i, x);
      var matched := Eval(rule.condition, x.payload, x.context);
      if rs.traceConditions {
        traces := traces + [TraceEntry(rule.id, matched, SurfaceOf(rule.condition))];
      }
      if matched {
        if rule.action.Tag? {
          tags := tags + [(rule.action.key, rule.action.value)];
        }
        if best.None? && rule.action.Terminal() {
          best := Some(rule);
        }
      }
    }
    assert rs.rules[..|rs.rules|] == rs.rules;
    if best.None? {
      d := Decision(rs.defaultAction, None, tags, traces);
    } else {
      d := Decision(best.value.action, Some(best.value.id), tags, traces);
    }
  }

  method Evaluate(rs: RuleSet, x: Subject) returns (d: Decision)
    ensures d == Decide(rs, x)
  {
    match rs.strategy
    case FirstMatch => d := EvaluateFirstMatch(rs, x);
    case AllMatches => d := EvaluateAllMatches(rs, x);
    case Score => d := EvaluateScore(rs, x);
  }

  // ---- Traces ---------------------------------------------------------------------

  /** One entry per rule, in order: its id, whether it fired, and the surface of its condition. */
  lemma {:induction false} TracesTell(rules: seq<Rule>, x: Subject, i: nat)
    ensures |TracesOf(rules, x)| == |rules|
    ensures i < |rules| ==>
      TracesOf(rules, x)[i] == TraceEntry(rules[i].id, Fires(rules[i], x), SurfaceOf(rules[i].condition))
  {
    if rules != [] {
      TracesTell(rules[..|rules| - 1], x, i);
    }
  }

  /** A decision traces every rule it looked at, and nothing unless traces are wanted. */
  lemma DecisionTraces(rs: RuleSet, x: Subject)
    ensures
      var stops := rs.strategy == FirstMatch && Best(rs.rules, x).Some?;
      var looked := if stops then FirstStop(rs.rules, x) + 1 else |rs.rules|;
      |Decide(rs, x).traces| == if rs.traceConditions then looked else 0
    ensures rs.traceConditions ==> Decide(rs, x).traces <= TracesOf(rs.rules, x)
  {
    var k := FirstStop(rs.rules, x);
    TracesTell(rs.rules, x, 0);
    if rs.strategy == FirstMatch && k < |rs.rules| {
      TracesTell(rs.rules[..k + 1], x, 0);
      TracesOfPrefix(rs.rules, x, k + 1);
    } else {
      assert rs.rules[..|rs.rules|] == rs.rules;
    }
  }

  lemma {:induction false} TracesOfPrefix(rules: seq<Rule>, x: Subject, k: nat)
    requires k <= |rules|
    ensures TracesOf(rules[..k], x) <= TracesOf(rules, x)
  {
    if k < |rules| {
      TracesOfPrefix(rules[..|rules| - 1], x, k);
      assert rules[..|rules| - 1][..k] == rules[..k];
    } else {
      assert rules[..k] == rules;
    }
  }
}
