/** Unreachable-rule analysis, and exactly when deleting the rules it reports keeps every decision. */
module Unreachable {
  import opened Types
  import opened Conditions
  import opened Rules

  datatype Reason =
    | ConditionIsNever
    | ShadowedByAlways(shadower: string)
    | ExactFieldEqSubsumed(shadower: string)

  datatype Report = Report(ruleId: string, reason: Reason)

  /** The same `FieldEq` test on the same path and value. */
  predicate SameFieldEq(a: Condition, b: Condition) {
    a.FieldEq? && b.FieldEq? && a.path == b.path && ScalarEq(a.value, b.value)
  }

  /** Two tests are the same iff they are equal and not for NaN, which equals nothing. */
  lemma SameFieldEqIff(a: Condition, b: Condition)
    ensures SameFieldEq(a, b) <==> a.FieldEq? && a == b && a.value != SFloat(NaN)
  {
  }

  predicate IsFirstAlways(rules: seq<Rule>, a: nat) {
    a < |rules| && rules[a].condition.Always? && forall j | 0 <= j < a :: !rules[j].condition.Always?
  }

  /** The rule at position `i` is reported for the given reason. */
  ghost predicate Justified(rs: RuleSet, i: nat, reason: Reason)
    requires i < |rs.rules|
  {
    match reason
    case ConditionIsNever => rs.rules[i].condition.Never?
    case ShadowedByAlways(id) =>
      && rs.strategy == FirstMatch && !rs.rules[i].condition.Never?
      && exists a | 0 <= a < i :: IsFirstAlways(rs.rules, a) && rs.rules[a].id == id
    case ExactFieldEqSubsumed(id) =>
      && rs.strategy == FirstMatch
      && exists a | 0 <= a < i :: SameFieldEq(rs.rules[a].condition, rs.rules[i].condition) && rs.rules[a].id == id
  }

  /** The rule at position `i` is caught by one of the three checks. */
  ghost predicate Caught(rs: RuleSet, i: nat)
    requires i < |rs.rules|
  {
    exists reason :: Justified(rs, i, reason)
  }

  ghost predicate Genuine(rs: RuleSet, u: Report) {
    exists i | 0 <= i < |rs.rules| :: rs.rules[i].id == u.ruleId && Justified(rs, i, u.reason)
  }

  predicate Reported(us: seq<Report>, id: string) {
    exists k | 0 <= k < |us| :: us[k].ruleId == id
  }

  ghost predicate AllGenuine(rs: RuleSet, us: seq<Report>) {
    forall k | 0 <= k < |us| :: Genuine(rs, us[k])
  }

  method DetectNever(rs: RuleSet) returns (us: seq<Report>)
    ensures AllGenuine(rs, us)
    ensures forall i | 0 <= i < |rs.rules| && rs.rules[i].condition.Never? :: Reported(us, rs.rules[i].id)
  {
    us := [];
    for i := 0 to |rs.rules|
      invariant AllGenuine(rs, us)
      invariant forall j | 0 <= j < i && rs.rules[j].condition.Never? :: Reported(us, rs.rules[j].id)
    {
      if rs.rules[i].condition.Never? {
        var u := Report(rs.rules[i].id, ConditionIsNever);
        assert Justified(rs, i, u.reason);
        AppendReport(us, u);
        us := us + [u];
      }
    }
  }

  lemma AppendReport(us: seq<Report>, u: Report)
    ensures forall id :: Reported(us + [u], id) <==> Reported(us, id) || id == u.ruleId
  {
    forall id ensures Reported(us + [u], id) <==> Reported(us, id) || id == u.ruleId {
      if Reported(us, id) {
        var k :| 0 <= k < |us| && us[k].ruleId == id;
        assert (us + [u])[k].ruleId == id;
      }
      assert (us + [u])[|us|] == u;
    }
  }

  method DetectShadowed(rs: RuleSet, found: seq<Report>) returns (us: seq<Report>)
    requires rs.strategy == FirstMatch && AllGenuine(rs, found)
    ensures AllGenuine(rs, us)
    ensures forall id | Reported(found, id) :: Reported(us, id)
    ensures forall a, i | 0 <= a < i < |rs.rules| && rs.rules[a].condition.Always? && !rs.rules[i].condition.Never? ::
      Reported(us, rs.rules[i].id)
  {
    us := found;
    var always: Option<nat> := None;
    for i := 0 to |rs.rules|
      invariant AllGenuine(rs, us)
      invariant forall id | Reported(found, id) :: Reported(us, id)
      invariant always.None? ==> forall j | 0 <= j < i :: !rs.rules[j].condition.Always?
      invariant always.Some? ==> always.value < i && IsFirstAlways(rs.rules, always.value)
      invariant always.Some? ==>
          forall j | always.value < j < i && !rs.rules[j].condition.Never? :: Reported(us, rs.rules[j].id)
    {
      var rule := rs.rules[i];
      if always.Some? && !rule.condition.Never? {
        var u := Report(rule.id, ShadowedByAlways(rs.rules[always.value].id));
        assert Justified(rs, i, u.reason);
        AppendReport(us, u);
        us := us + [u];
      }
      if rule.condition.Always? && always.None? {
        always := Some(i);
      }
    }
  }

  method DetectSubsumedBy(rs: RuleSet, i: nat, found: seq<Report>) returns (us: seq<Report>)
    requires rs.strategy == FirstMatch && AllGenuine(rs, found) && i < |rs.rules|
    ensures AllGenuine(rs, us)
    ensures forall id | Reported(found, id) :: Reported(us, id)
    ensures forall j | i < j < |rs.rules| && SameFieldEq(rs.rules[i].condition, rs.rules[j].condition) ::
      Reported(us, rs.rules[j].id)
  {
    us := found;
    for j := i + 1 to |rs.rules|
      invariant AllGenuine(rs, us)
      invariant forall id | Reported(found, id) :: Reported(us, id)
      invariant forall k | i < k < j && SameFieldEq(rs.rules[i].condition, rs.rules[k].condition) ::
          Reported(us, rs.rules[k].id)
    {
      if SameFieldEq(rs.rules[i].condition, rs.rules[j].condition) && !Reported(us, rs.rules[j].id) {
        var u := Report(rs.rules[j].id, ExactFieldEqSubsumed(rs.rules[i].id));
        assert Justified(rs, j, u.reason);
        AppendReport(us, u);
        us := us + [u];
      }
    }
  }

  method DetectSubsumed(rs: RuleSet, found: seq<Report>) returns (us: seq<Report>)
    requires rs.strategy == FirstMatch && AllGenuine(rs, found)
    ensures AllGenuine(rs, us)
    ensures forall id | Reported(found, id) :: Reported(us, id)
    ensures forall a, j | 0 <= a < j < |rs.rules| && SameFieldEq(rs.rules[a].condition, rs.rules[j].condition) ::
      Reported(us, rs.rules[j].id)
  {
    us := found;
    for i := 0 to |rs.rules|
      invariant AllGenuine(rs, us)
      invariant forall id | Reported(found, id) :: Reported(us, id)
      invariant forall a, j
          | 0 <= a < i && a < j < |rs.rules| && SameFieldEq(rs.rules[a].condition, rs.rules[j].condition) ::
          Reported(us, rs.rules[j].id)
    {
      us := DetectSubsumedBy(rs, i, us);
    }
  }

  /** The ids of all rules caught. */
  ghost function CaughtIds(rs: RuleSet): set<string> {
    set i | 0 <= i < |rs.rules| && Caught(rs, i) :: rs.rules[i].id
  }

  /** `detect_unreachable`: reports exactly the ids of the rules caught, each for a reason that holds. */
  method DetectUnreachable(rs: RuleSet) returns (us: seq<Report>)
    ensures AllGenuine(rs, us)
    ensures forall id :: Reported(us, id) <==> id in CaughtIds(rs)
  {
    us := DetectNever(rs);
    if rs.strategy == FirstMatch {
      us := DetectShadowed(rs, us);
      us := DetectSubsumed(rs, us);
    }
    forall i | 0 <= i < |rs.rules| && Caught(rs, i) ensures Reported(us, rs.rules[i].id) {
      var reason :| Justified(rs, i, reason);
    }
    forall id | Reported(us, id) ensures id in CaughtIds(rs) {
      var k :| 0 <= k < |us| && us[k].ruleId == id;
      assert Genuine(rs, us[k]);
    }
  }

  // ---- Deleting rules by id -------------------------------------------------------

  function Without(rules: seq<Rule>, dead: set<string>): seq<Rule> {
    if rules == [] then []
    else
      var before, last := Without(rules[..|rules| - 1], dead), rules[|rules| - 1];
      if last.id in dead then before else before + [last]
  }

  predicate SameOutcome(a: Decision, b: Decision) {
    a.action == b.action && a.matchedRule == b.matchedRule && a.tags == b.tags
  }

  /** The rule at `i` contributes to the decision on `x`: its tag is applied or its action is taken. */
  predicate Contributes(rs: RuleSet, i: nat, x: Subject)
    requires i < |rs.rules|
  {
    var k := FirstStop(rs.rules, x);
    Fires(rs.rules[i], x) &&
    match rs.strategy
    case FirstMatch => i <= k
    case AllMatches => rs.rules[i].action.Tag?
    case Score => rs.rules[i].action.Tag? || i == k
  }

  lemma {:induction false} WithoutConcat(a: seq<Rule>, b: seq<Rule>, dead: set<string>)
    ensures Without(a + b, dead) == Without(a, dead) + Without(b, dead)
  {
    if b == [] {
      assert a + b == a;
    } else {
      WithoutConcat(a, b[..|b| - 1], dead);
      assert (a + b)[..|a + b| - 1] == a + b[..|b| - 1];
    }
  }

  lemma WithoutAround(rules: seq<Rule>, k: nat, dead: set<string>)
    requires k < |rules| && rules[k].id !in dead
    ensures Without(rules, dead) == Without(rules[..k], dead) + ([rules[k]] + Without(rules[k + 1..], dead))
  {
    assert rules == rules[..k + 1] + rules[k + 1..];
    assert rules[..k + 1][..k] == rules[..k];
    WithoutConcat(rules[..k + 1], rules[k + 1..], dead);
  }

  lemma {:induction false} WithoutKeeps(rules: seq<Rule>, dead: set<string>)
    ensures forall r | r in Without(rules, dead) :: r in rules && r.id !in dead
  {
    if rules != [] {
      WithoutKeeps(rules[..|rules| - 1], dead);
    }
  }

  predicate DeadTagFires(rules: seq<Rule>, dead: set<string>, x: Subject) {
    exists i | 0 <= i < |rules| :: rules[i].id in dead && rules[i].action.Tag? && Fires(rules[i], x)
  }

  /** Deletion loses tags exactly when a deleted tag rule fires. */
  lemma {:induction false} TagsAfterDeletion(rules: seq<Rule>, dead: set<string>, x: Subject)
    ensures |TagsOf(Without(rules, dead), x)| <= |TagsOf(rules, x)|
    ensures !DeadTagFires(rules, dead, x) ==> TagsOf(Without(rules, dead), x) == TagsOf(rules, x)
    ensures DeadTagFires(rules, dead, x) ==> |TagsOf(Without(rules, dead), x)| < |TagsOf(rules, x)|
  {
    if rules != [] {
      var init, last := rules[..|rules| - 1], rules[|rules| - 1];
      TagsAfterDeletion(init, dead, x);
      DeadTagSnoc(rules, dead, x);
      var kept := Without(init, dead);
      if last.id !in dead {
        assert (kept + [last])[..|kept|] == kept;
      }
    }
  }

  lemma DeadTagSnoc(rules: seq<Rule>, dead: set<string>, x: Subject)
    requires rules != []
    ensures
      var init, last := rules[..|rules| - 1], rules[|rules| - 1];
      DeadTagFires(rules, dead, x) <==>
        DeadTagFires(init, dead, x) || (last.id in dead && last.action.Tag? && Fires(last, x))
  {
    var init := rules[..|rules| - 1];
    if DeadTagFires(init, dead, x) {
      var i :| 0 <= i < |init| && init[i].id in dead && init[i].action.Tag? && Fires(init[i], x);
      assert rules[i] == init[i];
    }
    if DeadTagFires(rules, dead, x) {
      var i :| 0 <= i < |rules| && rules[i].id in dead && rules[i].action.Tag? && Fires(rules[i], x);
      assert i < |init| ==> rules[i] == init[i];
    }
  }

  lemma StopAfter(a: seq<Rule>, b: seq<Rule>, x: Subject)
    requires FirstStop(a, x) == |a|
    ensures FirstStop(a + b, x) == |a| + FirstStop(b, x)
  {
    var k := FirstStop(b, x);
    NoneStopBefore(a, x);
    NoneStopBefore(b, x);
    forall j | 0 <= j < |a| + k ensures !Stops((a + b)[j], x) {
      assert j >= |a| ==> (a + b)[j] == b[j - |a|];
    }
    FirstStopIs(a + b, x, |a| + k);
  }

  lemma NoStopAfterDeletion(a: seq<Rule>, dead: set<string>, x: Subject)
    requires FirstStop(a, x) == |a|
    ensures FirstStop(Without(a, dead), x) == |Without(a, dead)|
  {
    WithoutKeeps(a, dead);
    NoneStopBefore(a, x);
    var w := Without(a, dead);
    forall j | 0 <= j < |w| ensures !Stops(w[j], x) {
      assert w[j] in a;
    }
    FirstStopIs(w, x, |w|);
  }

  /** When the stopping rule, if any, survives, deletion stops at the same rule over the same prefix. */
  lemma StopSurvives(rules: seq<Rule>, dead: set<string>, x: Subject)
    requires var k := FirstStop(rules, x); k < |rules| ==> rules[k].id !in dead
    ensures
      var k, w := FirstStop(rules, x), Without(rules, dead);
      var k' := FirstStop(w, x);
      && w[..k'] == Without(rules[..k], dead)
      && (k == |rules| <==> k' == |w|)
      && (k < |rules| ==> w[k'] == rules[k])
  {
    var k := FirstStop(rules, x);
    var a := rules[..k];
    NoneStopBefore(rules, x);
    FirstStopIs(a, x, k);
    NoStopAfterDeletion(a, dead, x);
    var wa := Without(a, dead);
    if k < |rules| {
      WithoutAround(rules, k, dead);
      var wb := [rules[k]] + Without(rules[k + 1..], dead);
      StopAfter(wa, wb, x);
      FirstStopIs(wb, x, 0);
    } else {
      assert a == rules;
    }
  }

  /** The rule that stops a pruned set is never one of the deleted rules. */
  lemma StopIsAlive(rules: seq<Rule>, dead: set<string>, x: Subject)
    ensures var w := Without(rules, dead); FirstStop(w, x) < |w| ==> w[FirstStop(w, x)].id !in dead
  {
    WithoutKeeps(rules, dead);
    var w := Without(rules, dead);
    if FirstStop(w, x) < |w| {
      assert w[FirstStop(w, x)] in w;
    }
  }

  function Prune(rs: RuleSet, dead: set<string>): RuleSet {
    rs.(rules := Without(rs.rules, dead))
  }

  predicate Harmless(rs: RuleSet, dead: set<string>, x: Subject) {
    forall i | 0 <= i < |rs.rules| && rs.rules[i].id in dead :: !Contributes(rs, i, x)
  }

  lemma PruneTagsOnly(rs: RuleSet, dead: set<string>, x: Subject)
    requires rs.strategy == AllMatches
    ensures SameOutcome(Decide(Prune(rs, dead), x), Decide(rs, x)) <==> Harmless(rs, dead, x)
  {
    TagsAfterDeletion(rs.rules, dead, x);
    TagContributors(rs, dead, x);
  }

  lemma TagContributors(rs: RuleSet, dead: set<string>, x: Subject)
    requires rs.strategy == AllMatches
    ensures DeadTagFires(rs.rules, dead, x) <==> !Harmless(rs, dead, x)
  {
    if DeadTagFires(rs.rules, dead, x) {
      var i :| 0 <= i < |rs.rules| && rs.rules[i].id in dead && rs.rules[i].action.Tag? && Fires(rs.rules[i], x);
      assert Contributes(rs, i, x);
    }
    if !Harmless(rs, dead, x) {
      var i :| 0 <= i < |rs.rules| && rs.rules[i].id in dead && Contributes(rs, i, x);
      assert rs.rules[i].action.Tag?;
    }
  }

  lemma PruneLosesStop(rs: RuleSet, dead: set<string>, x: Subject)
    requires rs.strategy != AllMatches
    requires var k := FirstStop(rs.rules, x); k < |rs.rules| && rs.rules[k].id in dead
    ensures !SameOutcome(Decide(Prune(rs, dead), x), Decide(rs, x)) && !Harmless(rs, dead, x)
  {
    StopIsAlive(rs.rules, dead, x);
    assert Contributes(rs, FirstStop(rs.rules, x), x);
  }

  /** The rule that stops evaluation, if any, is not deleted. */
  predicate StopIsKept(rs: RuleSet, dead: set<string>, x: Subject) {
    var k := FirstStop(rs.rules, x);
    k < |rs.rules| ==> rs.rules[k].id !in dead
  }

  lemma PruneFirstMatch(rs: RuleSet, dead: set<string>, x: Subject)
    requires rs.strategy == FirstMatch && StopIsKept(rs, dead, x)
    ensures SameOutcome(Decide(Prune(rs, dead), x), Decide(rs, x)) <==> Harmless(rs, dead, x)
  {
    var before := rs.rules[..FirstStop(rs.rules, x)];
    FirstMatchVerdict(rs, dead, x);
    TagsAfterDeletion(before, dead, x);
    DeadTagBeforeStop(rs, dead, x);
  }

  lemma PruneScore(rs: RuleSet, dead: set<string>, x: Subject)
    requires rs.strategy == Score && StopIsKept(rs, dead, x)
    ensures SameOutcome(Decide(Prune(rs, dead), x), Decide(rs, x)) <==> Harmless(rs, dead, x)
  {
    ScoreVerdict(rs, dead, x);
    TagsAfterDeletion(rs.rules, dead, x);
    DeadTagAnywhere(rs, dead, x);
  }

  /** With its stopping rule kept, a pruned set decides alike but for the tags, which are those of what is left. */
  lemma FirstMatchVerdict(rs: RuleSet, dead: set<string>, x: Subject)
    requires rs.strategy == FirstMatch && StopIsKept(rs, dead, x)
    ensures
      var d, d', before := Decide(rs, x), Decide(Prune(rs, dead), x), rs.rules[..FirstStop(rs.rules, x)];
      && d.action == d'.action && d.matchedRule == d'.matchedRule
      && d.tags == TagsOf(before, x) && d'.tags == TagsOf(Without(before, dead), x)
  {
    BestSurvives(rs.rules, dead, x);
    DecidesByBest(rs, x);
    DecidesByBest(Prune(rs, dead), x);
  }

  lemma ScoreVerdict(rs: RuleSet, dead: set<string>, x: Subject)
    requires rs.strategy == Score && StopIsKept(rs, dead, x)
    ensures
      var d, d' := Decide(rs, x), Decide(Prune(rs, dead), x);
      && d.action == d'.action && d.matchedRule == d'.matchedRule
      && d.tags == TagsOf(rs.rules, x) && d'.tags == TagsOf(Without(rs.rules, dead), x)
  {
    BestSurvives(rs.rules, dead, x);
    DecidesByBest(rs, x);
    DecidesByBest(Prune(rs, dead), x);
  }

  lemma BestSurvives(rules: seq<Rule>, dead: set<string>, x: Subject)
    requires Best(rules, x).Some? ==> Best(rules, x).value.id !in dead
    ensures Best(Without(rules, dead), x) == Best(rules, x)
    ensures Without(rules, dead)[..FirstStop(Without(rules, dead), x)]
         == Without(rules[..FirstStop(rules, x)], dead)
  {
    StopSurvives(rules, dead, x);
  }

  /** Deleting rules keeps the outcome on a packet exactly when no deleted rule contributes to it. */
  lemma PruneIsExact(rs: RuleSet, dead: set<string>, x: Subject)
    ensures SameOutcome(Decide(Prune(rs, dead), x), Decide(rs, x)) <==> Harmless(rs, dead, x)
  {
    var k := FirstStop(rs.rules, x);
    if rs.strategy == AllMatches {
      PruneTagsOnly(rs, dead, x);
    } else if k < |rs.rules| && rs.rules[k].id in dead {
      PruneLosesStop(rs, dead, x);
    } else if rs.strategy == FirstMatch {
      PruneFirstMatch(rs, dead, x);
    } else {
      PruneScore(rs, dead, x);
    }
  }

  lemma DeadTagBeforeStop(rs: RuleSet, dead: set<string>, x: Subject)
    requires rs.strategy == FirstMatch && StopIsKept(rs, dead, x)
    ensures DeadTagFires(rs.rules[..FirstStop(rs.rules, x)], dead, x) <==> !Harmless(rs, dead, x)
  {
    var k := FirstStop(rs.rules, x);
    var a := rs.rules[..k];
    if DeadTagFires(a, dead, x) {
      var i :| 0 <= i < |a| && a[i].id in dead && a[i].action.Tag? && Fires(a[i], x);
      assert Contributes(rs, i, x);
    }
    if !Harmless(rs, dead, x) {
      var i :| 0 <= i < |rs.rules| && rs.rules[i].id in dead && Contributes(rs, i, x);
      assert i < k;
      NoStopBefore(rs.rules, x, i);
      assert a[i] == rs.rules[i] && a[i].action.Tag?;
    }
  }

  lemma DeadTagAnywhere(rs: RuleSet, dead: set<string>, x: Subject)
    requires rs.strategy == Score && StopIsKept(rs, dead, x)
    ensures DeadTagFires(rs.rules, dead, x) <==> !Harmless(rs, dead, x)
  {
    if DeadTagFires(rs.rules, dead, x) {
      var i :| 0 <= i < |rs.rules| && rs.rules[i].id in dead && rs.rules[i].action.Tag? && Fires(rs.rules[i], x);
      assert Contributes(rs, i, x);
    }
    if !Harmless(rs, dead, x) {
      var i :| 0 <= i < |rs.rules| && rs.rules[i].id in dead && Contributes(rs, i, x);
      assert rs.rules[i].action.Tag?;
    }
  }

  // ---- Deleting the reported rules ------------------------------------------------

  predicate DistinctIds(rules: seq<Rule>) {
    forall i, j | 0 <= i < j < |rules| :: rules[i].id != rules[j].id
  }

  predicate Covers(a: Rule, b: Rule) {
    a.action.Terminal() && (a.condition.Always? || SameFieldEq(a.condition, b.condition))
  }

  /** Every rule caught other than a `Never` rule has an earlier terminal rule that covers it. */
  ghost predicate StoppingShadows(rs: RuleSet) {
    forall i | 0 <= i < |rs.rules| && Caught(rs, i) && !rs.rules[i].condition.Never? ::
      exists a | 0 <= a < i :: Covers(rs.rules[a], rs.rules[i])
  }

  lemma CoveredIsSilent(rs: RuleSet, a: nat, i: nat, x: Subject)
    requires rs.strategy == FirstMatch && a < i < |rs.rules| && Covers(rs.rules[a], rs.rules[i])
    ensures !Contributes(rs, i, x)
  {
    NoneStopBefore(rs.rules, x);
    if Fires(rs.rules[i], x) {
      assert Stops(rs.rules[a], x);
    }
  }

  lemma CaughtById(rs: RuleSet, i: nat)
    requires DistinctIds(rs.rules) && i < |rs.rules| && rs.rules[i].id in CaughtIds(rs)
    ensures Caught(rs, i)
  {
    var j :| 0 <= j < |rs.rules| && Caught(rs, j) && rs.rules[j].id == rs.rules[i].id;
    assert i == j;
  }

  lemma CaughtAreHarmless(rs: RuleSet, x: Subject)
    requires DistinctIds(rs.rules) && StoppingShadows(rs)
    ensures Harmless(rs, CaughtIds(rs), x)
  {
    forall i | 0 <= i < |rs.rules| && rs.rules[i].id in CaughtIds(rs) ensures !Contributes(rs, i, x) {
      CaughtById(rs, i);
      if !rs.rules[i].condition.Never? {
        var a :| 0 <= a < i && Covers(rs.rules[a], rs.rules[i]);
        CoveredIsSilent(rs, a, i, x);
      }
    }
  }

  /** With distinct ids and stopping shadows, deleting every reported rule changes no decision. */
  lemma DeadRuleElimination(rs: RuleSet, x: Subject)
    requires DistinctIds(rs.rules) && StoppingShadows(rs)
    ensures SameOutcome(Decide(Prune(rs, CaughtIds(rs)), x), Decide(rs, x))
  {
    CaughtAreHarmless(rs, x);
    PruneIsExact(rs, CaughtIds(rs), x);
  }
}
