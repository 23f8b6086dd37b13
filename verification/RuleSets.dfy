/** Building rule sets: validation, the stable priority sort, and what the sort means for decisions. */
module RuleSets {
  import opened Types
  import opened Rules
  import opened Identifiers

  // ---- The stable sort ------------------------------------------------------------

  /** Input position `i` is evaluated before `j`: by priority, then by original position. */
  predicate Before(rules: seq<Rule>, i: nat, j: nat)
    requires i < |rules| && j < |rules|
  {
    rules[i].priority < rules[j].priority || (rules[i].priority == rules[j].priority && i < j)
  }

  predicate Positions(order: seq<nat>, n: nat) {
    forall a | 0 <= a < |order| :: order[a] < n
  }

  function Insert(rules: seq<Rule>, order: seq<nat>, n: nat): (r: seq<nat>)
    requires n < |rules| && Positions(order, |rules|)
    ensures Positions(r, |rules|)
    decreases |order|
  {
    if order == [] then [n]
    else
      var init, last := order[..|order| - 1], order[|order| - 1];
      if rules[last].priority <= rules[n].priority then order + [n] else Insert(rules, init, n) + [last]
  }

  /** The positions of the first `k` rules in evaluation order. */
  function SortedPositions(rules: seq<Rule>, k: nat): (r: seq<nat>)
    requires k <= |rules|
    ensures Positions(r, |rules|)
  {
    if k == 0 then [] else Insert(rules, SortedPositions(rules, k - 1), k - 1)
  }

  function At(rules: seq<Rule>, order: seq<nat>): (r: seq<Rule>)
    requires Positions(order, |rules|)
    ensures |r| == |order|
  {
    seq(|order|, a requires 0 <= a < |order| => rules[order[a]])
  }

  function StableSort(rules: seq<Rule>): seq<Rule> {
    At(rules, SortedPositions(rules, |rules|))
  }

  ghost predicate InOrder(rules: seq<Rule>, order: seq<nat>)
    requires Positions(order, |rules|)
  {
    forall a, b | 0 <= a < b < |order| :: Before(rules, order[a], order[b])
  }

  lemma {:induction false} InsertAdds(rules: seq<Rule>, order: seq<nat>, n: nat)
    requires n < |rules| && Positions(order, |rules|)
    ensures forall i :: i in Insert(rules, order, n) <==> i == n || i in order
    decreases |order|
  {
    if order != [] {
      InsertAdds(rules, order[..|order| - 1], n);
      assert order == order[..|order| - 1] + [order[|order| - 1]];
    }
  }

  lemma {:induction false} InsertKeepsOrder(rules: seq<Rule>, order: seq<nat>, n: nat)
    requires n < |rules| && Positions(order, n) && InOrder(rules, order)
    ensures InOrder(rules, Insert(rules, order, n))
    decreases |order|
  {
    if order != [] {
      var init, last := order[..|order| - 1], order[|order| - 1];
      if rules[last].priority <= rules[n].priority {
        forall a | 0 <= a < |order| ensures Before(rules, order[a], n) {
          assert a < |order| - 1 ==> Before(rules, order[a], last);
        }
      } else {
        InsertKeepsOrder(rules, init, n);
        InsertAdds(rules, init, n);
        var r := Insert(rules, init, n);
        forall a | 0 <= a < |r| ensures Before(rules, r[a], last) {
          assert r[a] in r;
          if r[a] != n {
            var b :| 0 <= b < |init| && init[b] == r[a];
            assert Before(rules, order[b], order[|order| - 1]);
          }
        }
      }
    }
  }

  lemma {:induction false} InsertPermutes(rules: seq<Rule>, order: seq<nat>, n: nat)
    requires n < |rules| && Positions(order, |rules|)
    ensures multiset(At(rules, Insert(rules, order, n))) == multiset(At(rules, order)) + multiset{rules[n]}
    decreases |order|
  {
    var r := Insert(rules, order, n);
    if order == [] {
      assert At(rules, r) == [rules[n]];
    } else {
      var init, last := order[..|order| - 1], order[|order| - 1];
      assert At(rules, order) == At(rules, init) + [rules[last]];
      if rules[last].priority <= rules[n].priority {
        assert At(rules, r) == At(rules, order) + [rules[n]];
      } else {
        InsertPermutes(rules, init, n);
        assert At(rules, r) == At(rules, Insert(rules, init, n)) + [rules[last]];
      }
    }
  }

  /** The sort lists every position once, by priority, keeping the input order of equal priorities. */
  lemma {:induction false} SortIsStable(rules: seq<Rule>, k: nat)
    requires k <= |rules|
    ensures InOrder(rules, SortedPositions(rules, k))
    ensures forall i :: i in SortedPositions(rules, k) <==> 0 <= i < k
  {
    if k > 0 {
      SortIsStable(rules, k - 1);
      var before := SortedPositions(rules, k - 1);
      forall a | 0 <= a < |before| ensures before[a] < k - 1 {
        assert before[a] in before;
      }
      InsertAdds(rules, before, k - 1);
      InsertKeepsOrder(rules, before, k - 1);
    }
  }

  lemma PrefixGrows(rules: seq<Rule>, k: nat)
    requires 0 < k <= |rules|
    ensures multiset(rules[..k]) == multiset(rules[..k - 1]) + multiset{rules[k - 1]}
  {
    assert rules[..k] == rules[..k - 1] + [rules[k - 1]];
  }

  lemma {:induction false} SortPermutes(rules: seq<Rule>, k: nat)
    requires k <= |rules|
    ensures multiset(At(rules, SortedPositions(rules, k))) == multiset(rules[..k])
  {
    if k > 0 {
      SortPermutes(rules, k - 1);
      var before := SortedPositions(rules, k - 1);
      InsertPermutes(rules, before, k - 1);
      PrefixGrows(rules, k);
      assert SortedPositions(rules, k) == Insert(rules, before, k - 1);
    }
  }

  /** `RuleSet::new`. */
  method NewRuleSet(id: string, strategy: Strategy, rules: seq<Rule>, defaultAction: Action, trace: bool)
    returns (r: Result<RuleSet, RuleError>)
    ensures r.Ok? <==> !Blank(id) && (strategy == AllMatches ==> forall i | 0 <= i < |rules| :: rules[i].action.Tag?)
    ensures r.Ok? ==> r.value == RuleSet(id, strategy, StableSort(rules), defaultAction, trace)
    ensures r.Err? && Blank(id) ==> r.error == EmptyRuleSetId
    ensures r.Err? && !Blank(id) ==> exists i | 0 <= i < |rules| ::
      && r.error == AllMatchesTerminalAction(rules[i].id, rules[i].action) && rules[i].action.Terminal()
      && forall j | 0 <= j < i :: rules[j].action.Tag?
  {
    if Blank(id) {
      return Err(EmptyRuleSetId);
    }
    if strategy == AllMatches {
      for i := 0 to |rules|
        invariant forall j | 0 <= j < i :: rules[j].action.Tag?
      {
        if rules[i].action.Terminal() {
          return Err(AllMatchesTerminalAction(rules[i].id, rules[i].action));
        }
      }
    }
    r := Ok(RuleSet(id, strategy, StableSort(rules), defaultAction, trace));
  }

  // ---- Decisions against the unsorted input ---------------------------------------

  /** Input position `i` holds the matching terminal rule of least (priority, position). */
  ghost predicate LeastStop(rules: seq<Rule>, x: Subject, i: nat) {
    && i < |rules| && Stops(rules[i], x)
    && forall j | 0 <= j < |rules| && j != i && Stops(rules[j], x) :: Before(rules, i, j)
  }

  /** Evaluation of the sorted rules stops at that rule, and nowhere exactly when no rule stops. */
  lemma SortedStopIsLeast(rules: seq<Rule>, x: Subject) returns (i: nat)
    ensures
      var sorted := StableSort(rules);
      var k := FirstStop(sorted, x);
      && |sorted| == |rules|
      && (k == |rules| <==> forall j | 0 <= j < |rules| :: !Stops(rules[j], x))
      && (k < |rules| ==> LeastStop(rules, x, i) && sorted[k] == rules[i])
  {
    var order, sorted := SortedPositions(rules, |rules|), StableSort(rules);
    SortIsStable(rules, |rules|);
    SortPermutes(rules, |rules|);
    assert rules[..|rules|] == rules;
    assert |sorted| == |multiset(sorted)| && |rules| == |multiset(rules)|;
    var k := FirstStop(sorted, x);
    NoneStopBefore(sorted, x);
    i := 0;
    if k < |sorted| {
      i := order[k];
      assert sorted[k] == rules[i];
      forall j | 0 <= j < |rules| && j != i && Stops(rules[j], x) ensures Before(rules, i, j) {
        assert j in order;
        var b :| 0 <= b < |order| && order[b] == j;
        assert sorted[b] == rules[j];
      }
    } else {
      forall j | 0 <= j < |rules| ensures !Stops(rules[j], x) {
        assert j in order;
        var b :| 0 <= b < |order| && order[b] == j;
        assert sorted[b] == rules[j];
      }
    }
  }

  /**
   Over rules in any order, FirstMatch and Score decide on the matching terminal rule of least (priority,
   position), and on the default exactly when no rule stops.
   */
  lemma FirstMatchPicksLeast(rs: RuleSet, rules: seq<Rule>, x: Subject)
    requires rs.rules == StableSort(rules) && rs.strategy != AllMatches
    ensures
      var d := Decide(rs, x);
      && (d.matchedRule.None? <==> forall j | 0 <= j < |rules| :: !Stops(rules[j], x))
      && (d.matchedRule.None? ==> d.action == rs.defaultAction)
      && (d.matchedRule.Some? ==> exists i: nat ::
            LeastStop(rules, x, i) && d.action == rules[i].action && d.matchedRule.value == rules[i].id)
  {
    var i := SortedStopIsLeast(rules, x);
    if FirstStop(rs.rules, x) < |rules| {
      assert LeastStop(rules, x, i);
    }
  }

  predicate DistinctPriorities(rules: seq<Rule>) {
    forall i, j | 0 <= i < j < |rules| :: rules[i].priority != rules[j].priority
  }

  predicate Rising(rules: seq<Rule>) {
    forall i, j | 0 <= i < j < |rules| :: rules[i].priority < rules[j].priority
  }

  lemma DropLast(s: seq<Rule>)
    requires s != []
    ensures multiset(s[..|s| - 1]) == multiset(s) - multiset{s[|s| - 1]}
    ensures s == s[..|s| - 1] + [s[|s| - 1]]
  {
    assert s == s[..|s| - 1] + [s[|s| - 1]];
  }

  lemma LastIsGreatest(s: seq<Rule>, r: Rule)
    requires Rising(s) && r in multiset(s)
    ensures r.priority <= s[|s| - 1].priority
    ensures r.priority == s[|s| - 1].priority ==> r == s[|s| - 1]
  {
    var i :| 0 <= i < |s| && s[i] == r;
  }

  lemma SameLast(s: seq<Rule>, t: seq<Rule>)
    requires Rising(s) && Rising(t) && multiset(s) == multiset(t) && s != [] && t != []
    ensures s[|s| - 1] == t[|t| - 1]
  {
    assert s[|s| - 1] in multiset(s) && t[|t| - 1] in multiset(t);
    LastIsGreatest(t, s[|s| - 1]);
    LastIsGreatest(s, t[|t| - 1]);
  }

  lemma {:induction false} RisingIsUnique(s: seq<Rule>, t: seq<Rule>)
    requires Rising(s) && Rising(t) && multiset(s) == multiset(t)
    ensures s == t
  {
    assert |s| == |multiset(s)| && |t| == |multiset(t)|;
    if s != [] {
      SameLast(s, t);
      DropLast(s);
      DropLast(t);
      RisingIsUnique(s[..|s| - 1], t[..|t| - 1]);
    }
  }

  lemma SortedRises(rules: seq<Rule>)
    requires DistinctPriorities(rules)
    ensures Rising(StableSort(rules)) && multiset(StableSort(rules)) == multiset(rules)
  {
    var order := SortedPositions(rules, |rules|);
    SortIsStable(rules, |rules|);
    SortPermutes(rules, |rules|);
    assert rules[..|rules|] == rules;
    forall a, b | 0 <= a < b < |order| ensures rules[order[a]].priority < rules[order[b]].priority {
      assert Before(rules, order[a], order[b]);
    }
  }

  /** With distinct priorities a decision does not depend on the order the rules were given in. */
  lemma OrderIndependent(rs: RuleSet, a: seq<Rule>, b: seq<Rule>, x: Subject)
    requires DistinctPriorities(a) && DistinctPriorities(b) && multiset(a) == multiset(b)
    ensures Decide(rs.(rules := StableSort(a)), x) == Decide(rs.(rules := StableSort(b)), x)
  {
    SortedRises(a);
    SortedRises(b);
    RisingIsUnique(StableSort(a), StableSort(b));
  }

  // ---- Strategies compared --------------------------------------------------------

  lemma {:induction false} TagsConcat(a: seq<Rule>, b: seq<Rule>, x: Subject)
    ensures TagsOf(a + b, x) == TagsOf(a, x) + TagsOf(b, x)
  {
    if b == [] {
      assert a + b == a;
    } else {
      TagsConcat(a, b[..|b| - 1], x);
      assert (a + b)[..|a + b| - 1] == a + b[..|b| - 1];
    }
  }

  /** FirstMatch and Score choose the same action and rule; FirstMatch's tags are a prefix of Score's. */
  lemma FirstMatchAgreesWithScore(rs: RuleSet, x: Subject)
    ensures
      var f, s := Decide(rs.(strategy := FirstMatch), x), Decide(rs.(strategy := Score), x);
      f.action == s.action && f.matchedRule == s.matchedRule && f.tags <= s.tags
  {
    var k := FirstStop(rs.rules, x);
    assert rs.rules == rs.rules[..k] + rs.rules[k..];
    TagsConcat(rs.rules[..k], rs.rules[k..], x);
  }

  /** On rule sets of tags only, all strategies coincide, traces included. */
  lemma TagOnlyStrategiesCoincide(rs: RuleSet, s: Strategy, t: Strategy, x: Subject)
    requires forall i | 0 <= i < |rs.rules| :: rs.rules[i].action.Tag?
    ensures Decide(rs.(strategy := s), x) == Decide(rs.(strategy := t), x)
  {
    FirstStopIs(rs.rules, x, |rs.rules|);
    assert rs.rules[..|rs.rules|] == rs.rules;
  }

  /** A rule that fires adds the key and value of its tag, any other nothing; and the tags of a list add up in order. */
  lemma TagsTell(rule: Rule, rules: seq<Rule>, x: Subject)
    ensures TagsOf(rules + [rule], x) == TagsOf(rules, x) + TagsOf([rule], x)
    ensures rule.action.Tag? && Fires(rule, x) ==> TagsOf([rule], x) == [(rule.action.key, rule.action.value)]
    ensures !(rule.action.Tag? && Fires(rule, x)) ==> TagsOf([rule], x) == []
    ensures TagsOf([], x) == []
  {
    TagsConcat(rules, [rule], x);
    assert [rule][..0] == [];
    assert TagsOf([], x) == [];
  }
}
