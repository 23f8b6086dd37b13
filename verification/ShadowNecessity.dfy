/**
 The conditions the unreachable-rule analysis looks at are `Always`, `Never` and `FieldEq`. For rule sets
 made of them, this is exactly when deleting every reported rule changes no decision on any packet.
 */
module ShadowNecessity {
  import opened Types
  import opened Text
  import opened Conditions
  import opened Rules
  import opened Unreachable

  predicate Simple(c: Condition) {
    c.Always? || c.Never? || c.FieldEq?
  }

  /** The JSON value that a test for `v` is about; a float that is not finite has none. */
  function Leaf(v: Scalar): (leaf: Json)
    ensures !leaf.JObject?
  {
    match v
    case SString(s) => JString(s)
    case SInteger(i) => JNumber(IntNumber(i))
    case SFloat(Finite(value)) => JNumber(FloatNumber(value))
    case SFloat(_) => JNull
    case SBoolean(b) => JBool(b)
    case SNull => JNull
  }

  /** Some packet satisfies the condition. */
  predicate Possible(c: Condition) {
    c.Always? || (c.FieldEq? && (c.value.SFloat? ==> c.value.f.Finite?))
  }

  /** Every packet that satisfies `c` satisfies `d`: the same path, and a value that accepts what `c` asks for. */
  predicate Implies(c: Condition, d: Condition) {
    d.Always? || (c.FieldEq? && d.FieldEq? && c.path == d.path && JsonEqScalar(Leaf(c.value), d.value))
  }

  // ---- Packets with one field -----------------------------------------------------

  function Nest(segments: seq<string>, leaf: Json): Json {
    if segments == [] then leaf else JObject(map[segments[0] := Nest(segments[1..], leaf)])
  }

  lemma {:induction false} NestHolds(segments: seq<string>, leaf: Json)
    ensures Descend(Nest(segments, leaf), segments) == Some(leaf)
  {
    if segments != [] {
      NestHolds(segments[1..], leaf);
    }
  }

  /** Along any other path there is nothing, or an object. */
  lemma {:induction false} NestElsewhere(segments: seq<string>, leaf: Json, other: seq<string>)
    requires !leaf.JObject? && other != segments
    ensures
      var found := Descend(Nest(segments, leaf), other);
      found.None? || found.value.JObject?
  {
    if segments != [] && other != [] && segments[0] == other[0] {
      assert segments == [segments[0]] + segments[1..] && other == [other[0]] + other[1..];
      NestElsewhere(segments[1..], leaf, other[1..]);
    }
  }

  /** The packet that satisfies `c` and as little else as possible. */
  function Witness(c: Condition): Payload {
    if c.FieldEq? then Control(Nest(Split(c.path, '.'), Leaf(c.value))) else Bytes([])
  }

  lemma WitnessField(c: Condition, path: string)
    requires c.FieldEq?
    ensures path == c.path ==> Field(Witness(c), path) == Some(Leaf(c.value))
    ensures path != c.path ==> Field(Witness(c), path).None? || Field(Witness(c), path).value.JObject?
  {
    JoinSplit(path, '.');
    JoinSplit(c.path, '.');
    if path == c.path {
      NestHolds(Split(c.path, '.'), Leaf(c.value));
    } else {
      NestElsewhere(Split(c.path, '.'), Leaf(c.value), Split(path, '.'));
    }
  }

  /** The witness of a possible condition satisfies exactly what the condition implies. */
  lemma WitnessIsExact(c: Condition, d: Condition, ctx: Context)
    requires Simple(c) && Simple(d) && Possible(c)
    ensures Eval(d, Witness(c), ctx) <==> Implies(c, d)
  {
    if c.FieldEq? && d.FieldEq? {
      WitnessField(c, d.path);
    }
  }

  lemma WitnessFires(c: Condition, ctx: Context)
    requires Simple(c) && Possible(c)
    ensures Eval(c, Witness(c), ctx)
  {
    WitnessIsExact(c, c, ctx);
  }

  lemma ImpliesHolds(c: Condition, d: Condition, payload: Payload, ctx: Context)
    requires Simple(c) && Simple(d) && Implies(c, d) && Eval(c, payload, ctx)
    ensures Eval(d, payload, ctx) && Possible(c)
  {
  }

  lemma OnlyThePossibleFires(c: Condition, payload: Payload, ctx: Context)
    requires Simple(c) && Eval(c, payload, ctx)
    ensures Possible(c)
  {
  }

  // ---- Exactly when deletion is safe ----------------------------------------------

  predicate AllSimple(rs: RuleSet) {
    forall i | 0 <= i < |rs.rules| :: Simple(rs.rules[i].condition)
  }

  predicate Shadowed(rules: seq<Rule>, i: nat)
    requires i < |rules|
  {
    exists a | 0 <= a < i :: rules[a].action.Terminal() && Implies(rules[i].condition, rules[a].condition)
  }

  /** Whenever the rule fires, the strategy passes over its action: an earlier rule stopped, or it has no tag to add. */
  predicate PassedOver(rs: RuleSet, i: nat)
    requires i < |rs.rules|
  {
    match rs.strategy
    case FirstMatch => Shadowed(rs.rules, i)
    case AllMatches => !rs.rules[i].action.Tag?
    case Score => !rs.rules[i].action.Tag? && Shadowed(rs.rules, i)
  }

  /** Every rule that deletion by the reported ids takes, and that could fire, is passed over. */
  ghost predicate ExactShadows(rs: RuleSet) {
    forall i | 0 <= i < |rs.rules| && rs.rules[i].id in CaughtIds(rs) && Possible(rs.rules[i].condition) ::
      PassedOver(rs, i)
  }

  lemma ShadowStops(rs: RuleSet, i: nat, x: Subject)
    requires AllSimple(rs) && i < |rs.rules| && Shadowed(rs.rules, i) && Fires(rs.rules[i], x)
    ensures FirstStop(rs.rules, x) < i
  {
    var a :| 0 <= a < i && rs.rules[a].action.Terminal() && Implies(rs.rules[i].condition, rs.rules[a].condition);
    ImpliesHolds(rs.rules[i].condition, rs.rules[a].condition, x.payload, x.context);
    assert Stops(rs.rules[a], x);
    NoneStopBefore(rs.rules, x);
  }

  lemma PassedOverIsSilent(rs: RuleSet, i: nat, x: Subject)
    requires AllSimple(rs) && i < |rs.rules| && (Possible(rs.rules[i].condition) ==> PassedOver(rs, i))
    ensures !Contributes(rs, i, x)
  {
    if Fires(rs.rules[i], x) {
      OnlyThePossibleFires(rs.rules[i].condition, x.payload, x.context);
      if rs.strategy != AllMatches {
        ShadowStops(rs, i, x);
      }
    }
  }

  lemma ExactShadowsSuffice(rs: RuleSet, x: Subject)
    requires AllSimple(rs) && ExactShadows(rs)
    ensures SameOutcome(Decide(Prune(rs, CaughtIds(rs)), x), Decide(rs, x))
  {
    forall i | 0 <= i < |rs.rules| && rs.rules[i].id in CaughtIds(rs) ensures !Contributes(rs, i, x) {
      PassedOverIsSilent(rs, i, x);
    }
    PruneIsExact(rs, CaughtIds(rs), x);
  }

  /** On a packet that satisfies no more than the rule's condition implies, a rule not passed over contributes. */
  lemma NotPassedOverContributes(rs: RuleSet, i: nat, x: Subject)
    requires i < |rs.rules| && !PassedOver(rs, i) && Fires(rs.rules[i], x)
    requires forall j | 0 <= j < i && Fires(rs.rules[j], x) :: Implies(rs.rules[i].condition, rs.rules[j].condition)
    ensures Contributes(rs, i, x)
  {
    var k := FirstStop(rs.rules, x);
    if rs.strategy != AllMatches && !Shadowed(rs.rules, i) {
      assert k >= i;
      if rs.rules[i].action.Terminal() {
        FirstStopIs(rs.rules, x, i) by {
          NoneStopBefore(rs.rules, x);
        }
      }
    }
  }

  /** A rule deleted although it is not passed over decides its witness packet, and its loss changes that. */
  lemma UnshadowedDecides(rs: RuleSet, i: nat, ctx: Context)
    requires AllSimple(rs) && i < |rs.rules| && rs.rules[i].id in CaughtIds(rs) && Possible(rs.rules[i].condition)
    requires !PassedOver(rs, i)
    ensures
      var x := Subject(Witness(rs.rules[i].condition), ctx);
      !SameOutcome(Decide(Prune(rs, CaughtIds(rs)), x), Decide(rs, x))
  {
    var c := rs.rules[i].condition;
    var x := Subject(Witness(c), ctx);
    WitnessFires(c, ctx);
    forall j | 0 <= j < i && Fires(rs.rules[j], x) ensures Implies(c, rs.rules[j].condition) {
      WitnessIsExact(c, rs.rules[j].condition, ctx);
    }
    NotPassedOverContributes(rs, i, x);
    PruneIsExact(rs, CaughtIds(rs), x);
  }

  /**
   Deleting every rule with a reported id changes no decision on any packet iff each of those rules that
   could fire is passed over: behind an earlier terminal rule that fires whenever it does, and no tag where
   tags are collected past that rule.
   */
  lemma DeletionIsSafeIff(rs: RuleSet)
    requires AllSimple(rs)
    ensures (forall x :: SameOutcome(Decide(Prune(rs, CaughtIds(rs)), x), Decide(rs, x))) <==> ExactShadows(rs)
  {
    if ExactShadows(rs) {
      forall x ensures SameOutcome(Decide(Prune(rs, CaughtIds(rs)), x), Decide(rs, x)) {
        ExactShadowsSuffice(rs, x);
      }
    } else {
      var i :| 0 <= i < |rs.rules| && rs.rules[i].id in CaughtIds(rs) && Possible(rs.rules[i].condition)
        && !PassedOver(rs, i);
      UnshadowedDecides(rs, i, Context(map[], None, None, 0, "", map[]));
    }
  }

  /** For constant conditions any one packet tells. */
  lemma ConstantSetsNeedStoppingShadows(rs: RuleSet, x: Subject)
    requires forall i | 0 <= i < |rs.rules| :: rs.rules[i].condition.Always? || rs.rules[i].condition.Never?
    ensures SameOutcome(Decide(Prune(rs, CaughtIds(rs)), x), Decide(rs, x)) <==> ExactShadows(rs)
  {
    if ExactShadows(rs) {
      ExactShadowsSuffice(rs, x);
    } else {
      var i :| 0 <= i < |rs.rules| && rs.rules[i].id in CaughtIds(rs) && Possible(rs.rules[i].condition)
        && !PassedOver(rs, i);
      NotPassedOverContributes(rs, i, x);
      PruneIsExact(rs, CaughtIds(rs), x);
    }
  }

  // ---- Two sets the analysis gets wrong -------------------------------------------

  /** A tagging rule and a routing rule that both always match. */
  function TaggedThenRouted(): RuleSet {
    RuleSet("set", FirstMatch,
      [Rule("tag", Always, Tag("k", SNull), 0, ""), Rule("out", Always, Route("p"), 1, "")], Drop, false)
  }

  lemma SecondRuleDecides(x: Subject)
    ensures Decide(TaggedThenRouted(), x).action == Route("p")
  {
    FirstStopIs(TaggedThenRouted().rules, x, 1);
  }

  /** A tagging `Always` rule shadows nothing, yet the rule after it is reported and its loss changes decisions. */
  lemma TaggingShadowIsUnsound(x: Subject)
    ensures
      var rs := TaggedThenRouted();
      && DistinctIds(rs.rules) && Caught(rs, 1)
      && Decide(rs, x).action == Route("p")
      && !SameOutcome(Decide(Prune(rs, CaughtIds(rs)), x), Decide(rs, x))
  {
    var rs := TaggedThenRouted();
    assert IsFirstAlways(rs.rules, 0);
    assert Justified(rs, 1, ShadowedByAlways("tag"));
    SecondRuleDecides(x);
    assert rs.rules[1].id in CaughtIds(rs) && !Shadowed(rs.rules, 1);
    ConstantSetsNeedStoppingShadows(rs, x);
  }

  /** Two rules share an id; the first never fires. */
  function RepeatedId(): RuleSet {
    RuleSet("set", FirstMatch,
      [Rule("r", Never, Drop, 0, ""), Rule("r", Always, Route("p"), 1, "")], Drop, false)
  }

  /** A report names an id, and deleting by id takes the live rule that shares it: every decision changes. */
  lemma RepeatedIdIsUnsound(x: Subject)
    ensures
      var rs := RepeatedId();
      !Caught(rs, 1) && !SameOutcome(Decide(Prune(rs, CaughtIds(rs)), x), Decide(rs, x))
  {
    var rs := RepeatedId();
    assert Justified(rs, 0, ConditionIsNever);
    assert rs.rules[0].id in CaughtIds(rs) && rs.rules[1].id in CaughtIds(rs);
    assert !Shadowed(rs.rules, 1);
    ConstantSetsNeedStoppingShadows(rs, x);
  }
}
