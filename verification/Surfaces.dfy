/** Which parts of a packet a condition can read, and that it reads nothing else. */
module Surfaces {
  import opened Conditions
  import opened Rules

  /** Some leaf of the condition draws from the surface. */
  predicate Uses(c: Condition, s: Surface) {
    match c
    case And(all) => exists x | x in all :: Uses(x, s)
    case Or(any) => exists x | x in any :: Uses(x, s)
    case Not(inner) => Uses(inner, s)
    case _ => SurfaceOf(c) == s
  }

  datatype SurfaceSummary = SurfaceSummary(
    payload: bool, tag: bool, provenance: bool, execution: bool, constant: bool)
  {
    predicate ConstantOnly() {
      constant && !payload && !tag && !provenance && !execution
    }

    function Mark(s: Surface): SurfaceSummary {
      match s
      case PayloadSurface => this.(payload := true)
      case TagSurface => this.(tag := true)
      case ProvenanceSurface => this.(provenance := true)
      case ExecutionSurface => this.(execution := true)
      case Constant => this.(constant := true)
      case Combinator => this
    }
  }

  predicate UsesAny(cs: seq<Condition>, s: Surface) {
    exists x | x in cs :: Uses(x, s)
  }

  /** `out` is `s` with the flags of the surfaces used by any of the conditions raised. */
  predicate Raised(s: SurfaceSummary, out: SurfaceSummary, cs: seq<Condition>) {
    && out.payload == (s.payload || UsesAny(cs, PayloadSurface))
    && out.tag == (s.tag || UsesAny(cs, TagSurface))
    && out.provenance == (s.provenance || UsesAny(cs, ProvenanceSurface))
    && out.execution == (s.execution || UsesAny(cs, ExecutionSurface))
    && out.constant == (s.constant || UsesAny(cs, Constant))
  }

  lemma UsesOne(c: Condition, s: Surface)
    ensures UsesAny([c], s) <==> Uses(c, s)
  {
    assert c in [c];
  }

  lemma UsesSnoc(cs: seq<Condition>, c: Condition, s: Surface)
    ensures UsesAny(cs + [c], s) <==> UsesAny(cs, s) || UsesAny([c], s)
  {
    assert c in [c] && c in cs + [c];
    assert forall x | x in cs :: x in cs + [c];
  }

  lemma MarkRaises(c: Condition, s: SurfaceSummary)
    requires SurfaceOf(c) != Combinator
    ensures Raised(s, s.Mark(SurfaceOf(c)), [c])
  {
    forall t ensures UsesAny([c], t) <==> SurfaceOf(c) == t {
      UsesOne(c, t);
    }
  }

  lemma RaisedBoth(s: SurfaceSummary, mid: SurfaceSummary, out: SurfaceSummary, cs: seq<Condition>, c: Condition)
    requires Raised(s, mid, cs) && Raised(mid, out, [c])
    ensures Raised(s, out, cs + [c])
  {
    forall t ensures UsesAny(cs + [c], t) <==> UsesAny(cs, t) || UsesAny([c], t) {
      UsesSnoc(cs, c, t);
    }
  }

  lemma RaisedParent(s: SurfaceSummary, out: SurfaceSummary, cs: seq<Condition>, c: Condition)
    requires Raised(s, out, cs)
    requires c == And(cs) || c == Or(cs) || (c.Not? && cs == [c.inner])
    ensures Raised(s, out, [c])
  {
    forall t ensures UsesAny([c], t) <==> UsesAny(cs, t) {
      UsesOne(c, t);
      if c.Not? {
        UsesOne(c.inner, t);
      }
    }
  }

  /** `collect_surfaces_inner`: set the flag of every surface in the tree, keeping flags already set. */
  method CollectSurfacesInner(c: Condition, s: SurfaceSummary) returns (out: SurfaceSummary)
    ensures Raised(s, out, [c])
    decreases c, 1
  {
    out := s.Mark(SurfaceOf(c));
    if c.And? {
      out := CollectEach(c.all, out, c);
      RaisedParent(s, out, c.all, c);
    } else if c.Or? {
      out := CollectEach(c.any, out, c);
      RaisedParent(s, out, c.any, c);
    } else if c.Not? {
      out := CollectSurfacesInner(c.inner, out);
      RaisedParent(s, out, [c.inner], c);
    } else {
      MarkRaises(c, s);
    }
  }

  method CollectEach(cs: seq<Condition>, s: SurfaceSummary, ghost parent: Condition) returns (out: SurfaceSummary)
    requires parent == And(cs) || parent == Or(cs)
    ensures Raised(s, out, cs)
    decreases parent, 0
  {
    out := s;
    for i := 0 to |cs|
      invariant Raised(s, out, cs[..i])
    {
      assert cs[..i + 1] == cs[..i] + [cs[i]];
      var next := CollectSurfacesInner(cs[i], out);
      RaisedBoth(s, out, next, cs[..i], cs[i]);
      out := next;
    }
    assert cs[..|cs|] == cs;
  }

  /** The surfaces a condition uses, as flags. */
  function Summary(c: Condition): SurfaceSummary {
    SurfaceSummary(
      Uses(c, PayloadSurface), Uses(c, TagSurface), Uses(c, ProvenanceSurface), Uses(c, ExecutionSurface),
      Uses(c, Constant))
  }

  method CollectSurfaces(c: Condition) returns (out: SurfaceSummary)
    ensures out == Summary(c)
  {
    out := CollectSurfacesInner(c, SurfaceSummary(false, false, false, false, false));
    forall t ensures UsesAny([c], t) <==> Uses(c, t) {
      UsesOne(c, t);
    }
  }

  // ---- Non-interference -----------------------------------------------------------

  /** `x` and `y` look the same through the surface. */
  predicate SameSurface(x: Subject, y: Subject, s: Surface) {
    match s
    case PayloadSurface => x.payload == y.payload
    case TagSurface => x.context.tags == y.context.tags
    case ProvenanceSurface =>
      && x.context.sourceNode == y.context.sourceNode
      && x.context.arrivalPort == y.context.arrivalPort
      && x.context.hopCount == y.context.hopCount
    case ExecutionSurface =>
      x.context.workflow == y.context.workflow && x.context.metadata == y.context.metadata
    case _ => true
  }

  /** A condition depends only on the surfaces its summary reports. */
  lemma {:induction false} NonInterference(c: Condition, x: Subject, y: Subject)
    requires forall s | Uses(c, s) :: SameSurface(x, y, s)
    ensures Eval(c, x.payload, x.context) == Eval(c, y.payload, y.context)
  {
    match c
    case And(all) =>
      forall d | d in all ensures Eval(d, x.payload, x.context) == Eval(d, y.payload, y.context) {
        assert forall s | Uses(d, s) :: Uses(c, s);
        NonInterference(d, x, y);
      }
    case Or(any) =>
      forall d | d in any ensures Eval(d, x.payload, x.context) == Eval(d, y.payload, y.context) {
        assert forall s | Uses(d, s) :: Uses(c, s);
        NonInterference(d, x, y);
      }
    case Not(inner) =>
      assert forall s | Uses(inner, s) :: Uses(c, s);
      NonInterference(inner, x, y);
    case _ =>
      assert Uses(c, SurfaceOf(c));
  }

  /** A condition the summary calls constant-only has the same value for every packet. */
  lemma ConstantOnlyIsConstant(c: Condition, x: Subject, y: Subject)
    requires Summary(c).ConstantOnly()
    ensures Eval(c, x.payload, x.context) == Eval(c, y.payload, y.context)
  {
    NonInterference(c, x, y);
  }

  lemma {:induction false} SameFiringSameResults(a: seq<Rule>, x: Subject, y: Subject)
    requires forall i | 0 <= i < |a| :: Fires(a[i], x) == Fires(a[i], y)
    ensures TagsOf(a, x) == TagsOf(a, y) && TracesOf(a, x) == TracesOf(a, y) && FirstStop(a, x) == FirstStop(a, y)
  {
    if a != [] {
      SameFiringSameResults(a[..|a| - 1], x, y);
    }
    NoneStopBefore(a, x);
    FirstStopIs(a, y, FirstStop(a, x));
  }

  lemma SameFiringSameDecision(rs: RuleSet, x: Subject, y: Subject)
    requires forall i | 0 <= i < |rs.rules| :: Fires(rs.rules[i], x) == Fires(rs.rules[i], y)
    ensures Decide(rs, x) == Decide(rs, y)
  {
    var k := FirstStop(rs.rules, x);
    SameFiringSameResults(rs.rules, x, y);
    if rs.strategy == FirstMatch {
      SameFiringSameResults(rs.rules[..k], x, y);
      SameFiringSameResults(rs.rules[..if k < |rs.rules| then k + 1 else |rs.rules|], x, y);
    }
  }

  /** Changing surfaces that no rule reads changes nothing about the decision, under any strategy. */
  lemma DecisionNonInterference(rs: RuleSet, x: Subject, y: Subject)
    requires forall r, s | r in rs.rules && Uses(r.condition, s) :: SameSurface(x, y, s)
    ensures Decide(rs, x) == Decide(rs, y)
  {
    forall i | 0 <= i < |rs.rules| ensures Fires(rs.rules[i], x) == Fires(rs.rules[i], y) {
      assert rs.rules[i] in rs.rules;
      NonInterference(rs.rules[i].condition, x, y);
    }
    SameFiringSameDecision(rs, x, y);
  }

  // ---- No more than is there ------------------------------------------------------

  /** All leaves are `Always` or `Never`. */
  predicate OnlyConstants(c: Condition) {
    match c
    case And(all) => forall x | x in all :: OnlyConstants(x)
    case Or(any) => forall x | x in any :: OnlyConstants(x)
    case Not(inner) => OnlyConstants(inner)
    case _ => c.Always? || c.Never?
  }

  lemma {:induction false} ConstantsUseNothingElse(c: Condition, s: Surface)
    requires OnlyConstants(c) && Uses(c, s)
    ensures s == Constant
  {
    match c
    case And(all) =>
      var x :| x in all && Uses(x, s);
      ConstantsUseNothingElse(x, s);
    case Or(any) =>
      var x :| x in any && Uses(x, s);
      ConstantsUseNothingElse(x, s);
    case Not(inner) => ConstantsUseNothingElse(inner, s);
    case _ =>
  }

  /** A condition of constants reports no surface, and a single constant is reported as constant-only. */
  lemma ConstantsReportNoSurface(c: Condition)
    requires OnlyConstants(c)
    ensures
      var summary := Summary(c);
      !summary.payload && !summary.tag && !summary.provenance && !summary.execution
    ensures c.Always? || c.Never? ==> Summary(c).ConstantOnly()
  {
    forall s | Uses(c, s) ensures s == Constant {
      ConstantsUseNothingElse(c, s);
    }
  }
}
