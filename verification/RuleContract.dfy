/** Checking a rule set against its host node and the workflow graph before anything runs. */
module RuleContract {
  import opened Types
  import opened Graph
  import opened Conditions
  import opened Rules

  const DEAD_LETTER_PORT: PortId := "dead_letter"

  datatype Site = InRule(ruleId: string) | DefaultAction

  datatype Violation =
    | UnknownRuleNode(node: NodeId)
    | UnknownRoutePort(site: Site, port: PortId)
    | MissingDeadLetterPort(site: Site)
    | UnknownSourceNode(ruleId: string, node: NodeId)
    | UnreachableSourceNode(ruleId: string, node: NodeId)
    | UnknownArrivalPort(ruleId: string, port: PortId)

  // ---- References in a condition --------------------------------------------------

  /** Some leaf of the condition, at any depth, is `leaf`. */
  predicate HasLeaf(c: Condition, leaf: Condition) {
    match c
    case And(all) => exists x | x in all :: HasLeaf(x, leaf)
    case Or(any) => exists x | x in any :: HasLeaf(x, leaf)
    case Not(inner) => HasLeaf(inner, leaf)
    case _ => c == leaf
  }

  datatype Refs = Refs(sources: seq<NodeId>, ports: seq<PortId>)

  predicate AnyLeaf(cs: seq<Condition>, leaf: Condition) {
    exists x | x in cs :: HasLeaf(x, leaf)
  }

  ghost predicate Gathered(before: Refs, after: Refs, cs: seq<Condition>) {
    && (forall n :: n in after.sources <==> n in before.sources || AnyLeaf(cs, SourceNode(n)))
    && (forall p :: p in after.ports <==> p in before.ports || AnyLeaf(cs, ArrivedOnPort(p)))
  }

  lemma LeafOne(c: Condition, leaf: Condition)
    ensures AnyLeaf([c], leaf) <==> HasLeaf(c, leaf)
  {
    assert c in [c];
  }

  lemma LeafSnoc(cs: seq<Condition>, c: Condition, leaf: Condition)
    ensures AnyLeaf(cs + [c], leaf) <==> AnyLeaf(cs, leaf) || AnyLeaf([c], leaf)
  {
    assert c in [c] && c in cs + [c];
    assert forall x | x in cs :: x in cs + [c];
  }

  lemma LeafParent(cs: seq<Condition>, c: Condition, leaf: Condition)
    requires c == And(cs) || c == Or(cs) || (c.Not? && cs == [c.inner])
    ensures AnyLeaf([c], leaf) <==> AnyLeaf(cs, leaf)
  {
    LeafOne(c, leaf);
    if c.Not? {
      LeafOne(c.inner, leaf);
    }
  }

  lemma GatheredParent(before: Refs, after: Refs, cs: seq<Condition>, c: Condition)
    requires Gathered(before, after, cs)
    requires c == And(cs) || c == Or(cs) || (c.Not? && cs == [c.inner])
    ensures Gathered(before, after, [c])
  {
    forall n ensures n in after.sources <==> n in before.sources || AnyLeaf([c], SourceNode(n)) {
      LeafParent(cs, c, SourceNode(n));
    }
    forall p ensures p in after.ports <==> p in before.ports || AnyLeaf([c], ArrivedOnPort(p)) {
      LeafParent(cs, c, ArrivedOnPort(p));
    }
  }

  lemma GatheredSnoc(before: Refs, mid: Refs, after: Refs, cs: seq<Condition>, c: Condition)
    requires Gathered(before, mid, cs) && Gathered(mid, after, [c])
    ensures Gathered(before, after, cs + [c])
  {
    forall n ensures n in after.sources <==> n in before.sources || AnyLeaf(cs + [c], SourceNode(n)) {
      LeafSnoc(cs, c, SourceNode(n));
    }
    forall p ensures p in after.ports <==> p in before.ports || AnyLeaf(cs + [c], ArrivedOnPort(p)) {
      LeafSnoc(cs, c, ArrivedOnPort(p));
    }
  }

  /** `collect_condition_refs`: every source node and arrival port named anywhere in the tree. */
  method CollectConditionRefs(c: Condition, refs: Refs) returns (out: Refs)
    ensures Gathered(refs, out, [c])
    decreases c, 1
  {
    out := refs;
    if c.SourceNode? {
      out := out.(sources := out.sources + [c.node]);
    } else if c.ArrivedOnPort? {
      out := out.(ports := out.ports + [c.port]);
    } else if c.And? {
      out := CollectEach(c.all, out, c);
      GatheredParent(refs, out, c.all, c);
      return;
    } else if c.Or? {
      out := CollectEach(c.any, out, c);
      GatheredParent(refs, out, c.any, c);
      return;
    } else if c.Not? {
      out := CollectConditionRefs(c.inner, out);
      GatheredParent(refs, out, [c.inner], c);
      return;
    }
    forall leaf ensures AnyLeaf([c], leaf) <==> c == leaf {
      LeafOne(c, leaf);
    }
  }

  method CollectEach(cs: seq<Condition>, refs: Refs, ghost parent: Condition) returns (out: Refs)
    requires parent == And(cs) || parent == Or(cs)
    ensures Gathered(refs, out, cs)
    decreases parent, 0
  {
    out := refs;
    for i := 0 to |cs|
      invariant Gathered(refs, out, cs[..i])
    {
      assert cs[..i + 1] == cs[..i] + [cs[i]];
      var next := CollectConditionRefs(cs[i], out);
      GatheredSnoc(refs, out, next, cs[..i], cs[i]);
      out := next;
    }
    assert cs[..|cs|] == cs;
  }

  // ---- Violations -----------------------------------------------------------------

  function HostOf(nodes: seq<Node>, id: NodeId): (r: Option<Node>)
    ensures r.Some? ==> r.value in nodes && r.value.id == id
    ensures r.None? <==> !Declared(nodes, id)
  {
    if nodes == [] then None
    else if nodes[0].id == id then Some(nodes[0])
    else
      assert nodes == [nodes[0]] + nodes[1..];
      HostOf(nodes[1..], id)
  }

  /** The port an action sends to, if it sends. */
  function SendPort(action: Action): Option<PortId> {
    match action
    case Route(port) => Some(port)
    case DeadLetter(_) => Some(DEAD_LETTER_PORT)
    case _ => None
  }

  predicate ActionLegal(host: Node, action: Action) {
    SendPort(action).Some? ==> SendPort(action).value in host.outputs
  }

  /** Every provenance leaf names a node that exists and reaches the host, or an input of the host. */
  ghost predicate ConditionLegal(w: Workflow, host: Node, c: Condition) {
    && (forall n | HasLeaf(c, SourceNode(n)) :: Declared(w.nodes, n) && Reaches(w.edges, n, host.id))
    && (forall p | HasLeaf(c, ArrivedOnPort(p)) :: p in host.inputs)
  }

  ghost predicate Legal(w: Workflow, hostId: NodeId, rs: RuleSet) {
    && HostOf(w.nodes, hostId).Some?
    && var host := HostOf(w.nodes, hostId).value;
    && ActionLegal(host, rs.defaultAction)
    && forall i | 0 <= i < |rs.rules| ::
         ActionLegal(host, rs.rules[i].action) && ConditionLegal(w, host, rs.rules[i].condition)
  }

  /** A reported violation describes something wrong with the rule it names. */
  ghost predicate Real(w: Workflow, host: Node, rs: RuleSet, v: Violation) {
    match v
    case UnknownRuleNode(_) => false
    case UnknownRoutePort(site, port) => port !in host.outputs && HasActionAt(rs, site, Route(port))
    case MissingDeadLetterPort(site) =>
      DEAD_LETTER_PORT !in host.outputs && exists reason :: HasActionAt(rs, site, DeadLetter(reason))
    case UnknownSourceNode(id, node) => !Declared(w.nodes, node) && HasLeafAt(rs, id, SourceNode(node))
    case UnreachableSourceNode(id, node) =>
      Declared(w.nodes, node) && !Reaches(w.edges, node, host.id) && HasLeafAt(rs, id, SourceNode(node))
    case UnknownArrivalPort(id, port) => port !in host.inputs && HasLeafAt(rs, id, ArrivedOnPort(port))
  }

  predicate HasActionAt(rs: RuleSet, site: Site, action: Action) {
    match site
    case DefaultAction => rs.defaultAction == action
    case InRule(id) => exists r | r in rs.rules :: r.id == id && r.action == action
  }

  predicate HasLeafAt(rs: RuleSet, id: string, leaf: Condition) {
    exists r | r in rs.rules :: r.id == id && HasLeaf(r.condition, leaf)
  }

  ghost predicate AllReal(w: Workflow, host: Node, rs: RuleSet, vs: seq<Violation>) {
    forall k | 0 <= k < |vs| :: Real(w, host, rs, vs[k])
  }

  method ValidateAction(host: Node, site: Site, action: Action, ghost w: Workflow, ghost rs: RuleSet)
    returns (vs: seq<Violation>)
    requires HasActionAt(rs, site, action)
    ensures vs == [] <==> ActionLegal(host, action)
    ensures AllReal(w, host, rs, vs)
  {
    vs := [];
    match action
    case Route(port) =>
      if port !in host.outputs {
        vs := [UnknownRoutePort(site, port)];
      }
    case DeadLetter(reason) =>
      if DEAD_LETTER_PORT !in host.outputs {
        assert HasActionAt(rs, site, DeadLetter(reason));
        vs := [MissingDeadLetterPort(site)];
      }
    case _ =>
  }

  method ValidateSources(w: Workflow, host: Node, rule: Rule, sources: seq<NodeId>, ghost rs: RuleSet)
    returns (vs: seq<Violation>)
    requires rule in rs.rules && forall n | n in sources :: HasLeaf(rule.condition, SourceNode(n))
    ensures vs == [] <==> forall n | n in sources :: Declared(w.nodes, n) && Reaches(w.edges, n, host.id)
    ensures AllReal(w, host, rs, vs)
  {
    vs := [];
    for i := 0 to |sources|
      invariant vs == [] <==>
          forall j | 0 <= j < i :: Declared(w.nodes, sources[j]) && Reaches(w.edges, sources[j], host.id)
      invariant AllReal(w, host, rs, vs)
    {
      assert HasLeafAt(rs, rule.id, SourceNode(sources[i]));
      if !Declared(w.nodes, sources[i]) {
        vs := vs + [UnknownSourceNode(rule.id, sources[i])];
      } else {
        var reachable := HasPath(w, sources[i], host.id);
        if !reachable {
          vs := vs + [UnreachableSourceNode(rule.id, sources[i])];
        }
      }
    }
  }

  method ValidatePorts(host: Node, rule: Rule, ports: seq<PortId>, ghost w: Workflow, ghost rs: RuleSet)
    returns (vs: seq<Violation>)
    requires rule in rs.rules && forall p | p in ports :: HasLeaf(rule.condition, ArrivedOnPort(p))
    ensures vs == [] <==> forall p | p in ports :: p in host.inputs
    ensures AllReal(w, host, rs, vs)
  {
    vs := [];
    for i := 0 to |ports|
      invariant vs == [] <==> forall j | 0 <= j < i :: ports[j] in host.inputs
      invariant AllReal(w, host, rs, vs)
    {
      assert HasLeafAt(rs, rule.id, ArrivedOnPort(ports[i]));
      if ports[i] !in host.inputs {
        vs := vs + [UnknownArrivalPort(rule.id, ports[i])];
      }
    }
  }

  method ValidateCondition(w: Workflow, host: Node, rule: Rule, ghost rs: RuleSet) returns (vs: seq<Violation>)
    requires rule in rs.rules
    ensures vs == [] <==> ConditionLegal(w, host, rule.condition)
    ensures AllReal(w, host, rs, vs)
  {
    var refs := CollectConditionRefs(rule.condition, Refs([], []));
    forall leaf ensures AnyLeaf([rule.condition], leaf) <==> HasLeaf(rule.condition, leaf) {
      LeafOne(rule.condition, leaf);
    }
    var bad := ValidateSources(w, host, rule, refs.sources, rs);
    var worse := ValidatePorts(host, rule, refs.ports, w, rs);
    vs := bad + worse;
  }

  method ValidateActions(host: Node, rs: RuleSet, ghost w: Workflow) returns (vs: seq<Violation>)
    ensures vs == [] <==>
      ActionLegal(host, rs.defaultAction) && forall i | 0 <= i < |rs.rules| :: ActionLegal(host, rs.rules[i].action)
    ensures AllReal(w, host, rs, vs)
  {
    vs := [];
    for i := 0 to |rs.rules|
      invariant vs == [] <==> forall j | 0 <= j < i :: ActionLegal(host, rs.rules[j].action)
      invariant AllReal(w, host, rs, vs)
    {
      assert rs.rules[i] in rs.rules;
      var more := ValidateAction(host, InRule(rs.rules[i].id), rs.rules[i].action, w, rs);
      vs := vs + more;
    }
    var more := ValidateAction(host, DefaultAction, rs.defaultAction, w, rs);
    vs := vs + more;
  }

  method ValidateConditions(w: Workflow, host: Node, rs: RuleSet) returns (vs: seq<Violation>)
    ensures vs == [] <==> forall i | 0 <= i < |rs.rules| :: ConditionLegal(w, host, rs.rules[i].condition)
    ensures AllReal(w, host, rs, vs)
  {
    vs := [];
    for i := 0 to |rs.rules|
      invariant vs == [] <==> forall j | 0 <= j < i :: ConditionLegal(w, host, rs.rules[j].condition)
      invariant AllReal(w, host, rs, vs)
    {
      assert rs.rules[i] in rs.rules;
      var more := ValidateCondition(w, host, rs.rules[i], rs);
      vs := vs + more;
    }
  }

  /** `rule_set_violations`: empty exactly for legal rule sets; every entry is a real defect. */
  method RuleSetViolations(w: Workflow, hostId: NodeId, rs: RuleSet) returns (vs: seq<Violation>)
    ensures vs == [] <==> Legal(w, hostId, rs)
    ensures HostOf(w.nodes, hostId).None? ==> vs == [UnknownRuleNode(hostId)]
    ensures HostOf(w.nodes, hostId).Some? ==> AllReal(w, HostOf(w.nodes, hostId).value, rs, vs)
  {
    var found := HostOf(w.nodes, hostId);
    if found.None? {
      return [UnknownRuleNode(hostId)];
    }
    var actions := ValidateActions(found.value, rs, w);
    var conditions := ValidateConditions(w, found.value, rs);
    vs := actions + conditions;
  }

  /** A validated rule set never decides to send to a port its host does not declare. */
  lemma ValidatedNeverSendsUnknown(w: Workflow, hostId: NodeId, rs: RuleSet, x: Subject)
    requires Legal(w, hostId, rs)
    ensures ActionLegal(HostOf(w.nodes, hostId).value, Decide(rs, x).action)
  {
    var k := FirstStop(rs.rules, x);
    assert k < |rs.rules| ==> ActionLegal(HostOf(w.nodes, hostId).value, rs.rules[k].action);
  }

  // ---- What is legal --------------------------------------------------------------

  /** Routes and dead letters are legal iff the host has the output for them; other actions always are. */
  lemma ActionLegalIff(host: Node, port: PortId, reason: string, action: Action)
    ensures ActionLegal(host, Route(port)) <==> port in host.outputs
    ensures ActionLegal(host, DeadLetter(reason)) <==> "dead_letter" in host.outputs
    ensures action.Drop? || action.Tag? || action.Halt? ==> ActionLegal(host, action)
  {
  }

  predicate ProvenanceLeaf(c: Condition) {
    c.SourceNode? || c.ArrivedOnPort?
  }

  /** A leaf counts wherever it is nested. */
  lemma LeavesNest(c: Condition, cs: seq<Condition>, leaf: Condition)
    requires ProvenanceLeaf(leaf)
    ensures HasLeaf(Not(c), leaf) <==> HasLeaf(c, leaf)
    ensures HasLeaf(And(cs), leaf) <==> exists x :: x in cs && HasLeaf(x, leaf)
    ensures HasLeaf(Or(cs), leaf) <==> exists x :: x in cs && HasLeaf(x, leaf)
    ensures ProvenanceLeaf(c) ==> (HasLeaf(c, leaf) <==> c == leaf)
  {
  }

  /** A source node must exist and reach the host; an arrival port must be one of its inputs. */
  lemma LeafLegalIff(w: Workflow, host: Node, n: NodeId, port: PortId)
    ensures ConditionLegal(w, host, SourceNode(n)) <==> Declared(w.nodes, n) && Reaches(w.edges, n, host.id)
    ensures ConditionLegal(w, host, ArrivedOnPort(port)) <==> port in host.inputs
  {
    assert HasLeaf(SourceNode(n), SourceNode(n)) && HasLeaf(ArrivedOnPort(port), ArrivedOnPort(port));
  }
}
