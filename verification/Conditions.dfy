/** Rule conditions, the surfaces they read, and their evaluation against a packet and its context. */
module Conditions {
  import opened Types
  import Glob
  import Text

  datatype Scalar =
    | SString(s: string)
    | SInteger(i: Int64)
    | SFloat(f: Float)
    | SBoolean(b: bool)
    | SNull

  datatype Condition =
    | FieldEq(path: string, value: Scalar)
    | FieldNeq(path: string, value: Scalar)
    | FieldGt(path: string, value: Scalar)
    | FieldLt(path: string, value: Scalar)
    | FieldGte(path: string, value: Scalar)
    | FieldLte(path: string, value: Scalar)
    | FieldIn(path: string, values: seq<Scalar>)
    | FieldExists(path: string)
    | FieldAbsent(path: string)
    | FieldMatches(path: string, pattern: string)
    | TagEq(key: string, value: Scalar)
    | TagExists(key: string)
    | TagAbsent(key: string)
    | SourceNode(node: NodeId)
    | ArrivedOnPort(port: PortId)
    | HopCountGt(n: nat)
    | HopCountLte(n: nat)
    | WorkflowIs(workflow: WorkflowId)
    | ExecutionMetadataEq(key: string, value: Scalar)
    | And(all: seq<Condition>)
    | Or(any: seq<Condition>)
    | Not(inner: Condition)
    | Always
    | Never

  datatype Context = Context(
    tags: map<string, Scalar>,
    sourceNode: Option<NodeId>,
    arrivalPort: Option<PortId>,
    hopCount: nat,
    workflow: WorkflowId,
    metadata: map<string, Scalar>)

  datatype Surface = PayloadSurface | TagSurface | ProvenanceSurface | ExecutionSurface | Combinator | Constant

  function SurfaceOf(c: Condition): Surface {
    match c
    case FieldEq(_, _) => PayloadSurface
    case FieldNeq(_, _) => PayloadSurface
    case FieldGt(_, _) => PayloadSurface
    case FieldLt(_, _) => PayloadSurface
    case FieldGte(_, _) => PayloadSurface
    case FieldLte(_, _) => PayloadSurface
    case FieldIn(_, _) => PayloadSurface
    case FieldExists(_) => PayloadSurface
    case FieldAbsent(_) => PayloadSurface
    case FieldMatches(_, _) => PayloadSurface
    case TagEq(_, _) => TagSurface
    case TagExists(_) => TagSurface
    case TagAbsent(_) => TagSurface
    case SourceNode(_) => ProvenanceSurface
    case ArrivedOnPort(_) => ProvenanceSurface
    case HopCountGt(_) => ProvenanceSurface
    case HopCountLte(_) => ProvenanceSurface
    case WorkflowIs(_) => ExecutionSurface
    case ExecutionMetadataEq(_, _) => ExecutionSurface
    case And(_) => Combinator
    case Or(_) => Combinator
    case Not(_) => Combinator
    case Always => Constant
    case Never => Constant
  }

  // ---- Values ---------------------------------------------------------------------

  predicate FloatEq(a: Float, b: Float) {
    !a.NaN? && a == b
  }

  datatype Ordering = Less | Equal | Greater

  function FloatCmp(a: Float, b: Float): Option<Ordering> {
    if a.NaN? || b.NaN? then None
    else if a == b then Some(Equal)
    else if a.NegInf? || b.PosInf? then Some(Less)
    else if a.PosInf? || b.NegInf? then Some(Greater)
    else Some(if a.value < b.value then Less else Greater)
  }

  const EXACT_LIMIT: nat := 0x20_0000_0000_0000

  /** The gap between neighbouring doubles at the size of `n`, but at least 1. */
  function Gap(n: nat): (u: nat)
    ensures u > 0
  {
    if n < EXACT_LIMIT then 1 else 2 * Gap(n / 2)
  }

  /** To the nearest double, ties to the even one. */
  function RoundNat(n: nat): nat {
    var u := Gap(n);
    var down, rest := n / u, n % u;
    if 2 * rest < u || (2 * rest == u && down % 2 == 0) then down * u else (down + 1) * u
  }

  /** `i as f64` for a 64-bit integer. */
  function AsDouble(i: int): int {
    if i < 0 then 0 - RoundNat(-i) else RoundNat(i)
  }

  /** The conversion is to within half a gap, and exact up to 53 bits. */
  lemma RoundingError(n: nat)
    ensures 0 - Gap(n) <= 2 * (RoundNat(n) - n) <= Gap(n)
    ensures n < EXACT_LIMIT ==> RoundNat(n) == n
  {
    var u := Gap(n);
    Division(n, u);
    NextMultiple(n / u, u);
  }

  lemma Division(n: nat, u: nat)
    requires u > 0
    ensures n == (n / u) * u + n % u
  {
  }

  lemma NextMultiple(k: int, u: int)
    ensures (k + 1) * u == k * u + u
  {
  }

  /** Two integers that a float test cannot tell apart. */
  lemma NeighboursMeet()
    ensures AsDouble(0x20_0000_0000_0001) == AsDouble(0x20_0000_0000_0000) == 0x20_0000_0000_0000
  {
    assert Gap(0x10_0000_0000_0000) == 1;
    assert Gap(0x20_0000_0000_0001) == 2 && Gap(0x20_0000_0000_0000) == 2;
  }

  function NumberAsFloat(n: Number): Float {
    match n
    case IntNumber(i) => Finite(AsDouble(i) as real)
    case FloatNumber(value) => Finite(value)
  }

  predicate JsonEqScalar(json: Json, scalar: Scalar) {
    match (json, scalar)
    case (JString(s), SString(r)) => s == r
    case (JNumber(n), SInteger(i)) => n == IntNumber(i)
    case (JNumber(n), SFloat(f)) => FloatEq(NumberAsFloat(n), f)
    case (JBool(b), SBoolean(r)) => b == r
    case (JNull, SNull) => true
    case _ => false
  }

  function JsonCmpScalar(json: Json, scalar: Scalar): Option<Ordering> {
    if !json.JNumber? then None
    else match scalar
      case SInteger(i) => FloatCmp(NumberAsFloat(json.n), Finite(AsDouble(i) as real))
      case SFloat(f) => FloatCmp(NumberAsFloat(json.n), f)
      case _ => None
  }

  predicate ScalarEq(a: Scalar, b: Scalar) {
    match (a, b)
    case (SFloat(f), SFloat(g)) => FloatEq(f, g)
    case _ => a == b
  }

  function Descend(json: Json, segments: seq<string>): Option<Json> {
    if segments == [] then Some(json)
    else if json.JObject? && segments[0] in json.fields then Descend(json.fields[segments[0]], segments[1..])
    else None
  }

  /** `FieldPath::resolve`: walk the dot-separated segments. */
  method Resolve(path: string, root: Json) returns (r: Option<Json>)
    ensures r == Descend(root, Text.Split(path, '.'))
  {
    var segments := Text.Split(path, '.');
    var current := root;
    assert segments[0..] == segments;
    for i := 0 to |segments|
      invariant Descend(root, segments) == Descend(current, segments[i..])
    {
      assert segments[i..][1..] == segments[i + 1..];
      if !current.JObject? || segments[i] !in current.fields {
        return None;
      }
      current := current.fields[segments[i]];
    }
    r := Some(current);
  }

  function Field(payload: Payload, path: string): Option<Json> {
    match payload
    case Control(value) => Descend(value, Text.Split(path, '.'))
    case Bytes(_) => None
  }

  // ---- Evaluation -----------------------------------------------------------------

  predicate FieldCompares(payload: Payload, path: string, value: Scalar, accept: set<Ordering>) {
    var v := Field(payload, path);
    v.Some? && JsonCmpScalar(v.value, value).Some? && JsonCmpScalar(v.value, value).value in accept
  }

  predicate Eval(c: Condition, payload: Payload, ctx: Context) {
    match c
    case FieldEq(path, value) =>
      var v := Field(payload, path);
      v.Some? && JsonEqScalar(v.value, value)
    case FieldNeq(path, value) =>
      var v := Field(payload, path);
      v.Some? && !JsonEqScalar(v.value, value)
    case FieldGt(path, value) => FieldCompares(payload, path, value, {Greater})
    case FieldLt(path, value) => FieldCompares(payload, path, value, {Less})
    case FieldGte(path, value) => FieldCompares(payload, path, value, {Equal, Greater})
    case FieldLte(path, value) => FieldCompares(payload, path, value, {Less, Equal})
    case FieldIn(path, values) =>
      var v := Field(payload, path);
      v.Some? && exists s | s in values :: JsonEqScalar(v.value, s)
    case FieldExists(path) => Field(payload, path).Some?
    case FieldAbsent(path) =>
      var v := Field(payload, path);
      v.None? || v.value.JNull?
    case FieldMatches(path, pattern) =>
      var v := Field(payload, path);
      v.Some? && v.value.JString? && Glob.Matches(pattern, v.value.s)
    case TagEq(key, value) => key in ctx.tags && ScalarEq(ctx.tags[key], value)
    case TagExists(key) => key in ctx.tags
    case TagAbsent(key) => key !in ctx.tags
    case SourceNode(node) => ctx.sourceNode == Some(node)
    case ArrivedOnPort(port) => ctx.arrivalPort == Some(port)
    case HopCountGt(n) => ctx.hopCount > n
    case HopCountLte(n) => ctx.hopCount <= n
    case WorkflowIs(workflow) => ctx.workflow == workflow
    case ExecutionMetadataEq(key, value) => key in ctx.metadata && ScalarEq(ctx.metadata[key], value)
    case And(all) => forall x | x in all :: Eval(x, payload, ctx)
    case Or(any) => exists x | x in any :: Eval(x, payload, ctx)
    case Not(inner) => !Eval(inner, payload, ctx)
    case Always => true
    case Never => false
  }

  /** A null field both exists and is absent: the two conditions overlap exactly there. */
  lemma ExistsAndAbsent(path: string, payload: Payload, ctx: Context)
    ensures Eval(FieldExists(path), payload, ctx) && Eval(FieldAbsent(path), payload, ctx) <==>
      Field(payload, path) == Some(JNull)
    ensures Eval(FieldExists(path), payload, ctx) || Eval(FieldAbsent(path), payload, ctx)
  {
  }
}
