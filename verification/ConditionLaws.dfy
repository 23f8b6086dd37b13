/** What the conditions mean, stated without their evaluation: order, equality, complements and combinators. */
module ConditionLaws {
  import opened Types
  import opened Conditions
  import Glob

  // ---- Rounding keeps order -------------------------------------------------------

  lemma {:induction false} GapBounds(n: nat)
    ensures n < EXACT_LIMIT * Gap(n)
    ensures Gap(n) > 1 ==> EXACT_LIMIT * Gap(n) <= 2 * n && Gap(n) % 2 == 0
  {
    if n >= EXACT_LIMIT {
      GapBounds(n / 2);
    }
  }

  lemma {:induction false} GapDoubles(m: nat, n: nat)
    requires m <= n
    ensures Gap(m) == Gap(n) || 2 * Gap(m) <= Gap(n)
  {
    if m >= EXACT_LIMIT {
      GapDoubles(m / 2, n / 2);
    }
  }

  /** Rounding to multiples of `u`, ties to the even multiple. */
  function RoundTo(n: nat, u: nat): nat
    requires u > 0
  {
    var down, rest := n / u, n % u;
    if 2 * rest < u || (2 * rest == u && down % 2 == 0) then down * u else (down + 1) * u
  }

  lemma MultiplesRise(a: int, b: int, u: int)
    requires a <= b && u >= 0
    ensures a * u <= b * u
  {
  }

  lemma QuotientsRise(m: nat, n: nat, u: nat)
    requires m <= n && u > 0
    ensures m / u <= n / u
    ensures m / u == n / u ==> m % u <= n % u
  {
    Division(m, u);
    Division(n, u);
    if m / u > n / u {
      MultiplesRise(n / u + 1, m / u, u);
      NextMultiple(n / u, u);
    }
  }

  lemma RoundToBetween(n: nat, u: nat)
    requires u > 0
    ensures (n / u) * u <= RoundTo(n, u) <= (n / u + 1) * u
  {
    NextMultiple(n / u, u);
  }

  lemma RoundToRises(m: nat, n: nat, u: nat)
    requires m <= n && u > 0
    ensures RoundTo(m, u) <= RoundTo(n, u)
  {
    QuotientsRise(m, n, u);
    NextMultiple(m / u, u);
    if m / u < n / u {
      MultiplesRise(m / u + 1, n / u, u);
      RoundToBetween(m, u);
      RoundToBetween(n, u);
    }
  }

  lemma QuotientAtLeast(n: nat, u: nat, k: nat)
    requires u > 0 && k * u <= n
    ensures k <= n / u
  {
    Division(n, u);
    if n / u < k {
      MultiplesRise(n / u + 1, k, u);
      NextMultiple(n / u, u);
    }
  }

  lemma QuotientBelow(n: nat, u: nat, k: nat)
    requires u > 0 && n < k * u
    ensures n / u < k
  {
    Division(n, u);
    if n / u >= k {
      MultiplesRise(k, n / u, u);
    }
  }

  const HALF_LIMIT: nat := 0x10_0000_0000_0000

  lemma RoundBelow(m: nat)
    ensures RoundNat(m) <= EXACT_LIMIT * Gap(m)
  {
    var u := Gap(m);
    GapBounds(m);
    QuotientBelow(m, u, EXACT_LIMIT);
    RoundToBetween(m, u);
    MultiplesRise(m / u + 1, EXACT_LIMIT, u);
    assert RoundNat(m) == RoundTo(m, u);
  }

  lemma RoundAbove(n: nat)
    requires Gap(n) > 1
    ensures HALF_LIMIT * Gap(n) <= RoundNat(n)
  {
    var v := Gap(n);
    GapBounds(n);
    QuotientAtLeast(n, v, HALF_LIMIT);
    RoundToBetween(n, v);
    MultiplesRise(HALF_LIMIT, n / v, v);
    assert RoundNat(n) == RoundTo(n, v);
  }

  /** A number never rounds past the point where the gap between doubles widens. */
  lemma RoundAcross(m: nat, n: nat)
    requires 2 * Gap(m) <= Gap(n)
    ensures RoundNat(m) <= RoundNat(n)
  {
    RoundBelow(m);
    RoundAbove(n);
  }

  lemma RoundNatRises(m: nat, n: nat)
    requires m <= n
    ensures RoundNat(m) <= RoundNat(n)
  {
    GapDoubles(m, n);
    if Gap(m) == Gap(n) {
      RoundToRises(m, n, Gap(m));
    } else {
      RoundAcross(m, n);
    }
  }

  /** An integer of at most 53 bits. */
  predicate Exact(i: int) {
    0 - EXACT_LIMIT < i < EXACT_LIMIT
  }

  /** Converting to doubles is odd and keeps the order of integers, if not always strictly. */
  lemma DoublesKeepOrder(i: int, j: int)
    ensures AsDouble(-i) == -AsDouble(i)
    ensures i <= j ==> AsDouble(i) <= AsDouble(j)
    ensures Exact(i) ==> AsDouble(i) == i
  {
    assert RoundNat(0) == 0;
    if i <= j {
      if i >= 0 {
        RoundNatRises(i, j);
      } else if j < 0 {
        RoundNatRises(-j, -i);
      }
    }
    RoundingError(if i < 0 then -i else i);
  }

  // ---- Comparisons ----------------------------------------------------------------

  predicate Gt(payload: Payload, path: string, s: Scalar, ctx: Context) {
    Eval(FieldGt(path, s), payload, ctx)
  }

  predicate Lt(payload: Payload, path: string, s: Scalar, ctx: Context) {
    Eval(FieldLt(path, s), payload, ctx)
  }

  predicate Gte(payload: Payload, path: string, s: Scalar, ctx: Context) {
    Eval(FieldGte(path, s), payload, ctx)
  }

  predicate Lte(payload: Payload, path: string, s: Scalar, ctx: Context) {
    Eval(FieldLte(path, s), payload, ctx)
  }

  /** A number is compared with a number. */
  predicate Comparable(payload: Payload, path: string, s: Scalar) {
    && Field(payload, path).Some? && Field(payload, path).value.JNumber?
    && (s.SInteger? || (s.SFloat? && !s.f.NaN?))
  }

  /** Comparable numbers are less, greater or both at most and at least; other things are none of it. */
  lemma Trichotomy(payload: Payload, path: string, s: Scalar, ctx: Context)
    ensures Gte(payload, path, s, ctx) <==> Comparable(payload, path, s) && !Lt(payload, path, s, ctx)
    ensures Lte(payload, path, s, ctx) <==> Comparable(payload, path, s) && !Gt(payload, path, s, ctx)
    ensures Gt(payload, path, s, ctx) ==> Comparable(payload, path, s) && !Lt(payload, path, s, ctx)
    ensures Lt(payload, path, s, ctx) ==> Comparable(payload, path, s)
  {
  }

  /** Integers of at most 53 bits compare as integers. */
  lemma IntegersCompare(payload: Payload, path: string, j: JsonInt, i: Int64, ctx: Context)
    requires Field(payload, path) == Some(JNumber(IntNumber(j))) && Exact(j) && Exact(i)
    ensures Gt(payload, path, SInteger(i), ctx) <==> j > i
    ensures Lt(payload, path, SInteger(i), ctx) <==> j < i
  {
    DoublesKeepOrder(j, j);
    DoublesKeepOrder(i, i);
  }

  /** Larger ones may compare as equal, but never the wrong way round. */
  lemma LargeIntegersCompare(payload: Payload, path: string, j: JsonInt, i: Int64, ctx: Context)
    requires Field(payload, path) == Some(JNumber(IntNumber(j)))
    ensures Gt(payload, path, SInteger(i), ctx) <==> j > i && AsDouble(j) != AsDouble(i)
    ensures Lt(payload, path, SInteger(i), ctx) <==> j < i && AsDouble(j) != AsDouble(i)
  {
    DoublesKeepOrder(j, i);
    DoublesKeepOrder(i, j);
  }

  /** Finite floats compare as real numbers. */
  lemma FloatsCompare(payload: Payload, path: string, v: real, w: real, ctx: Context)
    requires Field(payload, path) == Some(JNumber(FloatNumber(v)))
    ensures Gt(payload, path, SFloat(Finite(w)), ctx) <==> v > w
    ensures Lt(payload, path, SFloat(Finite(w)), ctx) <==> v < w
    ensures Eval(FieldEq(path, SFloat(Finite(w))), payload, ctx) <==> v == w
  {
  }

  /** Every number lies strictly between the infinities. */
  lemma InfinitiesBound(payload: Payload, path: string, ctx: Context)
    requires Field(payload, path).Some? && Field(payload, path).value.JNumber?
    ensures Lt(payload, path, SFloat(PosInf), ctx) && !Gt(payload, path, SFloat(PosInf), ctx)
    ensures Gt(payload, path, SFloat(NegInf), ctx) && !Lt(payload, path, SFloat(NegInf), ctx)
  {
  }

  // ---- Equality -------------------------------------------------------------------

  /** One JSON value equals at most one scalar of each kind. */
  lemma EqualsOneOfAKind(json: Json, a: Scalar, b: Scalar)
    requires JsonEqScalar(json, a) && JsonEqScalar(json, b)
    requires a.SString? == b.SString? && a.SInteger? == b.SInteger? && a.SFloat? == b.SFloat?
    ensures a == b
  {
  }

  /** What equals a scalar is of its kind; a number may equal an integer and a float. */
  lemma EqualsItsKind(json: Json, a: Scalar)
    requires JsonEqScalar(json, a)
    ensures json.JString? <==> a.SString?
    ensures json.JBool? <==> a.SBoolean?
    ensures json.JNull? <==> a.SNull?
    ensures json.JNumber? <==> a.SInteger? || a.SFloat?
    ensures a.SString? ==> json == JString(a.s)
    ensures a.SInteger? ==> json == JNumber(IntNumber(a.i))
    ensures a.SBoolean? ==> json == JBool(a.b)
  {
  }

  /** Tags and metadata equal themselves, and nothing else; NaN does not even that. */
  lemma ScalarsEqualThemselves(a: Scalar, b: Scalar)
    ensures ScalarEq(a, b) <==> a == b && a != SFloat(NaN)
  {
  }

  /** A field that exists equals the value or differs from it; one that does not exist does neither. */
  lemma EqualOrNot(path: string, s: Scalar, payload: Payload, ctx: Context)
    ensures Eval(FieldExists(path), payload, ctx) <==>
      Eval(FieldEq(path, s), payload, ctx) || Eval(FieldNeq(path, s), payload, ctx)
    ensures !(Eval(FieldEq(path, s), payload, ctx) && Eval(FieldNeq(path, s), payload, ctx))
  {
  }

  lemma InIsSomeEqual(path: string, values: seq<Scalar>, payload: Payload, ctx: Context)
    ensures Eval(FieldIn(path, values), payload, ctx) <==>
      exists s | s in values :: Eval(FieldEq(path, s), payload, ctx)
  {
    if Eval(FieldIn(path, values), payload, ctx) {
      var s :| s in values && JsonEqScalar(Field(payload, path).value, s);
      assert Eval(FieldEq(path, s), payload, ctx);
    }
  }

  predicate NoWildcard(pattern: string) {
    '*' !in pattern && '?' !in pattern
  }

  lemma {:induction false} PlainPatternIsEquality(pattern: string, value: string)
    requires NoWildcard(pattern)
    ensures Glob.Matches(pattern, value) <==> pattern == value
  {
    if pattern != [] && value != [] {
      assert pattern[0] in pattern;
      PlainPatternIsEquality(pattern[1..], value[1..]);
      assert pattern == [pattern[0]] + pattern[1..] && value == [value[0]] + value[1..];
    } else if pattern != [] {
      assert pattern[0] in pattern;
    }
  }

  /** A pattern without wildcards tests for equality, and only strings match patterns. */
  lemma MatchIsEquality(path: string, pattern: string, payload: Payload, ctx: Context)
    ensures NoWildcard(pattern) ==>
      (Eval(FieldMatches(path, pattern), payload, ctx) <==> Eval(FieldEq(path, SString(pattern)), payload, ctx))
    ensures Eval(FieldMatches(path, "*"), payload, ctx) <==>
      Field(payload, path).Some? && Field(payload, path).value.JString?
  {
    if Field(payload, path).Some? && Field(payload, path).value.JString? {
      Glob.StarMatchesAll(Field(payload, path).value.s);
      if NoWildcard(pattern) {
        PlainPatternIsEquality(pattern, Field(payload, path).value.s);
      }
    }
  }

  /** Bytes have no fields: only absence holds of them. */
  lemma BytesHaveNoFields(path: string, bytes: seq<bv8>, s: Scalar, pattern: string, ctx: Context)
    ensures !Eval(FieldExists(path), Bytes(bytes), ctx) && Eval(FieldAbsent(path), Bytes(bytes), ctx)
    ensures !Eval(FieldEq(path, s), Bytes(bytes), ctx) && !Eval(FieldMatches(path, pattern), Bytes(bytes), ctx)
    ensures !Comparable(Bytes(bytes), path, s)
  {
  }

  // ---- Context --------------------------------------------------------------------

  lemma TagsComplement(key: string, s: Scalar, payload: Payload, ctx: Context)
    ensures Eval(TagAbsent(key), payload, ctx) <==> !Eval(TagExists(key), payload, ctx)
    ensures Eval(TagExists(key), payload, ctx) <==> key in ctx.tags.Keys
    ensures Eval(TagEq(key, s), payload, ctx) <==> key in ctx.tags && ctx.tags[key] == s && s != SFloat(NaN)
  {
    if key in ctx.tags {
      ScalarsEqualThemselves(ctx.tags[key], s);
    }
  }

  lemma MetadataEquals(key: string, s: Scalar, payload: Payload, ctx: Context)
    ensures Eval(ExecutionMetadataEq(key, s), payload, ctx) <==>
      key in ctx.metadata && ctx.metadata[key] == s && s != SFloat(NaN)
  {
    if key in ctx.metadata {
      ScalarsEqualThemselves(ctx.metadata[key], s);
    }
  }

  /** The hop count is the one number it is at most, and more than its predecessor. */
  lemma HopsComplement(n: nat, payload: Payload, ctx: Context)
    ensures Eval(HopCountLte(n), payload, ctx) <==> !Eval(HopCountGt(n), payload, ctx)
    ensures n == ctx.hopCount <==>
      Eval(HopCountLte(n), payload, ctx) && (n > 0 ==> Eval(HopCountGt(n - 1), payload, ctx))
  {
  }

  /** Of all workflows, source nodes and arrival ports, only the packet's own satisfy the test for them. */
  lemma OnlyItsOwn(id: string, payload: Payload, ctx: Context)
    ensures Eval(WorkflowIs(id), payload, ctx) <==> id == ctx.workflow
    ensures Eval(SourceNode(id), payload, ctx) <==> ctx.sourceNode == Some(id)
    ensures Eval(ArrivedOnPort(id), payload, ctx) <==> ctx.arrivalPort == Some(id)
  {
  }

  // ---- Combinators ----------------------------------------------------------------

  /** The values of several conditions, one by one. */
  function Values(cs: seq<Condition>, payload: Payload, ctx: Context): seq<bool> {
    seq(|cs|, i requires 0 <= i < |cs| => Eval(cs[i], payload, ctx))
  }

  lemma AndIsNoneFalse(cs: seq<Condition>, payload: Payload, ctx: Context)
    ensures Eval(And(cs), payload, ctx) <==> false !in Values(cs, payload, ctx)
  {
    var values := Values(cs, payload, ctx);
    if Eval(And(cs), payload, ctx) {
      forall i | 0 <= i < |cs| ensures values[i] {
        assert cs[i] in cs;
      }
    } else {
      var c :| c in cs && !Eval(c, payload, ctx);
      var i :| 0 <= i < |cs| && cs[i] == c;
      assert !values[i];
    }
  }

  lemma OrIsSomeTrue(cs: seq<Condition>, payload: Payload, ctx: Context)
    ensures Eval(Or(cs), payload, ctx) <==> true in Values(cs, payload, ctx)
  {
    var values := Values(cs, payload, ctx);
    if Eval(Or(cs), payload, ctx) {
      var c :| c in cs && Eval(c, payload, ctx);
      var i :| 0 <= i < |cs| && cs[i] == c;
      assert values[i];
    } else {
      forall i | 0 <= i < |cs| ensures !values[i] {
        assert cs[i] in cs;
      }
    }
  }

  lemma NotIsOpposite(c: Condition, payload: Payload, ctx: Context)
    ensures Eval(Not(c), payload, ctx) <==> !Eval(c, payload, ctx)
    ensures Eval(Always, payload, ctx) && !Eval(Never, payload, ctx)
  {
  }

  function Negated(cs: seq<Condition>): seq<Condition> {
    seq(|cs|, i requires 0 <= i < |cs| => Not(cs[i]))
  }

  lemma NegatedValues(cs: seq<Condition>, payload: Payload, ctx: Context)
    ensures |Values(Negated(cs), payload, ctx)| == |Values(cs, payload, ctx)| == |cs|
    ensures forall i | 0 <= i < |cs| :: Values(Negated(cs), payload, ctx)[i] == !Values(cs, payload, ctx)[i]
  {
    forall i | 0 <= i < |cs| ensures Values(Negated(cs), payload, ctx)[i] == !Values(cs, payload, ctx)[i] {
      NotIsOpposite(cs[i], payload, ctx);
    }
  }

  lemma Opposites(a: seq<bool>, b: seq<bool>)
    requires |a| == |b| && forall i | 0 <= i < |a| :: a[i] == !b[i]
    ensures true in a <==> false in b
    ensures false in a <==> true in b
  {
    assert forall i | 0 <= i < |a| :: a[i] in a && b[i] in b;
  }

  /** De Morgan. */
  lemma DeMorgan(cs: seq<Condition>, payload: Payload, ctx: Context)
    ensures Eval(Or(Negated(cs)), payload, ctx) <==> !Eval(And(cs), payload, ctx)
    ensures Eval(And(Negated(cs)), payload, ctx) <==> !Eval(Or(cs), payload, ctx)
  {
    AndIsNoneFalse(cs, payload, ctx);
    OrIsSomeTrue(cs, payload, ctx);
    AndIsNoneFalse(Negated(cs), payload, ctx);
    OrIsSomeTrue(Negated(cs), payload, ctx);
    NegatedValues(cs, payload, ctx);
    Opposites(Values(Negated(cs), payload, ctx), Values(cs, payload, ctx));
  }

  /** The empty conjunction is true and the empty disjunction false. */
  lemma EmptyCombinations(payload: Payload, ctx: Context)
    ensures Eval(And([]), payload, ctx) && !Eval(Or([]), payload, ctx)
  {
    AndIsNoneFalse([], payload, ctx);
    OrIsSomeTrue([], payload, ctx);
  }
}
