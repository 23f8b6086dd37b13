/** Tiered metadata recording: control facts always, data facts sampled, high-cost facts on request. */
module Sampling {
  import opened Types

  /** `usize::MAX` on a 64-bit target. */
  const MAX_COUNT: nat := 0xFFFF_FFFF_FFFF_FFFF

  datatype Tier = ControlTier | DataTier | HighCostTier

  /** The sample rate is a `NonZeroUsize`. */
  type Rate = r: int | 0 < r <= MAX_COUNT witness 1

  datatype Policy = Policy(dataRate: Option<Rate>, highCost: bool)

  datatype Fact<T> = Fact(tier: Tier, record: T)

  predicate SamplesAt(policy: Policy, ordinal: nat) {
    policy.dataRate.Some? && ordinal % policy.dataRate.value == 0
  }

  // ---- What the inner sink should hold --------------------------------------------

  /** The data facts among those offered so far. */
  function DataCount<T>(facts: seq<Fact<T>>): (n: nat)
    ensures n <= |facts|
  {
    if facts == [] then 0
    else DataCount(facts[..|facts| - 1]) + if facts[|facts| - 1].tier.DataTier? then 1 else 0
  }

  /** A data fact's ordinal is the number of data facts before it, while that fits the counter. */
  predicate Kept<T>(policy: Policy, facts: seq<Fact<T>>, i: nat)
    requires i < |facts|
  {
    match facts[i].tier
    case ControlTier => true
    case DataTier => SamplesAt(policy, Saturated(DataCount(facts[..i])))
    case HighCostTier => policy.highCost
  }

  function Saturated(n: nat): nat {
    if n <= MAX_COUNT then n else MAX_COUNT
  }

  /** The kept facts, in the order offered. */
  function Selected<T>(policy: Policy, facts: seq<Fact<T>>): seq<Fact<T>> {
    if facts == [] then []
    else
      var n := |facts| - 1;
      var before := Selected(policy, facts[..n]);
      if Kept(policy, facts, n) then before + [facts[n]] else before
  }

  function Records<T>(facts: seq<Fact<T>>): seq<T> {
    seq(|facts|, i requires 0 <= i < |facts| => facts[i].record)
  }

  // ---- The sink -------------------------------------------------------------------

  class TieredSink<T> {
    const policy: Policy
    var dataSeen: nat
    var inner: seq<T>

    ghost predicate Holds(facts: seq<Fact<T>>)
      reads this
    {
      && dataSeen == Saturated(DataCount(facts))
      && inner == Records(Selected(policy, facts))
    }

    constructor (policy: Policy)
      ensures this.policy == policy && Holds([])
    {
      this.policy, dataSeen, inner := policy, 0, [];
    }

    method ShouldRecord(tier: Tier, ghost facts: seq<Fact<T>>, ghost record: T) returns (keep: bool)
      requires Holds(facts)
      modifies this`dataSeen
      ensures dataSeen == Saturated(DataCount(facts + [Fact(tier, record)]))
      ensures keep == Kept(policy, facts + [Fact(tier, record)], |facts|)
    {
      ghost var grown := facts + [Fact(tier, record)];
      assert grown[..|facts|] == facts;
      match tier {
        case ControlTier =>
          keep := true;
        case DataTier =>
          var ordinal := dataSeen;
          dataSeen := if dataSeen < MAX_COUNT then dataSeen + 1 else MAX_COUNT;
          keep := policy.dataRate.Some? && ordinal % policy.dataRate.value == 0;
        case HighCostTier =>
          keep := policy.highCost;
      }
    }

    /** With an inner sink that accepts everything, the offered facts and the kept ones stay in step. */
    method RecordWithTier(tier: Tier, record: T, ghost facts: seq<Fact<T>>)
      requires Holds(facts)
      modifies this
      ensures Holds(facts + [Fact(tier, record)])
    {
      ghost var grown := facts + [Fact(tier, record)];
      assert grown[..|facts|] == facts;
      var keep := ShouldRecord(tier, facts, record);
      if keep {
        inner := inner + [record];
        assert Selected(policy, grown) == Selected(policy, facts) + [Fact(tier, record)];
      } else {
        assert Selected(policy, grown) == Selected(policy, facts);
      }
    }

    /** Records without a tier are control facts. */
    method Record(record: T, ghost facts: seq<Fact<T>>)
      requires Holds(facts)
      modifies this
      ensures Holds(facts + [Fact(ControlTier, record)])
    {
      RecordWithTier(ControlTier, record, facts);
    }
  }

  // ---- What was selected ----------------------------------------------------------

  function OfTier<T>(facts: seq<Fact<T>>, tier: Tier): (r: seq<Fact<T>>)
    ensures |r| <= |facts|
  {
    if facts == [] then []
    else
      var last := facts[|facts| - 1];
      var before := OfTier(facts[..|facts| - 1], tier);
      if last.tier == tier then before + [last] else before
  }

  lemma {:induction false} OfTierAppend<T>(facts: seq<Fact<T>>, f: Fact<T>, tier: Tier)
    ensures OfTier(facts + [f], tier) == if f.tier == tier then OfTier(facts, tier) + [f] else OfTier(facts, tier)
  {
    assert (facts + [f])[..|facts|] == facts;
  }

  lemma {:induction false} DataCountIsLength<T>(facts: seq<Fact<T>>)
    ensures DataCount(facts) == |OfTier(facts, DataTier)|
  {
    if facts != [] {
      DataCountIsLength(facts[..|facts| - 1]);
    }
  }

  /** All control facts, in order; all high-cost facts or none. */
  lemma {:induction false} ControlAndHighCost<T>(policy: Policy, facts: seq<Fact<T>>)
    ensures OfTier(Selected(policy, facts), ControlTier) == OfTier(facts, ControlTier)
    ensures OfTier(Selected(policy, facts), HighCostTier) == if policy.highCost then OfTier(facts, HighCostTier) else []
  {
    if facts != [] {
      var n := |facts| - 1;
      ControlAndHighCost(policy, facts[..n]);
      OfTierAppend(Selected(policy, facts[..n]), facts[n], ControlTier);
      OfTierAppend(Selected(policy, facts[..n]), facts[n], HighCostTier);
    }
  }

  /** `out` is every `r`-th element of `s`, starting with the first: one for each `r` begun. */
  ghost predicate EveryNth<T>(out: seq<T>, s: seq<T>, r: Rate) {
    && |out| == (|s| + r - 1) / r
    && forall j | 0 <= j < |out| :: 0 <= j * r < |s| && out[j] == s[j * r]
  }

  lemma Multiple(c: int, r: int)
    requires c >= 1 && r > 0
    ensures c * r >= r
  {
    assert (c - 1) * r >= 0;
  }

  lemma Quotient(x: int, r: int, a: int, b: int)
    requires x == a * r + b && 0 <= b < r
    ensures x / r == a && x % r == b
  {
    var q, m := x / r, x % r;
    assert x == q * r + m;
    assert (a - q) * r == m - b;
    if a > q {
      Multiple(a - q, r);
    } else if a < q {
      Multiple(q - a, r);
    }
  }

  lemma RoundUpStep(n: nat, r: int)
    requires r > 0
    ensures n % r == 0 ==> (n + r - 1) / r == n / r && (n / r) * r == n && (n + r) / r == n / r + 1
    ensures n % r != 0 ==> (n + r - 1) / r == (n + r) / r
  {
    var q, m := n / r, n % r;
    assert n == q * r + m;
    Quotient(n + r, r, q + 1, m);
    if m == 0 {
      Quotient(n + r - 1, r, q, r - 1);
    } else {
      Quotient(n + r - 1, r, q + 1, m - 1);
    }
  }

  lemma NthAppend<T>(out: seq<T>, s: seq<T>, r: Rate, x: T)
    requires EveryNth(out, s, r)
    ensures EveryNth(if |s| % r == 0 then out + [x] else out, s + [x], r)
  {
    RoundUpStep(|s|, r);
    var out' := if |s| % r == 0 then out + [x] else out;
    forall j | 0 <= j < |out'| ensures 0 <= j * r < |s + [x]| && out'[j] == (s + [x])[j * r] {
      if j == |out| {
        assert j * r == |s|;
      }
    }
  }

  /**
   Of the data facts, in order, exactly those at ordinals divisible by the rate: `ceil(n / r)` of them,
   while the ordinals fit the counter.
   */
  lemma {:induction false} SampledData<T>(policy: Policy, facts: seq<Fact<T>>, r: Rate)
    requires policy.dataRate == Some(r) && DataCount(facts) <= MAX_COUNT + 1
    ensures EveryNth(OfTier(Selected(policy, facts), DataTier), OfTier(facts, DataTier), r)
  {
    if facts == [] {
      Quotient(r - 1, r, 0, r - 1);
    } else {
      var n := |facts| - 1;
      SampledData(policy, facts[..n], r);
      DataStep(policy, facts, r);
      if facts[n].tier.DataTier? {
        NthAppend(OfTier(Selected(policy, facts[..n]), DataTier), OfTier(facts[..n], DataTier), r, facts[n]);
      }
    }
  }

  /** What the last fact adds: a data fact counts, and is kept where its ordinal is divisible by the rate. */
  lemma DataStep<T>(policy: Policy, facts: seq<Fact<T>>, r: Rate)
    requires facts != [] && policy.dataRate == Some(r) && DataCount(facts) <= MAX_COUNT + 1
    ensures
      var n := |facts| - 1;
      var kept, data := OfTier(Selected(policy, facts[..n]), DataTier), OfTier(facts[..n], DataTier);
      var kept', data' := OfTier(Selected(policy, facts), DataTier), OfTier(facts, DataTier);
      if facts[n].tier.DataTier? then
        data' == data + [facts[n]] && kept' == if |data| % r == 0 then kept + [facts[n]] else kept
      else data' == data && kept' == kept
  {
    var n := |facts| - 1;
    DataCountIsLength(facts[..n]);
    OfTierAppend(Selected(policy, facts[..n]), facts[n], DataTier);
  }

  /** Without a rate no data fact is kept. */
  lemma {:induction false} NoRateNoData<T>(policy: Policy, facts: seq<Fact<T>>)
    requires policy.dataRate.None?
    ensures OfTier(Selected(policy, facts), DataTier) == []
  {
    if facts != [] {
      NoRateNoData(policy, facts[..|facts| - 1]);
      OfTierAppend(Selected(policy, facts[..|facts| - 1]), facts[|facts| - 1], DataTier);
    }
  }

  /** Past the counter's range the ordinal sticks, and data facts are from then on all kept or all dropped. */
  lemma SaturatedSampling<T>(policy: Policy, facts: seq<Fact<T>>, i: nat)
    requires i < |facts| && facts[i].tier.DataTier? && DataCount(facts[..i]) >= MAX_COUNT
    ensures Kept(policy, facts, i) <==> policy.dataRate.Some? && MAX_COUNT % policy.dataRate.value == 0
  {
  }

  /** What is selected comes from what was offered, in that order. */
  lemma {:induction false} SelectedInOrder<T>(policy: Policy, facts: seq<Fact<T>>) returns (at: seq<nat>)
    ensures |at| == |Selected(policy, facts)|
    ensures forall i | 0 <= i < |at| ::
      at[i] < |facts| && Kept(policy, facts, at[i]) && Selected(policy, facts)[i] == facts[at[i]]
    ensures forall i, j | 0 <= i < j < |at| :: at[i] < at[j]
    ensures forall k | 0 <= k < |facts| && Kept(policy, facts, k) :: k in at
  {
    at := [];
    if facts != [] {
      var n := |facts| - 1;
      at := SelectedInOrder(policy, facts[..n]);
      forall k | 0 <= k < n ensures Kept(policy, facts[..n], k) <==> Kept(policy, facts, k) {
        assert facts[..n][..k] == facts[..k];
      }
      if Kept(policy, facts, n) {
        at := at + [n];
      }
    }
  }
}
