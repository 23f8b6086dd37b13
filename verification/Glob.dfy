/** Glob patterns for string conditions: `*` matches any sequence, `?` any single character. */
module Glob {

  function Matches(pattern: string, value: string): bool
    decreases |pattern| + |value|
  {
    if pattern == [] then value == []
    else if pattern[0] == '*' then
      Matches(pattern[1..], value) || (value != [] && Matches(pattern, value[1..]))
    else if value == [] then false
    else (pattern[0] == '?' || pattern[0] == value[0]) && Matches(pattern[1..], value[1..])
  }

  /** Some split of `value` matches the two patterns one after the other. */
  ghost predicate SplitMatches(p: string, q: string, value: string) {
    exists k | 0 <= k <= |value| :: Matches(p, value[..k]) && Matches(q, value[k..])
  }

  /** Concatenated patterns match exactly the concatenations of what they match. */
  lemma {:induction false} Compositional(p: string, q: string, value: string)
    ensures Matches(p + q, value) <==> SplitMatches(p, q, value)
    decreases |p| + |value|
  {
    if p == [] {
      assert p + q == q;
      assert value[..0] == [] && value[0..] == value;
      assert forall k | 0 < k <= |value| :: !Matches(p, value[..k]);
    } else {
      assert (p + q)[0] == p[0] && (p + q)[1..] == p[1..] + q;
      if p[0] == '*' {
        Compositional(p[1..], q, value);
        if value != [] {
          Compositional(p, q, value[1..]);
          StarSplit(p, q, value);
        }
        StarPrefix(p, q, value);
      } else if value != [] {
        Compositional(p[1..], q, value[1..]);
        HeadSplit(p, q, value);
      }
    }
  }

  /** How a split of `value` after a leading `*` relates to splits without it or one character later. */
  lemma StarPrefix(p: string, q: string, value: string)
    requires p != [] && p[0] == '*'
    ensures SplitMatches(p[1..], q, value) ==> SplitMatches(p, q, value)
    ensures SplitMatches(p, q, value) ==>
      SplitMatches(p[1..], q, value) || (value != [] && SplitMatches(p, q, value[1..]))
  {
    if SplitMatches(p[1..], q, value) {
      var k :| 0 <= k <= |value| && Matches(p[1..], value[..k]) && Matches(q, value[k..]);
      assert Matches(p, value[..k]);
    }
    if SplitMatches(p, q, value) {
      var k :| 0 <= k <= |value| && Matches(p, value[..k]) && Matches(q, value[k..]);
      if !Matches(p[1..], value[..k]) {
        assert value[..k][1..] == value[1..][..k - 1] && value[1..][k - 1..] == value[k..];
      }
    }
  }

  lemma StarSplit(p: string, q: string, value: string)
    requires p != [] && p[0] == '*' && value != []
    ensures SplitMatches(p, q, value[1..]) ==> SplitMatches(p, q, value)
  {
    if SplitMatches(p, q, value[1..]) {
      var k :| 0 <= k <= |value| - 1 && Matches(p, value[1..][..k]) && Matches(q, value[1..][k..]);
      assert value[..k + 1][1..] == value[1..][..k] && value[1..][k..] == value[k + 1..];
      assert Matches(p, value[..k + 1]);
    }
  }

  lemma HeadSplit(p: string, q: string, value: string)
    requires p != [] && p[0] != '*' && value != []
    ensures SplitMatches(p, q, value) <==>
      (p[0] == '?' || p[0] == value[0]) && SplitMatches(p[1..], q, value[1..])
  {
    if SplitMatches(p, q, value) {
      var k :| 0 <= k <= |value| && Matches(p, value[..k]) && Matches(q, value[k..]);
      assert value[..k][1..] == value[1..][..k - 1] && value[1..][k - 1..] == value[k..];
    }
    if (p[0] == '?' || p[0] == value[0]) && SplitMatches(p[1..], q, value[1..]) {
      var k :| 0 <= k <= |value| - 1 && Matches(p[1..], value[1..][..k]) && Matches(q, value[1..][k..]);
      assert value[..k + 1][1..] == value[1..][..k] && value[1..][k..] == value[k + 1..];
      assert Matches(p, value[..k + 1]);
    }
  }

  function Reverse(s: string): (r: string)
    ensures |r| == |s|
  {
    if s == [] then [] else Reverse(s[1..]) + [s[0]]
  }

  lemma {:induction false} ReverseConcat(a: string, b: string)
    ensures Reverse(a + b) == Reverse(b) + Reverse(a)
  {
    if a == [] {
      assert a + b == b;
    } else {
      assert (a + b)[1..] == a[1..] + b;
      ReverseConcat(a[1..], b);
    }
  }

  /** A one-symbol pattern does not notice reversal. */
  lemma {:induction false} ReverseSymbol(c: char, value: string)
    ensures Matches([c], value) <==> Matches([c], Reverse(value))
  {
    if c == '*' {
      StarMatchesAll(value);
      StarMatchesAll(Reverse(value));
    } else if |value| == 1 {
      assert Reverse(value[1..]) == [];
    } else if |value| > 1 {
      assert value[1..] != [] && Reverse(value)[1..] != [];
    }
  }

  lemma {:induction false} StarMatchesAll(value: string)
    ensures Matches("*", value)
  {
    if value != [] {
      StarMatchesAll(value[1..]);
    }
  }

  /** Matching is invariant under reversing both pattern and value. */
  lemma {:induction false} ReversalInvariant(p: string, value: string)
    ensures Matches(p, value) <==> Matches(Reverse(p), Reverse(value))
    decreases |p|
  {
    if p == [] {
      assert Reverse(p) == [];
    } else {
      var head, tail := [p[0]], p[1..];
      assert p == head + tail;
      Compositional(head, tail, value);
      Compositional(Reverse(tail), head, Reverse(value));
      if Matches(p, value) {
        var k :| 0 <= k <= |value| && Matches(head, value[..k]) && Matches(tail, value[k..]);
        ReversalInvariant(tail, value[k..]);
        SplitReverses(head, tail, value, k);
      }
      if Matches(Reverse(p), Reverse(value)) {
        var j :| 0 <= j <= |value|
          && Matches(Reverse(tail), Reverse(value)[..j]) && Matches(head, Reverse(value)[j..]);
        ReversalInvariant(tail, value[|value| - j..]);
        SplitReverses(head, tail, value, |value| - j);
      }
    }
  }

  lemma SplitReverses(head: string, tail: string, value: string, k: nat)
    requires |head| == 1 && k <= |value|
    requires Matches(tail, value[k..]) <==> Matches(Reverse(tail), Reverse(value[k..]))
    ensures Matches(head, value[..k]) <==> Matches(head, Reverse(value)[|value| - k..])
    ensures Matches(tail, value[k..]) <==> Matches(Reverse(tail), Reverse(value)[..|value| - k])
  {
    assert value == value[..k] + value[k..];
    ReverseConcat(value[..k], value[k..]);
    ReverseSymbol(head[0], value[..k]);
    assert head == [head[0]];
  }

  /** The symbols: with composition they settle what every pattern matches. */
  lemma Symbols(c: char, value: string)
    ensures Matches("", value) <==> value == ""
    ensures Matches("*", value)
    ensures Matches("?", value) <==> |value| == 1
    ensures c != '*' && c != '?' ==> (Matches([c], value) <==> value == [c])
  {
    StarMatchesAll(value);
    if value != [] {
      assert value == [value[0]] + value[1..];
      assert Matches([], value[1..]) <==> value[1..] == [];
    }
  }
}
