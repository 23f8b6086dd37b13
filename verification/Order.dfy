/** The order of identifiers, by which the source's sorted sets and maps iterate. */
module Order {

  /** Lexicographic by character, which on UTF-8 text is the order of the bytes. */
  predicate Precedes(a: string, b: string) {
    b != [] && (a == [] || a[0] < b[0] || (a[0] == b[0] && Precedes(a[1..], b[1..])))
  }

  lemma {:induction false} Irreflexive(a: string)
    ensures !Precedes(a, a)
  {
    if a != [] {
      Irreflexive(a[1..]);
    }
  }

  lemma {:induction false} Transitive(a: string, b: string, c: string)
    requires Precedes(a, b) && Precedes(b, c)
    ensures Precedes(a, c)
  {
    if a != [] && a[0] == b[0] == c[0] {
      Transitive(a[1..], b[1..], c[1..]);
    }
  }

  lemma {:induction false} Total(a: string, b: string)
    ensures a == b || Precedes(a, b) || Precedes(b, a)
  {
    if a != [] && b != [] && a[0] == b[0] {
      Total(a[1..], b[1..]);
      assert a == [a[0]] + a[1..] && b == [b[0]] + b[1..];
    }
  }

  /** `m` precedes every other element. */
  ghost predicate IsLeast(m: string, s: set<string>) {
    m in s && forall x | x in s :: x == m || Precedes(m, x)
  }

  /** The first element of a sorted set. */
  method Least(s: set<string>) returns (m: string)
    requires s != {}
    ensures IsLeast(m, s)
  {
    m :| m in s;
    var todo := s - {m};
    while todo != {}
      invariant todo <= s && IsLeast(m, s - todo)
      decreases todo
    {
      var x :| x in todo;
      todo := todo - {x};
      Total(m, x);
      if Precedes(x, m) {
        forall y | y in s - todo && y != x ensures Precedes(x, y) {
          if y != m {
            Transitive(x, m, y);
          }
        }
        m := x;
      }
    }
    assert s - todo == s;
  }

  predicate Ascending(s: seq<string>) {
    forall i, j | 0 <= i < j < |s| :: Precedes(s[i], s[j])
  }

  /** Two lists agree up to some position, at which the first has the smaller element. */
  ghost predicate ListedBefore(a: seq<string>, b: seq<string>) {
    exists k: nat :: DiffersAt(a, b, k) && Precedes(a[k], b[k])
  }

  predicate DiffersAt(a: seq<string>, b: seq<string>, k: nat) {
    k < |a| && k < |b| && a[..k] == b[..k] && a[k] != b[k]
  }

  lemma {:induction false} FirstDifference(a: seq<string>, b: seq<string>) returns (k: nat)
    requires |a| == |b| && a != b
    ensures DiffersAt(a, b, k)
  {
    if a[0] != b[0] {
      k := 0;
    } else {
      var j := FirstDifference(a[1..], b[1..]);
      k := j + 1;
      assert a[..k] == [a[0]] + a[1..][..j] && b[..k] == [b[0]] + b[1..][..j];
    }
  }

  /** Two strings agree up to some point, where the first ends or has the smaller character. */
  ghost predicate SmallerAt(a: string, b: string, k: nat) {
    k <= |a| && k < |b| && a[..k] == b[..k] && (k == |a| || a[k] < b[k])
  }

  /** The order is that of dictionaries. */
  lemma {:induction false} PrecedesIff(a: string, b: string)
    ensures Precedes(a, b) <==> exists k: nat :: SmallerAt(a, b, k)
  {
    if b != [] && (a == [] || a[0] < b[0]) {
      assert SmallerAt(a, b, 0);
    } else if b != [] && a[0] == b[0] {
      PrecedesIff(a[1..], b[1..]);
      if Precedes(a, b) {
        var k: nat :| SmallerAt(a[1..], b[1..], k);
        assert a[..k + 1] == [a[0]] + a[1..][..k] && b[..k + 1] == [b[0]] + b[1..][..k];
        assert SmallerAt(a, b, k + 1);
      }
      if k: nat :| SmallerAt(a, b, k) {
        assert k > 0;
        assert a[1..][..k - 1] == a[..k][1..] && b[1..][..k - 1] == b[..k][1..];
        assert SmallerAt(a[1..], b[1..], k - 1);
      }
    } else if b != [] {
      forall k: nat ensures !SmallerAt(a, b, k) {
        assert k > 0 && k <= |a| && k < |b| ==> a[..k][0] != b[..k][0];
      }
    }
  }
}
