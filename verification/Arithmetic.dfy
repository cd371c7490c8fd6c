/** Facts about numbers, least values and pairs of names that several components use. */
module Arithmetic {
  /** Conversion of a fraction to an integer, towards zero. */
  function Truncate(r: real): (n: int)
    ensures r >= 0.0 ==> n as real <= r < n as real + 1.0
    ensures r <= 0.0 ==> n as real - 1.0 < r <= n as real
  {
    if r >= 0.0 then r.Floor else -((-r).Floor)
  }

  lemma StepUp(k: int, n: int)
    ensures k > n <==> k as real >= n as real + 1.0
    ensures k > n <==> k as real > n as real
  {
  }

  lemma WholeIsItself(n: int, m: int)
    requires n as real - 1.0 < m as real <= n as real || n as real <= m as real < n as real + 1.0
    ensures n == m
  {
    StepUp(n, m);
    StepUp(m, n);
  }

  /** Comparing with the integer is comparing with the fraction, unless it is negative and not
      whole: then the integer is above it. */
  lemma TruncateCompares(k: int, r: real)
    ensures r >= 0.0 || r == r.Floor as real ==> (k > Truncate(r) <==> k as real > r)
    ensures r < 0.0 && r != r.Floor as real ==> Truncate(r) as real > r
  {
    hide Truncate;
    var n, m := Truncate(r), r.Floor;
    StepUp(k, n);
    if r == m as real {
      WholeIsItself(n, m);
    } else if r < 0.0 {
      if r == n as real {
        WholeIsItself(n, m);
      }
    }
  }

  lemma AtLeastOne(d: int, k: int)
    requires d > 0 && k >= 1
    ensures d * k >= d
  {
  }

  /** There is one quotient and one remainder. */
  lemma QuotientUnique(d: int, q: int, r: int, q': int, r': int)
    requires d > 0 && 0 <= r < d && 0 <= r' < d && d * q + r == d * q' + r'
    ensures q == q' && r == r'
  {
    assert d * (q - q') == d * q - d * q' && d * (q' - q) == d * q' - d * q;
    if q > q' {
      AtLeastOne(d, q - q');
    } else if q < q' {
      AtLeastOne(d, q' - q);
    }
  }

  /** Some key of a map has a least value. */
  lemma {:induction false} LeastKey(m: map<nat, int>, ids: set<nat>) returns (id: nat)
    requires ids != {} && ids <= m.Keys
    ensures id in ids && forall o :: o in ids ==> m[id] <= m[o]
    decreases ids
  {
    id :| id in ids;
    if ids != {id} {
      var other := LeastKey(m, ids - {id});
      if m[other] < m[id] {
        id := other;
      }
    }
  }

  // ------------------------------------------------------------------ texts in pairs

  /** Two texts with a separator between them. */
  function Pair(a: string, c: char, b: string): string { a + [c] + b }

  /** No other two texts give the same. */
  ghost predicate Separable(a: string, c: char, b: string)
  {
    forall x, y :: Pair(x, c, y) == Pair(a, c, b) ==> x == a && y == b
  }

  /** Two texts can be told apart from all others exactly when neither holds the separator. */
  lemma PairTellsApart(a: string, c: char, b: string)
    ensures Separable(a, c, b) <==> c !in a && c !in b
  {
    var s := Pair(a, c, b);
    if c !in a && c !in b {
      forall x, y | Pair(x, c, y) == s ensures x == a && y == b {
        assert s[|a|] == c && s[|x|] == c;
        assert |x| == |a|;
        assert s[..|a|] == a && s[..|x|] == x && s[|a| + 1..] == b && s[|x| + 1..] == y;
      }
    } else if c in a {
      var i :| 0 <= i < |a| && a[i] == c;
      assert Pair(a[..i], c, a[i + 1..] + [c] + b) == s;
    } else {
      var i :| 0 <= i < |b| && b[i] == c;
      assert Pair(a + [c] + b[..i], c, b[i + 1..]) == s;
    }
  }
}
