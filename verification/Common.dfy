/** Small vocabulary shared by every other module. */
module Common {

  datatype Option<+T> = None | Some(value: T)

  /** No element occurs twice. */
  ghost predicate Distinct<T>(s: seq<T>) {
    forall i, j :: 0 <= i < j < |s| ==> s[i] != s[j]
  }

  lemma HeadIsIn<T>(s: seq<T>)
    ensures s != [] ==> s[0] in s
  {
  }

  /** The addresses (or any naturals) lo, lo+1, ..., lo+n-1. */
  function Interval(lo: nat, n: nat): (s: set<nat>)
    ensures |s| == n
    ensures forall a :: a in s <==> lo <= a < lo + n
    decreases n
  {
    if n == 0 then {} else Interval(lo, n - 1) + {lo + n - 1}
  }

  /** An enumeration of a finite set, in no particular order: what a query without ORDER BY,
      or a range over a hash map, hands to the loop that consumes it. */
  method Enumerate<T(==)>(s: set<T>) returns (xs: seq<T>)
    ensures Distinct(xs)
    ensures forall x :: x in xs <==> x in s
  {
    xs := [];
    var rest := s;
    while rest != {}
      invariant rest <= s
      invariant Distinct(xs)
      invariant forall x :: x in xs <==> x in s && x !in rest
      decreases rest
    {
      var x :| x in rest;
      xs := xs + [x];
      rest := rest - {x};
    }
  }
}

/** Powers of two and division with remainder. */
module Arith {

  function Pow2(n: nat): (r: nat)
    ensures r > 0
  {
    if n == 0 then 1 else 2 * Pow2(n - 1)
  }

  /** Quotient and remainder are determined by the equation they solve. */
  lemma ModUnique(x: int, m: int, q: int, r: int)
    requires m > 0 && x == q * m + r && 0 <= r < m
    ensures x % m == r && x / m == q
  {
    var d := q - x / m;
    assert d * m == x % m - r;
    assert d >= 1 ==> d * m >= m;
    assert d <= -1 ==> d * m <= -m;
  }

  /** Rounding down to a multiple. */
  lemma FloorMultiple(a: nat, m: int)
    requires m > 0
    ensures (a - a % m) % m == 0 && 0 <= a - a % m <= a < a - a % m + m
  {
    assert a - a % m == (a / m) * m + 0;
    ModUnique(a - a % m, m, a / m, 0);
  }
}

/** Sums of finite maps. */
module Sums {

  ghost function Total<K>(m: map<K, int>): int
    decreases |m.Keys|
  {
    if m == map[] then 0 else
    var k :| k in m;
    assert (m - {k}).Keys == m.Keys - {k};
    m[k] + Total(m - {k})
  }

  /** The sum does not depend on which key is taken first. */
  lemma {:induction false} TotalTake<K>(m: map<K, int>, k: K)
    requires k in m
    ensures Total(m) == m[k] + Total(m - {k})
    decreases |m.Keys|
  {
    var j :| j in m && Total(m) == m[j] + Total(m - {j});
    if j != k {
      assert (m - {j}).Keys == m.Keys - {j} && (m - {k}).Keys == m.Keys - {k};
      assert (m - {j}) - {k} == (m - {k}) - {j};
      TotalTake(m - {j}, k);
      TotalTake(m - {k}, j);
    }
  }

  lemma TotalSet<K>(m: map<K, int>, k: K, v: int)
    ensures Total(m[k := v]) == Total(m) - (if k in m then m[k] else 0) + v
  {
    TotalTake(m[k := v], k);
    if k in m {
      TotalTake(m, k);
      assert m[k := v] - {k} == m - {k};
    } else {
      assert m[k := v] - {k} == m;
    }
  }

  lemma {:induction false} TotalZero<K>(m: map<K, int>)
    requires forall k :: k in m ==> m[k] == 0
    ensures Total(m) == 0
    decreases |m.Keys|
  {
    if m != map[] {
      var k :| k in m;
      TotalTake(m, k);
      assert (m - {k}).Keys == m.Keys - {k};
      TotalZero(m - {k});
    }
  }

  /** Sums add up pointwise; a key missing from c counts as zero there. */
  lemma {:induction false} TotalSplit<K>(a: map<K, int>, b: map<K, int>, c: map<K, int>)
    requires a.Keys == b.Keys && c.Keys <= a.Keys
    requires forall k :: k in a ==> a[k] == b[k] + if k in c then c[k] else 0
    ensures Total(a) == Total(b) + Total(c)
    decreases |a.Keys|
  {
    if a != map[] {
      var k :| k in a;
      TotalTake(a, k);
      TotalTake(b, k);
      assert (a - {k}).Keys == a.Keys - {k} && (b - {k}).Keys == b.Keys - {k} && (c - {k}).Keys == c.Keys - {k};
      TotalSplit(a - {k}, b - {k}, c - {k});
      if k in c { TotalTake(c, k); } else { assert c - {k} == c; }
    } else {
      assert b == map[] && c == map[];
    }
  }

  lemma {:induction false} TotalNonNegative<K>(m: map<K, int>)
    requires forall k :: k in m ==> m[k] >= 0
    ensures Total(m) >= 0
    decreases |m.Keys|
  {
    if m != map[] {
      var k :| k in m;
      TotalTake(m, k);
      assert (m - {k}).Keys == m.Keys - {k};
      TotalNonNegative(m - {k});
    }
  }
}
