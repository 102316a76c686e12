/** How the source's random draws and int() conversions are represented.
    Every draw is an explicit argument of the operation that makes it. */
module Sampling {

  /** Python's int() of a float: rounds toward zero. */
  function Trunc(x: real): (r: int)
    ensures x >= 0.0 ==> 0 <= r && r as real <= x < r as real + 1.0
    ensures x < 0.0 ==> r <= 0 && r as real - 1.0 < x <= r as real
  {
    if x >= 0.0 then x.Floor else -((-x).Floor)
  }

  /** math.ceil: the least integer not below x. */
  function Ceil(x: real): (r: int)
    ensures r as real - 1.0 < x <= r as real
  {
    -((-x).Floor)
  }

  /** int(size * frac): how many positions an anomaly fraction selects. */
  function Count(size: int, frac: real): int
  {
    Trunc(size as real * frac)
  }

  /** For a fraction strictly between 0 and 1 the count is a valid sample
      size, below size whenever there is anything to choose from. */
  lemma CountBounds(size: nat, frac: real)
    requires 0.0 < frac < 1.0
    ensures 0 <= Count(size, frac) <= size
    ensures size > 0 ==> Count(size, frac) < size
  {
    var x := size as real * frac;
    assert 0.0 <= x;
    assert size > 0 ==> x < size as real;
  }

  /** For a non-negative fraction the count is floor(size * frac). */
  lemma CountIsFloor(size: nat, frac: real)
    requires 0.0 <= frac
    ensures Count(size, frac) == (size as real * frac).Floor
  {
    assert 0.0 <= size as real * frac;
  }

  /** A sample of np.random.uniform(low, high): numpy computes
      low + (high - low) * w from a unit sample w in [0, 1). */
  function Uniform(low: real, high: real, w: real): real
  {
    low + (high - low) * w
  }

  /** x lies between a and b, whichever of the two is larger. */
  predicate Between(x: real, a: real, b: real)
  {
    (a <= x <= b) || (b <= x <= a)
  }

  /** A stream of unit samples (numpy's random_sample). */
  ghost predicate UnitSamples(w: nat -> real)
  {
    forall k: nat :: 0.0 <= w(k) < 1.0
  }

  /** A uniform sample lies between its two bounds, and below high when
      low < high. */
  lemma UniformBetween(low: real, high: real, w: real)
    requires 0.0 <= w < 1.0
    ensures Between(Uniform(low, high, w), low, high)
    ensures low < high ==> low <= Uniform(low, high, w) < high
  {
    var d := high - low;
    assert Uniform(low, high, w) == low + d * w;
    if d >= 0.0 {
      assert 0.0 <= d * w <= d;
      assert d > 0.0 ==> d * w < d;
    } else {
      assert d <= d * w <= 0.0;
    }
  }

  /** No index occurs twice. */
  predicate Distinct(idx: seq<nat>)
  {
    forall i, j :: 0 <= i < j < |idx| ==> idx[i] != idx[j]
  }

  /** Every index is below n. */
  predicate InRange(idx: seq<nat>, n: int)
  {
    forall k :: 0 <= k < |idx| ==> idx[k] < n
  }

  /** p orders 0 .. n-1. np.random.choice(n, k, replace=False) returns the
      first k entries of such a permutation. */
  predicate IsPermutation(p: seq<nat>, n: int)
  {
    |p| == n && InRange(p, n) && Distinct(p)
  }

  /** A prefix of a permutation is a choice of distinct indices in range. */
  lemma PermutationPrefix(p: seq<nat>, n: int, k: nat)
    requires IsPermutation(p, n) && k <= n
    ensures |p[..k]| == k && Distinct(p[..k]) && InRange(p[..k], n)
  {
  }

  /** int(x / y) of two non-negative whole numbers is their floor quotient. */
  lemma TruncQuotient(x: nat, y: nat)
    requires y > 0
    ensures Trunc(x as real / y as real) == x / y
  {
    var q, r := x / y, x % y;
    var yr := y as real;
    assert (x as real) == (q as real) * yr + r as real;
    assert (x as real) / yr == q as real + (r as real) / yr;
    assert 0.0 <= (r as real) / yr < 1.0;
  }

  /** len(range(0, n, d)) is the ceiling of n / d: the least c with n <= c * d. */
  lemma CeilQuotient(n: nat, d: nat, c: nat)
    requires d > 0 && n <= c * d < n + d
    ensures c == (n + d - 1) / d
  {
    var q, rem := (n + d - 1) / d, (n + d - 1) % d;
    assert q * d + rem == n + d - 1 && 0 <= rem < d;
    if q < c {
      MulMonotone(q + 1, c, d);
    } else if q > c {
      MulMonotone(c + 1, q, d);
    }
  }

  lemma MulMonotone(a: int, b: int, d: nat)
    requires a <= b
    ensures a * d <= b * d
  {
    assert b * d - a * d == (b - a) * d;
  }

  lemma NonNegProduct(a: real, b: real)
    requires a >= 0.0 && b >= 0.0
    ensures a * b >= 0.0
  {
  }
}
