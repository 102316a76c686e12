/** Overwriting chosen positions of a series, the step shared by the pointwise
    injectors (utils/timeseries.py anomalize and gen_series_anomaly). */
module Injection {
  import opened Sampling

  /** The series after vals[k] has been written at idx[k], for k in order. */
  function Injected(s: seq<real>, idx: seq<nat>, vals: seq<real>): (r: seq<real>)
    requires |vals| == |idx| && InRange(idx, |s|)
    ensures |r| == |s|
    decreases |idx|
  {
    if idx == [] then s
    else Injected(s, idx[..|idx| - 1], vals[..|vals| - 1])[idx[|idx| - 1] := vals[|vals| - 1]]
  }

  /** The n injected values loc + uniform(low, high), one per unit sample. */
  function Draws(n: nat, loc: real, low: real, high: real, w: nat -> real): (vals: seq<real>)
    ensures |vals| == n
  {
    seq(n, k requires 0 <= k < n => loc + Uniform(low, high, w(k)))
  }

  /** The positions an injection writes to. */
  function Touched(idx: seq<nat>): set<nat>
  {
    set k | 0 <= k < |idx| :: idx[k]
  }

  /** With distinct indices, each chosen position holds its own value and every
      other position keeps the value it had. */
  lemma {:induction false} InjectedAt(s: seq<real>, idx: seq<nat>, vals: seq<real>)
    requires |vals| == |idx| && InRange(idx, |s|) && Distinct(idx)
    ensures forall k :: 0 <= k < |idx| ==> Injected(s, idx, vals)[idx[k]] == vals[k]
    ensures forall j :: 0 <= j < |s| && j !in Touched(idx) ==> Injected(s, idx, vals)[j] == s[j]
    decreases |idx|
  {
    if idx != [] {
      var n := |idx|;
      var idx', vals' := idx[..n - 1], vals[..n - 1];
      InjectedAt(s, idx', vals');
      assert Touched(idx) == Touched(idx') + {idx[n - 1]};
    }
  }

  /** Distinct indices touch exactly as many positions as there are indices. */
  lemma {:induction false} TouchedSize(idx: seq<nat>)
    requires Distinct(idx)
    ensures |Touched(idx)| == |idx|
    decreases |idx|
  {
    if idx != [] {
      var n := |idx|;
      var idx' := idx[..n - 1];
      TouchedSize(idx');
      assert Touched(idx) == Touched(idx') + {idx[n - 1]};
      assert idx[n - 1] !in Touched(idx');
    }
  }

  /** r is s with exactly the n positions of `chosen` overwritten, each by
      loc plus a value between low and high, and every other position kept. */
  ghost predicate Overwrites(s: seq<real>, r: seq<real>, chosen: set<nat>, n: nat, loc: real, low: real, high: real)
  {
    && |r| == |s|
    && |chosen| == n
    && (forall j :: 0 <= j < |s| && j !in chosen ==> r[j] == s[j])
    && (forall j :: j in chosen ==> 0 <= j < |s| && Between(r[j] - loc, low, high))
  }

  /** Overwriting distinct in-range positions with uniform draws: exactly
      |idx| positions are touched, each holds loc plus a value between the two
      bounds, and every other position keeps its value. */
  lemma DrawsInjected(s: seq<real>, idx: seq<nat>, loc: real, low: real, high: real, w: nat -> real)
    requires InRange(idx, |s|) && Distinct(idx) && UnitSamples(w)
    ensures Overwrites(s, Injected(s, idx, Draws(|idx|, loc, low, high, w)), Touched(idx), |idx|, loc, low, high)
  {
    var vals := Draws(|idx|, loc, low, high, w);
    var r := Injected(s, idx, vals);
    InjectedAt(s, idx, vals);
    TouchedSize(idx);
    forall j | j in Touched(idx)
      ensures 0 <= j < |s| && Between(r[j] - loc, low, high)
    {
      var k :| 0 <= k < |idx| && idx[k] == j;
      assert r[j] - loc == Uniform(low, high, w(k));
      UniformBetween(low, high, w(k));
    }
    assert Overwrites(s, r, Touched(idx), |idx|, loc, low, high);
  }

  /** The loop `for idx in idx_list: arr[idx] = loc + uniform(low, high)`
      shared by anomalize and gen_series_anomaly, run in place. */
  method InjectInPlace(a: array<real>, idx: seq<nat>, loc: real, low: real, high: real, w: nat -> real)
    requires InRange(idx, a.Length)
    modifies a
    ensures a[..] == Injected(old(a[..]), idx, Draws(|idx|, loc, low, high, w))
  {
    ghost var s := a[..];
    ghost var vals := Draws(|idx|, loc, low, high, w);
    for k := 0 to |idx|
      invariant a[..] == Injected(s, idx[..k], vals[..k])
    {
      assert idx[..k + 1][..k] == idx[..k];
      assert vals[..k + 1][..k] == vals[..k];
      a[idx[k]] := loc + Uniform(low, high, w(k));
    }
    assert idx[..|idx|] == idx && vals[..|idx|] == vals;
  }
}
