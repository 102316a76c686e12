/** The array reductions the generators use (numpy's sum, mean, min and max),
    over exact reals. */
module Stats {

  /** Sum of the elements, accumulated from the left. */
  function Sum(s: seq<real>): real
    decreases |s|
  {
    if s == [] then 0.0 else Sum(s[..|s| - 1]) + s[|s| - 1]
  }

  function Mean(s: seq<real>): real
    requires |s| > 0
  {
    Sum(s) / (|s| as real)
  }

  /** The smallest element: a lower bound that occurs in the series. */
  function Min(s: seq<real>): (m: real)
    requires |s| > 0
    ensures forall i :: 0 <= i < |s| ==> m <= s[i]
    ensures exists i :: 0 <= i < |s| && s[i] == m
    decreases |s|
  {
    if |s| == 1 then s[0]
    else
      var t := Min(s[..|s| - 1]);
      if s[|s| - 1] < t then s[|s| - 1] else t
  }

  /** The largest element: an upper bound that occurs in the series. */
  function Max(s: seq<real>): (m: real)
    requires |s| > 0
    ensures forall i :: 0 <= i < |s| ==> s[i] <= m
    ensures exists i :: 0 <= i < |s| && s[i] == m
    decreases |s|
  {
    if |s| == 1 then s[0]
    else
      var t := Max(s[..|s| - 1]);
      if s[|s| - 1] > t then s[|s| - 1] else t
  }

  /** Every element plus the same constant (numpy's array + scalar). */
  function Shifted(s: seq<real>, c: real): (r: seq<real>)
    ensures |r| == |s|
  {
    seq(|s|, i requires 0 <= i < |s| => s[i] + c)
  }

  /** Adding c to each of n elements adds n * c to the sum. */
  lemma {:induction false} SumShifted(s: seq<real>, c: real)
    ensures Sum(Shifted(s, c)) == Sum(s) + (|s| as real) * c
    decreases |s|
  {
    if s != [] {
      var n := |s|;
      assert Shifted(s, c)[..n - 1] == Shifted(s[..n - 1], c);
      SumShifted(s[..n - 1], c);
    }
  }

  /** Adding c to each element adds c to the mean. */
  lemma MeanShifted(s: seq<real>, c: real)
    requires |s| > 0
    ensures Mean(Shifted(s, c)) == Mean(s) + c
  {
    SumShifted(s, c);
    var n := |s| as real;
    calc {
      Mean(Shifted(s, c));
      (Sum(s) + n * c) / n;
      Sum(s) / n + (n * c) / n;
      Mean(s) + c;
    }
  }
}
