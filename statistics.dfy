/** `_calculate_statistics`: maximum, minimum, mean and range of the water
    levels of a series, with the mean shared by `_predict_next_peak` and
    `_calculate_trend`. */
module Statistics {

  /** Sum of the levels, accumulated from the front. */
  function Sum(s: seq<real>): real {
    if s == [] then 0.0 else Sum(s[..|s| - 1]) + s[|s| - 1]
  }

  function Mean(s: seq<real>): real
    requires |s| > 0
  {
    Sum(s) / (|s| as real)
  }

  /** The largest level: one of the levels, and no level exceeds it. */
  function Max(s: seq<real>): (m: real)
    requires |s| > 0
    ensures m in s
    ensures forall i :: 0 <= i < |s| ==> s[i] <= m
  {
    if |s| == 1 then s[0]
    else
      var m' := Max(s[..|s| - 1]);
      if s[|s| - 1] > m' then s[|s| - 1] else m'
  }

  /** The smallest level: one of the levels, and no level is below it. */
  function Min(s: seq<real>): (m: real)
    requires |s| > 0
    ensures m in s
    ensures forall i :: 0 <= i < |s| ==> m <= s[i]
  {
    if |s| == 1 then s[0]
    else
      var m' := Min(s[..|s| - 1]);
      if s[|s| - 1] < m' then s[|s| - 1] else m'
  }

  /** A sum of levels that all lie in [lo, hi] lies in [n * lo, n * hi]. */
  lemma {:induction false} SumBounds(s: seq<real>, lo: real, hi: real)
    requires forall i :: 0 <= i < |s| ==> lo <= s[i] <= hi
    ensures (|s| as real) * lo <= Sum(s) <= (|s| as real) * hi
    decreases |s|
  {
    if s != [] {
      SumBounds(s[..|s| - 1], lo, hi);
    }
  }

  /** A sum of non-negative terms is non-negative. */
  lemma {:induction false} SumNonNegative(s: seq<real>)
    requires forall i :: 0 <= i < |s| ==> s[i] >= 0.0
    ensures Sum(s) >= 0.0
    decreases |s|
  {
    if s != [] {
      SumNonNegative(s[..|s| - 1]);
    }
  }

  /** A sum of non-negative terms one of which is positive is positive. */
  lemma {:induction false} SumPositive(s: seq<real>, j: nat)
    requires forall i :: 0 <= i < |s| ==> s[i] >= 0.0
    requires j < |s| && s[j] > 0.0
    ensures Sum(s) > 0.0
    decreases |s|
  {
    var n := |s| - 1;
    if j == n {
      SumNonNegative(s[..n]);
    } else {
      SumPositive(s[..n], j);
    }
  }

  /** Multiplying every term by b multiplies the sum by b. */
  lemma {:induction false} SumScaled(s: seq<real>, t: seq<real>, b: real)
    requires |t| == |s|
    requires forall i :: 0 <= i < |s| ==> t[i] == b * s[i]
    ensures Sum(t) == b * Sum(s)
    decreases |s|
  {
    if |s| > 0 {
      var n := |s| - 1;
      SumScaled(s[..n], t[..n], b);
      Distribute(b, Sum(s[..n]), s[n]);
    }
  }

  /** Every term multiplied by b. */
  function Scale(s: seq<real>, b: real): (t: seq<real>)
    ensures |t| == |s|
    ensures forall i :: 0 <= i < |s| ==> t[i] == b * s[i]
  {
    seq(|s|, i requires 0 <= i < |s| => b * s[i])
  }

  lemma SumOfScale(s: seq<real>, b: real)
    ensures Sum(Scale(s, b)) == b * Sum(s)
  {
    SumScaled(s, Scale(s, b), b);
  }

  lemma Distribute(b: real, p: real, q: real)
    ensures b * p + b * q == b * (p + q)
  {
  }

  /** The mean of a series lies between its smallest and largest level. */
  lemma MeanBetweenMinAndMax(s: seq<real>)
    requires |s| > 0
    ensures Min(s) <= Mean(s) <= Max(s)
  {
    MeanBounds(s, Min(s), Max(s));
  }

  /** The mean of levels that all lie in [lo, hi] lies in [lo, hi]. */
  lemma MeanBounds(s: seq<real>, lo: real, hi: real)
    requires |s| > 0
    requires forall i :: 0 <= i < |s| ==> lo <= s[i] <= hi
    ensures lo <= Mean(s) <= hi
  {
    SumBounds(s, lo, hi);
    QuotientBetween(Sum(s), |s| as real, lo, hi);
  }

  lemma QuotientBetween(x: real, n: real, lo: real, hi: real)
    requires n > 0.0 && n * lo <= x <= n * hi
    ensures lo <= x / n <= hi
  {
    assert x == (x / n) * n;
  }

  /** The summary of a non-empty series (standard deviation is not part of
      this model). */
  datatype Stats = Stats(max: real, min: real, mean: real, range: real)

  function CalculateStatistics(levels: seq<real>): (r: Stats)
    requires |levels| > 0
    ensures r.max in levels && r.min in levels
    ensures forall i :: 0 <= i < |levels| ==> r.min <= levels[i] <= r.max
    ensures r.mean == Mean(levels) && r.min <= r.mean <= r.max
    ensures r.range == r.max - r.min && r.range >= 0.0
  {
    MeanBetweenMinAndMax(levels);
    Stats(Max(levels), Min(levels), Mean(levels), Max(levels) - Min(levels))
  }

  /** A constant series summarises to max = min = mean = its level and range 0. */
  lemma ConstantSeriesStatistics(levels: seq<real>, v: real)
    requires |levels| > 0
    requires forall i :: 0 <= i < |levels| ==> levels[i] == v
    ensures CalculateStatistics(levels) == Stats(v, v, v, 0.0)
  {
    MeanBounds(levels, v, v);
    assert levels[0] == v;
  }
}
