/** `_calculate_trend`: the least-squares slope of the last few levels against
    their position 0 .. k-1 in the window, classified by fixed thresholds. */
module Trend {
  import opened Statistics

  /** How many of the latest readings the fit uses. */
  const TrendWindowSize: nat := 6
  /** Slopes beyond this magnitude (metres per sample step) count as a trend. */
  const SlopeThreshold: real := 0.05

  datatype Direction = Rising | Falling | Stable | Unknown

  datatype TrendResult = TrendResult(direction: Direction, rate: real)

  /** The latest min(6, n) levels, in order. */
  function TrendWindow(levels: seq<real>): (w: seq<real>)
    ensures |w| == if |levels| < TrendWindowSize then |levels| else TrendWindowSize
    ensures forall j :: 0 <= j < |w| ==> w[j] == levels[|levels| - |w| + j]
  {
    var k := if |levels| < TrendWindowSize then |levels| else TrendWindowSize;
    levels[|levels| - k..]
  }

  /** Mean of the positions 0 .. k-1 (see IndexMeanIsMean). */
  function IndexMean(k: nat): real {
    ((k - 1) as real) / 2.0
  }

  /** The products (i - xbar) * (y[i] - ybar) over the positions i of y. */
  function CrossTerms(y: seq<real>, xbar: real, ybar: real): seq<real> {
    seq(|y|, i requires 0 <= i < |y| => ((i as real) - xbar) * (y[i] - ybar))
  }

  /** The squares (i - xbar) * (i - xbar) over the positions i < k. */
  function SquaredTerms(xbar: real, k: nat): seq<real> {
    seq(k, i => ((i as real) - xbar) * ((i as real) - xbar))
  }

  /** Sum over the positions i of y of (i - xbar) * (y[i] - ybar). */
  function CrossDeviation(y: seq<real>, xbar: real, ybar: real): real {
    Sum(CrossTerms(y, xbar, ybar))
  }

  /** Sum over the positions i < k of (i - xbar) squared. */
  function SquaredDeviation(xbar: real, k: nat): real {
    Sum(SquaredTerms(xbar, k))
  }

  /** With two or more positions the squared deviation is positive, so the
      slope below is always defined. */
  lemma SquaredDeviationPositive(xbar: real, k: nat)
    requires k >= 2
    ensures SquaredDeviation(xbar, k) > 0.0
  {
    var t := SquaredTerms(xbar, k);
    forall i | 0 <= i < k
      ensures t[i] >= 0.0
    {
      var d := (i as real) - xbar;
      assert t[i] == d * d;
    }
    FirstTwoSquares(xbar);
    assert t[0] + t[1] > 0.0;
    if t[0] > 0.0 {
      SumPositive(t, 0);
    } else {
      SumPositive(t, 1);
    }
  }

  /** The first two squared terms never vanish together:
      xbar^2 + (1 - xbar)^2 = 2 (xbar - 1/2)^2 + 1/2. */
  lemma FirstTwoSquares(xbar: real)
    ensures (0.0 - xbar) * (0.0 - xbar) + (1.0 - xbar) * (1.0 - xbar) > 0.0
  {
    var e := xbar - 0.5;
    assert (0.0 - xbar) * (0.0 - xbar) + (1.0 - xbar) * (1.0 - xbar) == 2.0 * (e * e) + 0.5;
    assert e * e >= 0.0;
  }

  /** Ordinary least-squares slope of y against the positions 0 .. k-1. */
  function OlsSlope(y: seq<real>): real
    requires |y| >= 2
  {
    var xbar := IndexMean(|y|);
    SquaredDeviationPositive(xbar, |y|);
    CrossDeviation(y, xbar, Mean(y)) / SquaredDeviation(xbar, |y|)
  }

  function Classify(slope: real): Direction {
    if slope > SlopeThreshold then Rising
    else if slope < -SlopeThreshold then Falling
    else Stable
  }

  /** Fewer than two readings give an unknown direction at rate 0; otherwise
      the rate is the fitted slope of the window and the direction follows
      it: rising above 0.05, falling below -0.05, stable in between. */
  function CalculateTrend(levels: seq<real>): (r: TrendResult)
    ensures |levels| < 2 <==> r.direction == Unknown
    ensures |levels| < 2 ==> r.rate == 0.0
    ensures |levels| >= 2 ==> r.rate == OlsSlope(TrendWindow(levels))
    ensures r.direction == Rising <==> |levels| >= 2 && r.rate > SlopeThreshold
    ensures r.direction == Falling <==> |levels| >= 2 && r.rate < -SlopeThreshold
    ensures r.direction == Stable <==> |levels| >= 2 && -SlopeThreshold <= r.rate <= SlopeThreshold
  {
    var window := TrendWindow(levels);
    if |window| < 2 then TrendResult(Unknown, 0.0)
    else
      var slope := OlsSlope(window);
      TrendResult(Classify(slope), slope)
  }

  /** Sum of the levels a + b * i for i < n. */
  lemma {:induction false} SumOfLine(y: seq<real>, a: real, b: real)
    requires forall i :: 0 <= i < |y| ==> y[i] == a + b * (i as real)
    ensures Sum(y) == (|y| as real) * a + b * ((|y| as real) * ((|y| - 1) as real) / 2.0)
    decreases |y|
  {
    if |y| > 0 {
      var n := |y| as real;
      SumOfLine(y[..|y| - 1], a, b);
      assert Sum(y) == (n - 1.0) * a + b * ((n - 1.0) * (n - 2.0) / 2.0) + (a + b * (n - 1.0));
      assert (n - 1.0) * (n - 2.0) / 2.0 + (n - 1.0) == n * (n - 1.0) / 2.0;
    }
  }

  /** IndexMean(k) is the mean of the positions 0 .. k-1 of the fit. */
  lemma IndexMeanIsMean(k: nat)
    requires k > 0
    ensures Mean(seq(k, i => i as real)) == IndexMean(k)
  {
    var x := seq(k, i => i as real);
    SumOfLine(x, 0.0, 1.0);
    var n := k as real;
    var h := (n - 1.0) / 2.0;
    assert Sum(x) == n * h;
    ScaleCancels(h, n);
    assert n * h == h * n;
  }

  /** On the line a + b * i, whose mean a + b * xbar is ybar, the cross
      term at position i is b times the squared term there. */
  lemma CrossTermOfLine(y: seq<real>, a: real, b: real, xbar: real, ybar: real, i: nat)
    requires i < |y| && y[i] == a + b * (i as real) && ybar == a + b * xbar
    ensures CrossTerms(y, xbar, ybar)[i] == Scale(SquaredTerms(xbar, |y|), b)[i]
  {
    var d := (i as real) - xbar;
    assert y[i] - ybar == b * d;
    TermOfLine(CrossTerms(y, xbar, ybar)[i], SquaredTerms(xbar, |y|)[i], b, d, y[i] - ybar);
  }

  /** One term: d * e with e = b * d is b times d * d. */
  lemma TermOfLine(cross: real, squared: real, b: real, d: real, e: real)
    requires cross == d * e && squared == d * d && e == b * d
    ensures cross == b * squared
  {
    assert d * (b * d) == b * (d * d);
  }

  /** The mean of the levels a + b * i for i < n is a + b * (n - 1) / 2. */
  lemma MeanOfLine(y: seq<real>, a: real, b: real)
    requires |y| > 0
    requires forall i :: 0 <= i < |y| ==> y[i] == a + b * (i as real)
    ensures Mean(y) == a + b * IndexMean(|y|)
  {
    var n := |y| as real;
    var q := a + b * IndexMean(|y|);
    SumOfLine(y, a, b);
    assert n * a + b * (n * (n - 1.0) / 2.0) == n * q;
    assert (n * q) / n == q;
  }

  lemma ScaleCancels(b: real, d: real)
    requires d != 0.0
    ensures (b * d) / d == b
  {
  }

  /** The fit is exact on a straight line: levels a + b * i have slope b. */
  lemma SlopeOfLine(y: seq<real>, a: real, b: real)
    requires |y| >= 2
    requires forall i :: 0 <= i < |y| ==> y[i] == a + b * (i as real)
    ensures OlsSlope(y) == b
  {
    var xbar := IndexMean(|y|);
    CrossTermsOfLine(y, a, b);
    SumOfScale(SquaredTerms(xbar, |y|), b);
    SlopeOfScaledDeviation(y, b);
  }

  /** On a line, the cross terms about the means are the squared terms
      scaled by b. */
  lemma CrossTermsOfLine(y: seq<real>, a: real, b: real)
    requires |y| > 0
    requires forall i :: 0 <= i < |y| ==> y[i] == a + b * (i as real)
    ensures CrossTerms(y, IndexMean(|y|), Mean(y)) == Scale(SquaredTerms(IndexMean(|y|), |y|), b)
  {
    var xbar := IndexMean(|y|);
    var ybar := Mean(y);
    MeanOfLine(y, a, b);
    forall i | 0 <= i < |y|
      ensures CrossTerms(y, xbar, ybar)[i] == Scale(SquaredTerms(xbar, |y|), b)[i]
    {
      CrossTermOfLine(y, a, b, xbar, ybar, i);
    }
  }

  /** When the cross deviation is b times the squared deviation, the slope
      is b. */
  lemma SlopeOfScaledDeviation(y: seq<real>, b: real)
    requires |y| >= 2
    requires CrossDeviation(y, IndexMean(|y|), Mean(y)) == b * SquaredDeviation(IndexMean(|y|), |y|)
    ensures OlsSlope(y) == b
  {
    var xbar := IndexMean(|y|);
    SquaredDeviationPositive(xbar, |y|);
    ScaleCancels(b, SquaredDeviation(xbar, |y|));
  }

  /** When the latest min(6, n) levels are all equal, whatever came before,
      the slope is 0 and the trend is stable. */
  lemma ConstantWindowIsStable(levels: seq<real>, v: real)
    requires |levels| >= 2
    requires forall i :: |levels| - |TrendWindow(levels)| <= i < |levels| ==> levels[i] == v
    ensures CalculateTrend(levels) == TrendResult(Stable, 0.0)
  {
    var w := TrendWindow(levels);
    forall i | 0 <= i < |w|
      ensures w[i] == v + 0.0 * (i as real)
    {
      assert w[i] == levels[|levels| - |w| + i];
    }
    SlopeOfLine(w, v, 0.0);
    assert CalculateTrend(levels).rate == OlsSlope(w) == 0.0;
  }

  /** The example window 1.0, 1.2, 1.5, 1.3, 1.1, 1.4 has slope 3/70, about
      0.043, which is stable. */
  lemma ExampleTrend()
    ensures CalculateTrend([1.0, 1.2, 1.5, 1.3, 1.1, 1.4]) == TrendResult(Stable, 3.0 / 70.0)
  {
    var y := [1.0, 1.2, 1.5, 1.3, 1.1, 1.4];
    assert TrendWindow(y) == y;
    SumOfSix(1.0, 1.2, 1.5, 1.3, 1.1, 1.4);
    assert Mean(y) == 1.25;
    assert CrossTerms(y, 2.5, 1.25) == [0.625, 0.075, -0.125, 0.025, -0.225, 0.375];
    SumOfSix(0.625, 0.075, -0.125, 0.025, -0.225, 0.375);
    assert SquaredTerms(2.5, 6) == [6.25, 2.25, 0.25, 0.25, 2.25, 6.25];
    SumOfSix(6.25, 2.25, 0.25, 0.25, 2.25, 6.25);
  }

  lemma SumOfSix(a: real, b: real, c: real, d: real, e: real, f: real)
    ensures Sum([a, b, c, d, e, f]) == a + b + c + d + e + f
  {
    var s := [a, b, c, d, e, f];
    var s1, s2, s3, s4, s5 := [a], [a, b], [a, b, c], [a, b, c, d], [a, b, c, d, e];
    assert s1[..0] == [] && s2[..1] == s1 && s3[..2] == s2 && s4[..3] == s3 && s5[..4] == s4 && s[..5] == s5;
    assert Sum(s1) == a;
    assert Sum(s2) == a + b;
    assert Sum(s3) == a + b + c;
    assert Sum(s4) == a + b + c + d;
    assert Sum(s5) == a + b + c + d + e;
  }
}
