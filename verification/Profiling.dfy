/** Running statistics of execution times, over real numbers. */
module Profiling {
  import opened Wrappers

  /*******************************************************************************
   *  The textbook definitions
   *******************************************************************************/

  function Sum(xs: seq<real>): real {
    if xs == [] then 0.0 else Sum(xs[..|xs| - 1]) + xs[|xs| - 1]
  }

  function SumOfSquares(xs: seq<real>): real {
    if xs == [] then 0.0 else SumOfSquares(xs[..|xs| - 1]) + xs[|xs| - 1] * xs[|xs| - 1]
  }

  /** The sum of the squared deviations from m. */
  function Deviation(xs: seq<real>, m: real): real {
    if xs == [] then 0.0
    else Deviation(xs[..|xs| - 1], m) + (xs[|xs| - 1] - m) * (xs[|xs| - 1] - m)
  }

  function Mean(xs: seq<real>): real
    requires xs != []
  {
    Sum(xs) / |xs| as real
  }

  /** The mean squared deviation from the mean. */
  function Variance(xs: seq<real>): real
    requires xs != []
  {
    Deviation(xs, Mean(xs)) / |xs| as real
  }

  /** The least of the samples and a starting value. */
  predicate IsMin(xs: seq<real>, start: real, m: real) {
    && (forall i | 0 <= i < |xs| :: m <= xs[i])
    && m <= start
    && (m == start || exists i :: 0 <= i < |xs| && xs[i] == m)
  }

  predicate IsMax(xs: seq<real>, start: real, m: real) {
    && (forall i | 0 <= i < |xs| :: xs[i] <= m)
    && start <= m
    && (m == start || exists i :: 0 <= i < |xs| && xs[i] == m)
  }

  /*******************************************************************************
   *  The running form
   *******************************************************************************/

  datatype Stats = Stats(mean: real, stdev: real, min: real, max: real, n: nat)

  /** What is asked of the square root. */
  ghost predicate IsSquareRoot(sqrt: real -> real) {
    forall x: real :: x >= 0.0 ==> sqrt(x) >= 0.0 && sqrt(x) * sqrt(x) == x
  }

  class UnitExecutionTime {
    /** The largest number of the type the samples have, and its smallest positive normalised one. */
    const largest: real
    const smallest: real
    var totalCalls: nat
    var sum: real
    var measurementSqrSum: real
    var min: real
    var max: real
    ghost var samples: seq<real>

    ghost predicate Valid()
      reads this
    {
      && totalCalls == |samples|
      && sum == Sum(samples)
      && measurementSqrSum == SumOfSquares(samples)
      && IsMin(samples, largest, min)
      && IsMax(samples, smallest, max)
    }

    constructor (largest: real, smallest: real)
      ensures Valid() && samples == [] && this.largest == largest && this.smallest == smallest
    {
      this.largest, this.smallest := largest, smallest;
      totalCalls, sum, measurementSqrSum := 0, 0.0, 0.0;
      min, max := largest, smallest;
      samples := [];
    }

    method AddSample(duration: real)
      requires Valid()
      modifies this
      ensures Valid() && samples == old(samples) + [duration]
    {
      SumsStep(samples, duration);
      sum := sum + duration;
      measurementSqrSum := measurementSqrSum + duration * duration;
      MinStep(samples, largest, min, duration);
      MaxStep(samples, smallest, max, duration);
      min := if duration < min then duration else min;
      max := if duration > max then duration else max;
      totalCalls := totalCalls + 1;
      samples := samples + [duration];
    }

    /** None before the first sample, where the mean is not a number. The extremes come out exchanged. */
    method GetStats(sqrt: real -> real) returns (stats: Option<Stats>)
      requires Valid() && IsSquareRoot(sqrt)
      ensures stats.None? <==> samples == []
      ensures stats.Some? ==>
        && stats.value.n == |samples|
        && stats.value.mean == Mean(samples)
        && stats.value.stdev >= 0.0 && stats.value.stdev * stats.value.stdev == Variance(samples)
        && stats.value.max == min <= stats.value.mean <= max == stats.value.min
    {
      if totalCalls == 0 {
        return None;
      }
      var n := totalCalls as real;
      var mean := sum / n;
      var variance := measurementSqrSum / n - mean * mean;
      RunningIsDefinition(samples, n, sum, measurementSqrSum, mean);
      MeanBetween(samples, min, max);
      return Some(Stats(mean, sqrt(variance), max, min, totalCalls));
    }
  }

  lemma SumsStep(xs: seq<real>, x: real)
    ensures Sum(xs + [x]) == Sum(xs) + x
    ensures SumOfSquares(xs + [x]) == SumOfSquares(xs) + x * x
  {
    assert (xs + [x])[..|xs|] == xs;
  }

  lemma MinStep(xs: seq<real>, start: real, m: real, x: real)
    requires IsMin(xs, start, m)
    ensures IsMin(xs + [x], start, if x < m then x else m)
  {
    var ys := xs + [x];
    if x < m {
      assert ys[|xs|] == x;
    } else if m != start {
      var i :| 0 <= i < |xs| && xs[i] == m;
      assert ys[i] == m;
    }
  }

  lemma MaxStep(xs: seq<real>, start: real, m: real, x: real)
    requires IsMax(xs, start, m)
    ensures IsMax(xs + [x], start, if x > m then x else m)
  {
    var ys := xs + [x];
    if x > m {
      assert ys[|xs|] == x;
    } else if m != start {
      var i :| 0 <= i < |xs| && xs[i] == m;
      assert ys[i] == m;
    }
  }

  /*******************************************************************************
   *  The running form is the definition
   *******************************************************************************/

  lemma {:induction false} DeviationExpands(xs: seq<real>, m: real)
    ensures Deviation(xs, m) == SumOfSquares(xs) - 2.0 * m * Sum(xs) + |xs| as real * m * m
  {
    if xs != [] {
      var init, x := xs[..|xs| - 1], xs[|xs| - 1];
      DeviationExpands(init, m);
      ExpandStep(Deviation(init, m), SumOfSquares(init), Sum(init), |init| as real, m, x);
    }
  }

  lemma ExpandStep(d: real, q: real, s: real, n: real, m: real, x: real)
    requires d == q - 2.0 * m * s + n * m * m
    ensures d + (x - m) * (x - m) == (q + x * x) - 2.0 * m * (s + x) + (n + 1.0) * m * m
  {
    assert (x - m) * (x - m) == x * x - 2.0 * m * x + m * m;
    assert 2.0 * m * (s + x) == 2.0 * m * s + 2.0 * m * x;
    assert (n + 1.0) * m * m == n * m * m + m * m;
  }

  lemma DivideDifference(n: real, q: real, p: real)
    requires n > 0.0
    ensures (q - n * p) / n == q / n - p
  {
    assert n * p / n == p;
  }

  lemma VarianceIs(xs: seq<real>, n: real, m: real)
    requires xs != [] && n == |xs| as real && m == Mean(xs)
    ensures Variance(xs) == SumOfSquares(xs) / n - m * m
  {
    var v := VarianceAt(xs, n, m);
  }

  lemma VarianceAt(xs: seq<real>, n: real, m: real) returns (v: real)
    requires xs != [] && n == |xs| as real && m == Sum(xs) / n
    ensures v == Deviation(xs, m) / n
    ensures v == SumOfSquares(xs) / n - m * m
  {
    var s, q, d := Expanded(xs, n, m);
    v := d / n;
    DivideExpanded(n, m, s, q, d);
  }

  lemma Expanded(xs: seq<real>, n: real, m: real) returns (s: real, q: real, d: real)
    requires n == |xs| as real
    ensures s == Sum(xs) && q == SumOfSquares(xs) && d == Deviation(xs, m)
    ensures d == q - 2.0 * m * s + n * m * m
  {
    s, q, d := Sum(xs), SumOfSquares(xs), Deviation(xs, m);
    DeviationExpands(xs, m);
  }

  lemma DivideExpanded(n: real, m: real, s: real, q: real, d: real)
    requires n > 0.0 && m == s / n && d == q - 2.0 * m * s + n * m * m
    ensures d / n == q / n - m * m
  {
    MeanTimesCount(s, n);
    Collect(m, n, s);
    DivideDifference(n, q, m * m);
  }

  /** The fields give the definitions. */
  lemma RunningIsDefinition(xs: seq<real>, n: real, sum: real, squares: real, mean: real)
    requires xs != [] && n == |xs| as real && sum == Sum(xs) && squares == SumOfSquares(xs) && mean == sum / n
    ensures mean == Mean(xs)
    ensures squares / n - mean * mean == Variance(xs)
    ensures Variance(xs) >= 0.0
  {
    VarianceIs(xs, n, mean);
    VarianceNonNegative(xs);
  }

  lemma VarianceNonNegative(xs: seq<real>)
    requires xs != []
    ensures Variance(xs) >= 0.0
  {
    DeviationNonNegative(xs, Mean(xs));
    DivideNonNegative(Deviation(xs, Mean(xs)), |xs| as real);
  }

  lemma DivideNonNegative(d: real, n: real)
    requires d >= 0.0 && n > 0.0
    ensures d / n >= 0.0
  {
  }

  lemma MeanTimesCount(s: real, n: real)
    requires n > 0.0
    ensures s / n * n == s
  {
  }

  lemma Collect(m: real, n: real, s: real)
    requires s == m * n
    ensures n * m * m - 2.0 * m * s == 0.0 - n * (m * m)
  {
    assert m * s == n * (m * m);
  }

  lemma SquareNonNegative(x: real)
    ensures x * x >= 0.0
  {
    if x < 0.0 {
      assert x * x == (0.0 - x) * (0.0 - x);
    }
  }

  lemma {:induction false} DeviationNonNegative(xs: seq<real>, m: real)
    ensures Deviation(xs, m) >= 0.0
  {
    if xs != [] {
      DeviationNonNegative(xs[..|xs| - 1], m);
      SquareNonNegative(xs[|xs| - 1] - m);
    }
  }

  lemma {:induction false} SumBetween(xs: seq<real>, lo: real, hi: real)
    requires forall i | 0 <= i < |xs| :: lo <= xs[i] <= hi
    ensures |xs| as real * lo <= Sum(xs) <= |xs| as real * hi
  {
    if xs != [] {
      var n := |xs| as real;
      SumBetween(xs[..|xs| - 1], lo, hi);
      assert n * lo == (n - 1.0) * lo + lo && n * hi == (n - 1.0) * hi + hi;
    }
  }

  lemma MeanBetween(xs: seq<real>, lo: real, hi: real)
    requires xs != [] && forall i | 0 <= i < |xs| :: lo <= xs[i] <= hi
    ensures lo <= Mean(xs) <= hi
  {
    SumBetween(xs, lo, hi);
    DivideBounds(Sum(xs), |xs| as real, lo, hi);
  }

  lemma DivideBounds(s: real, n: real, lo: real, hi: real)
    requires n > 0.0 && n * lo <= s <= n * hi
    ensures lo <= s / n <= hi
  {
    assert s / n * n == s;
  }

  /** A tracked extreme is a sample exactly when some sample is no further out than its starting value. */
  lemma ExtremesAreSamplesIff(xs: seq<real>, largest: real, smallest: real, min: real, max: real)
    requires IsMin(xs, largest, min) && IsMax(xs, smallest, max)
    ensures min in xs <==> exists i :: 0 <= i < |xs| && xs[i] <= largest
    ensures max in xs <==> exists i :: 0 <= i < |xs| && smallest <= xs[i]
  {
  }

  /**
   The reported minimum and maximum are the right way round exactly when all samples are the same one, within the
   range of the starting values. A single duration of zero is below it, and is reported the wrong way round.
   */
  lemma LabelsRightIff(xs: seq<real>, largest: real, smallest: real, min: real, max: real)
    requires xs != [] && IsMin(xs, largest, min) && IsMax(xs, smallest, max)
    ensures
      var (reportedMin, reportedMax) := (max, min);
      reportedMin <= reportedMax
      <==> (forall i | 0 <= i < |xs| :: xs[i] == xs[0]) && smallest <= xs[0] <= largest
  {
    assert min <= xs[0] <= max;
  }
}
