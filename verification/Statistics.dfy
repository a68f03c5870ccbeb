/**
 Summary statistics of repeated measurements over the real numbers
 (acceptance/store.go, acceptance/metrics.go). The square root is a parameter.
 */
module Statistics {

  const RATIO_PRECISION: real := 10000.0

  datatype MetricStats = MetricStats(n: nat, min: real, max: real, mean: real, stdDev: real, cv: real)

  // ---------- Rounding ----------

  /** Nearest integer, halves away from zero. */
  function Round(x: real): int {
    if x >= 0.0 then (x + 0.5).Floor else -((-x + 0.5).Floor)
  }

  function RoundRatio(value: real): real {
    Round(value * RATIO_PRECISION) as real / RATIO_PRECISION
  }

  /** `x` and `y` differ by at most half a unit of the rounding grid. */
  predicate Rounded(x: real, y: real) {
    -0.00005 <= x - y <= 0.00005
  }

  lemma RoundRatioIsClose(value: real)
    ensures Rounded(RoundRatio(value), value)
  {
    var x := value * RATIO_PRECISION;
    assert -0.5 <= Round(x) as real - x <= 0.5;
    assert x / RATIO_PRECISION == value;
  }

  lemma RoundRatioIsMonotone(x: real, y: real)
    requires x <= y
    ensures RoundRatio(x) <= RoundRatio(y)
  {
    assert x * RATIO_PRECISION <= y * RATIO_PRECISION;
    assert Round(x * RATIO_PRECISION) <= Round(y * RATIO_PRECISION);
  }

  // ---------- The exact formulas ----------

  function Sum(values: seq<real>): real {
    if values == [] then 0.0 else Sum(values[..|values| - 1]) + values[|values| - 1]
  }

  function Mean(values: seq<real>): real
    requires values != []
  {
    Sum(values) / |values| as real
  }

  function Total(values: seq<real>, f: real -> real): real {
    if values == [] then 0.0 else Total(values[..|values| - 1], f) + f(values[|values| - 1])
  }

  function SquaredDeviation(centre: real): real -> real {
    x => (x - centre) * (x - centre)
  }

  function SquaredDeviations(values: seq<real>, centre: real): real {
    Total(values, SquaredDeviation(centre))
  }

  function Variance(values: seq<real>): real
    requires values != []
  {
    SquaredDeviations(values, Mean(values)) / |values| as real
  }

  predicate IsMin(values: seq<real>, m: real) {
    m in values && forall v :: v in values ==> m <= v
  }

  predicate IsMax(values: seq<real>, m: real) {
    m in values && forall v :: v in values ==> v <= m
  }

  function Abs(x: real): real {
    if x < 0.0 then -x else x
  }

  method Summarise(values: seq<real>, sqrt: real -> real) returns (stats: MetricStats)
    ensures stats.n == |values|
    ensures values == [] ==> stats == MetricStats(0, 0.0, 0.0, 0.0, 0.0, 0.0)
    ensures values != [] ==>
              && IsMin(values, stats.min) && IsMax(values, stats.max)
              && stats.mean == RoundRatio(Mean(values))
              && stats.stdDev == RoundRatio(sqrt(Variance(values)))
              && stats.cv == if stats.mean == 0.0 then 0.0 else RoundRatio(stats.stdDev / Abs(stats.mean))
  {
    stats := MetricStats(|values|, 0.0, 0.0, 0.0, 0.0, 0.0);
    if values == [] {
      return;
    }
    var min, max, sum := Extremes(values);
    var mean := RoundRatio(sum / |values| as real);
    var squared := Deviations(values, sum / |values| as real);
    var stdDev := RoundRatio(sqrt(squared / |values| as real));
    stats := MetricStats(|values|, min, max, mean, stdDev, if mean != 0.0 then RoundRatio(stdDev / Abs(mean)) else 0.0);
  }

  method Extremes(values: seq<real>) returns (min: real, max: real, sum: real)
    requires values != []
    ensures IsMin(values, min) && IsMax(values, max) && sum == Sum(values)
  {
    min, max, sum := values[0], values[0], 0.0;
    var i := 0;
    while i < |values|
      invariant 0 <= i <= |values| && sum == Sum(values[..i])
      invariant min in values && forall k :: 0 <= k < i ==> min <= values[k]
      invariant max in values && forall k :: 0 <= k < i ==> values[k] <= max
    {
      assert values[..i + 1][..i] == values[..i];
      sum := sum + values[i];
      if values[i] < min {
        min := values[i];
      }
      if values[i] > max {
        max := values[i];
      }
      i := i + 1;
    }
    assert values[..i] == values;
  }

  method Deviations(values: seq<real>, centre: real) returns (squared: real)
    ensures squared == SquaredDeviations(values, centre)
  {
    squared := 0.0;
    var i := 0;
    while i < |values|
      invariant 0 <= i <= |values| && squared == SquaredDeviations(values[..i], centre)
    {
      assert values[..i + 1][..i] == values[..i];
      var delta := values[i] - centre;
      squared := squared + delta * delta;
      i := i + 1;
    }
    assert values[..i] == values;
  }

  // ---------- Bounds before rounding ----------

  predicate Within(values: seq<real>, lo: real, hi: real) {
    forall k :: 0 <= k < |values| ==> lo <= values[k] <= hi
  }

  lemma {:induction false} SumBounds(values: seq<real>, lo: real, hi: real)
    requires Within(values, lo, hi)
    ensures |values| as real * lo <= Sum(values) <= |values| as real * hi
  {
    if values != [] {
      var n := |values| - 1;
      SumBounds(values[..n], lo, hi);
      assert |values| as real * lo == n as real * lo + lo && |values| as real * hi == n as real * hi + hi;
    }
  }

  /**
   A squared deviation, with `slope == lo + hi - 2c` and `offset == lo * hi - c * c`, is below a line on the
   range.
   */
  lemma DeviationIsBelowLine(x: real, c: real, lo: real, hi: real, slope: real, offset: real)
    requires lo <= x <= hi && slope == lo + hi - 2.0 * c && offset == lo * hi - c * c
    ensures (x - c) * (x - c) <= slope * x - offset
  {
    assert (hi - x) * (x - lo) >= 0.0;
    assert (hi - x) * (x - lo) == (lo + hi) * x - x * x - lo * hi;
    assert (x - c) * (x - c) == x * x - 2.0 * c * x + c * c;
  }

  function Line(slope: real, offset: real): real -> real {
    x => slope * x - offset
  }

  function LineSum(values: seq<real>, slope: real, offset: real): real {
    Total(values, Line(slope, offset))
  }

  lemma {:induction false} TotalIsMonotone(values: seq<real>, f: real -> real, g: real -> real)
    requires forall x :: x in values ==> f(x) <= g(x)
    ensures Total(values, f) <= Total(values, g)
  {
    if values != [] {
      TotalIsMonotone(values[..|values| - 1], f, g);
      var last := values[|values| - 1];
      assert f(last) <= g(last);
    }
  }

  lemma BelowLineAt(x: real, c: real, lo: real, hi: real, slope: real, offset: real)
    requires lo <= x <= hi && slope == lo + hi - 2.0 * c && offset == lo * hi - c * c
    ensures SquaredDeviation(c)(x) <= Line(slope, offset)(x)
  {
    var f, g := SquaredDeviation(c), Line(slope, offset);
    assert f(x) == (x - c) * (x - c);
    assert g(x) == slope * x - offset;
    DeviationIsBelowLine(x, c, lo, hi, slope, offset);
  }

  lemma DeviationsAreBelowLine(values: seq<real>, c: real, lo: real, hi: real, slope: real, offset: real)
    requires Within(values, lo, hi) && slope == lo + hi - 2.0 * c && offset == lo * hi - c * c
    ensures SquaredDeviations(values, c) <= LineSum(values, slope, offset)
  {
    forall x | x in values ensures SquaredDeviation(c)(x) <= Line(slope, offset)(x) {
      BelowLineAt(x, c, lo, hi, slope, offset);
    }
    TotalIsMonotone(values, SquaredDeviation(c), Line(slope, offset));
  }

  lemma {:induction false} LineSumIsLinear(values: seq<real>, slope: real, offset: real)
    ensures LineSum(values, slope, offset) == slope * Sum(values) - |values| as real * offset
  {
    if values != [] {
      var n := |values| - 1;
      LineSumIsLinear(values[..n], slope, offset);
      assert slope * Sum(values) == slope * Sum(values[..n]) + slope * values[n];
      assert |values| as real * offset == n as real * offset + offset;
    }
  }

  lemma LineSumAtMean(values: seq<real>, mean: real, slope: real, offset: real, bound: real)
    requires mean * |values| as real == Sum(values) && slope * mean - offset == bound
    ensures LineSum(values, slope, offset) == |values| as real * bound
  {
    LineSumIsLinear(values, slope, offset);
    LinearAtMean(|values| as real, Sum(values), mean, slope, offset, bound);
  }

  lemma LinearAtMean(n: real, s: real, mean: real, slope: real, offset: real, bound: real)
    requires mean * n == s && slope * mean - offset == bound
    ensures slope * s - n * offset == n * bound
  {
    assert slope * s == n * (slope * mean);
    assert n * (slope * mean - offset) == n * (slope * mean) - n * offset;
  }

  lemma DeviationsAreNotNegative(values: seq<real>, c: real)
    ensures SquaredDeviations(values, c) >= 0.0
  {
    forall x ensures SquaredDeviation(c)(x) >= 0.0 {
      SquareIsNotNegative(x - c);
    }
    TotalIsNotNegative(values, SquaredDeviation(c));
  }

  lemma SquareIsNotNegative(delta: real)
    ensures delta * delta >= 0.0
  {
  }

  lemma {:induction false} TotalIsNotNegative(values: seq<real>, f: real -> real)
    requires forall x :: f(x) >= 0.0
    ensures Total(values, f) >= 0.0
  {
    if values != [] {
      TotalIsNotNegative(values[..|values| - 1], f);
    }
  }

  lemma RangeHolds(values: seq<real>, min: real, max: real)
    requires IsMin(values, min) && IsMax(values, max)
    ensures Within(values, min, max)
  {
    forall k | 0 <= k < |values| ensures min <= values[k] <= max {
      assert values[k] in values;
    }
  }

  lemma MeanIsInRange(values: seq<real>, min: real, max: real)
    requires IsMin(values, min) && IsMax(values, max)
    ensures min <= Mean(values) <= max
  {
    RangeHolds(values, min, max);
    SumBounds(values, min, max);
    var n := |values| as real;
    DivideBound(Sum(values), n, min);
    DivideBound(Sum(values), n, max);
  }

  lemma DivideBound(x: real, n: real, bound: real)
    requires n > 0.0
    ensures n * bound <= x ==> bound <= x / n
    ensures x <= n * bound ==> x / n <= bound
  {
    var q := x / n;
    assert q * n == x;
    if q < bound { assert (bound - q) * n > 0.0; }
    if bound < q { assert (q - bound) * n > 0.0; }
  }

  lemma MeanTimesCount(values: seq<real>)
    requires values != []
    ensures Mean(values) * |values| as real == Sum(values)
  {
  }

  /** The line for deviations about the mean, and its value there. */
  lemma LineForMean(values: seq<real>, mean: real, min: real, max: real) returns (slope: real, offset: real)
    requires Within(values, min, max)
    ensures SquaredDeviations(values, mean) <= LineSum(values, slope, offset)
    ensures slope * mean - offset == (max - mean) * (mean - min)
  {
    slope, offset := min + max - 2.0 * mean, min * max - mean * mean;
    DeviationsAreBelowLine(values, mean, min, max, slope, offset);
  }

  lemma DeviationsAreBounded(values: seq<real>, mean: real, min: real, max: real, bound: real)
    requires Within(values, min, max) && mean * |values| as real == Sum(values)
    requires bound == (max - mean) * (mean - min)
    ensures SquaredDeviations(values, mean) <= |values| as real * bound
  {
    var slope, offset := LineForMean(values, mean, min, max);
    LineSumAtMean(values, mean, slope, offset, bound);
  }

  /** The population variance is bounded by the mean's distances to the ends. */
  lemma VarianceIsBounded(values: seq<real>, min: real, max: real)
    requires IsMin(values, min) && IsMax(values, max)
    ensures 0.0 <= Variance(values) <= (max - Mean(values)) * (Mean(values) - min)
  {
    RangeHolds(values, min, max);
    MeanTimesCount(values);
    DeviationsAreNotNegative(values, Mean(values));
    DivideBound(SquaredDeviations(values, Mean(values)), |values| as real, 0.0);
    DeviationsAreBounded(values, Mean(values), min, max, (max - Mean(values)) * (Mean(values) - min));
    DivideBound(SquaredDeviations(values, Mean(values)), |values| as real, (max - Mean(values)) * (Mean(values) - min));
  }

  /** And so by the square of half the range. */
  lemma VarianceIsAtMostHalfRangeSquared(values: seq<real>, min: real, max: real)
    requires IsMin(values, min) && IsMax(values, max)
    ensures (max - Mean(values)) * (Mean(values) - min) <= ((max - min) / 2.0) * ((max - min) / 2.0)
    ensures Variance(values) <= ((max - min) / 2.0) * ((max - min) / 2.0)
  {
    VarianceIsBounded(values, min, max);
    MeanAlgebra(Mean(values), min, max);
  }

  lemma MeanAlgebra(mean: real, min: real, max: real)
    ensures (max - mean) * (mean - min) <= ((max - min) / 2.0) * ((max - min) / 2.0)
  {
    var d := mean - (max + min) / 2.0;
    assert d * d >= 0.0;
    assert ((max - min) / 2.0) * ((max - min) / 2.0) - (max - mean) * (mean - min) == d * d;
  }

  // ---------- After rounding ----------

  predicate IsRoot(root: real, x: real) {
    root >= 0.0 && root * root == x
  }

  lemma ProductIsPositive(x: real, y: real)
    requires x > 0.0 && y > 0.0
    ensures x * y > 0.0
  {
  }

  lemma RootOrder(root: real, bound: real)
    requires root >= 0.0 && bound >= 0.0 && root * root <= bound * bound
    ensures root <= bound
  {
    if root > bound {
      ProductIsPositive(root - bound, root + bound);
    }
  }

  /** The printed mean is within half a unit of the mean, and between the rounded ends of the range. */
  lemma PrintedMean(values: seq<real>, min: real, max: real)
    requires IsMin(values, min) && IsMax(values, max)
    ensures Rounded(RoundRatio(Mean(values)), Mean(values))
    ensures RoundRatio(min) <= RoundRatio(Mean(values)) <= RoundRatio(max)
  {
    MeanIsInRange(values, min, max);
    RoundedBetween(min, Mean(values), max);
  }

  /** The printed deviation is within half a unit of the root of the variance, and at most the rounded half range. */
  lemma PrintedDeviation(values: seq<real>, min: real, max: real, root: real)
    requires IsMin(values, min) && IsMax(values, max) && IsRoot(root, Variance(values))
    ensures Rounded(RoundRatio(root), root)
    ensures root <= (max - min) / 2.0 && 0.0 <= RoundRatio(root) <= RoundRatio((max - min) / 2.0)
  {
    VarianceIsAtMostHalfRangeSquared(values, min, max);
    MeanIsInRange(values, min, max);
    RootOrder(root, (max - min) / 2.0);
    RoundedBetween(0.0, root, (max - min) / 2.0);
    assert RoundRatio(0.0) == 0.0;
  }

  /** The printed coefficient of variation is within half a unit of the ratio of the printed figures. */
  lemma PrintedCoefficient(deviation: real, mean: real)
    requires deviation >= 0.0 && mean != 0.0
    ensures Rounded(RoundRatio(deviation / Abs(mean)), deviation / Abs(mean))
    ensures RoundRatio(deviation / Abs(mean)) >= 0.0
  {
    DivideBound(deviation, Abs(mean), 0.0);
    RoundedBetween(0.0, deviation / Abs(mean), deviation / Abs(mean));
    assert RoundRatio(0.0) == 0.0;
  }

  lemma RoundedBetween(lo: real, x: real, hi: real)
    requires lo <= x <= hi
    ensures Rounded(RoundRatio(x), x) && RoundRatio(lo) <= RoundRatio(x) <= RoundRatio(hi)
  {
    RoundRatioIsClose(x);
    RoundRatioIsMonotone(lo, x);
    RoundRatioIsMonotone(x, hi);
  }

  // ---------- The printed mean against the printed range, which is not rounded ----------

  /** A value that printing leaves as it is. */
  predicate OnGrid(x: real) {
    (x * RATIO_PRECISION).Floor as real == x * RATIO_PRECISION
  }

  lemma IntegersAreOnGrid(n: int)
    ensures OnGrid(n as real)
  {
    assert n as real * RATIO_PRECISION == (n * 10000) as real;
  }

  /** Counts and values that are already rounded are what the summaries are made of. */
  lemma RoundedIsOnGrid(value: real)
    ensures OnGrid(RoundRatio(value))
  {
    var k := Round(value * RATIO_PRECISION);
    assert k as real / RATIO_PRECISION * RATIO_PRECISION == k as real;
  }

  lemma GridIsKept(x: real)
    requires OnGrid(x)
    ensures RoundRatio(x) == x
  {
    var k := (x * RATIO_PRECISION).Floor;
    assert Round(k as real) == k;
  }

  /** What the metrics hand over: a count, or a value that is rounded already. */
  ghost predicate Reported(v: real) {
    v == v.Floor as real || exists x :: v == RoundRatio(x)
  }

  lemma ReportedIsOnGrid(v: real)
    requires Reported(v)
    ensures OnGrid(v)
  {
    if v == v.Floor as real {
      IntegersAreOnGrid(v.Floor);
    } else {
      var x :| v == RoundRatio(x);
      RoundedIsOnGrid(x);
    }
  }

  /** For counts and rounded values the printed mean lies in the printed range. */
  lemma PrintedMeanStaysInRange(values: seq<real>, min: real, max: real)
    requires IsMin(values, min) && IsMax(values, max) && forall v :: v in values ==> Reported(v)
    ensures min <= RoundRatio(Mean(values)) <= max
  {
    PrintedMean(values, min, max);
    ReportedIsOnGrid(min);
    ReportedIsOnGrid(max);
    GridIsKept(min);
    GridIsKept(max);
  }

  /** The first grid point at or above a value, and the last one at or below it, in units of the grid. */
  function FirstPointFrom(x: real): int {
    -(-(x * RATIO_PRECISION)).Floor
  }

  function LastPointUpTo(x: real): int {
    (x * RATIO_PRECISION).Floor
  }

  /** Whether `y` is rounded to `k` or more; halves go away from zero. */
  predicate RoundsUpTo(y: real, k: int) {
    if k > 0 then y >= k as real - 0.5 else y > k as real - 0.5
  }

  predicate RoundsDownTo(y: real, k: int) {
    if k >= 0 then y < k as real + 0.5 else y <= k as real + 0.5
  }

  lemma RoundingThresholds(y: real, k: int)
    ensures Round(y) >= k <==> RoundsUpTo(y, k)
    ensures Round(y) <= k <==> RoundsDownTo(y, k)
  {
  }

  lemma RatioAgainst(x: real, bound: real)
    ensures bound <= RoundRatio(x) <==> FirstPointFrom(bound) <= Round(x * RATIO_PRECISION)
    ensures RoundRatio(x) <= bound <==> Round(x * RATIO_PRECISION) <= LastPointUpTo(bound)
  {
    var k := Round(x * RATIO_PRECISION);
    assert RoundRatio(x) * RATIO_PRECISION == k as real;
  }

  /**
   For any values: the printed mean reaches the minimum exactly if the mean is rounded up to the first grid
   point at or above it, and it keeps below the maximum exactly if the mean is rounded down to the last one at or below.
   */
  lemma PrintedMeanInRangeExactly(values: seq<real>, min: real, max: real)
    requires IsMin(values, min) && IsMax(values, max)
    ensures min <= RoundRatio(Mean(values))
            <==> RoundsUpTo(Mean(values) * RATIO_PRECISION, FirstPointFrom(min))
    ensures RoundRatio(Mean(values)) <= max
            <==> RoundsDownTo(Mean(values) * RATIO_PRECISION, LastPointUpTo(max))
  {
    RatioAgainst(Mean(values), min);
    RatioAgainst(Mean(values), max);
    RoundingThresholds(Mean(values) * RATIO_PRECISION, FirstPointFrom(min));
    RoundingThresholds(Mean(values) * RATIO_PRECISION, LastPointUpTo(max));
  }

  // ---------- Ratios ----------

  function SafeRatio(part: real, whole: real): real {
    if whole <= 0.0 then 0.0 else RoundRatio(part / whole)
  }

  function RateAgainstFinished(count: int, finished: int): real {
    if count + finished <= 0 then 0.0 else SafeRatio(count as real, (count + finished) as real)
  }

  /** The rate is a fraction, within half a unit of the share, and does not fall when the count grows. */
  lemma RateIsAFraction(count: nat, finished: nat, more: nat)
    ensures 0.0 <= RateAgainstFinished(count, finished) <= 1.0
    ensures count + finished > 0 ==>
              Rounded(RateAgainstFinished(count, finished), count as real / (count + finished) as real)
    ensures RateAgainstFinished(count, finished) <= RateAgainstFinished(count + more, finished)
  {
    assert RoundRatio(0.0) == 0.0 && RoundRatio(1.0) == 1.0;
    if count + finished > 0 {
      var n := (count + finished) as real;
      DivideBound(count as real, n, 0.0);
      DivideBound(count as real, n, 1.0);
      RoundedBetween(0.0, count as real / n, 1.0);
    }
    RateGrows(count, finished, more);
  }

  lemma RateGrows(count: nat, finished: nat, more: nat)
    ensures RateAgainstFinished(count, finished) <= RateAgainstFinished(count + more, finished)
  {
    if count + finished > 0 {
      var n, m := (count + finished) as real, (count + more + finished) as real;
      assert m == n + more as real;
      ShareGrows(count as real, n, more as real);
      RoundRatioIsMonotone(count as real / n, (count + more) as real / m);
    } else if more > 0 {
      DivideBound(more as real, more as real, 0.0);
      RoundRatioIsMonotone(0.0, more as real / more as real);
      assert RoundRatio(0.0) == 0.0;
    }
  }

  lemma ShareGrows(count: real, n: real, more: real)
    requires 0.0 <= count <= n && n > 0.0 && more >= 0.0
    ensures count / n <= (count + more) / (n + more)
  {
    var share := count / n;
    assert share * n == count;
    DivideBound(count, n, 1.0);
    assert share * more <= more by { assert (1.0 - share) * more >= 0.0; }
    assert (n + more) * share <= count + more;
    DivideBound(count + more, n + more, share);
  }
}
