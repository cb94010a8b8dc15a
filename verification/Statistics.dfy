/** Exact paired statistics: a running (count, sum, sum of squares) and the conservative
    integer confidence interval computed from it with arbitrary-precision arithmetic. */
module Statistics {
  import opened Results
  import opened DeploymentTypes
  import Sorting

  // ----- Integer rounding -------------------------------------------------------------

  // big.Int.QuoRem truncates toward zero.
  function Quo(a: int, b: int): int
    requires b > 0
  {
    if a >= 0 then a / b else -((-a) / b)
  }

  function Rem(a: int, b: int): int
    requires b > 0
  {
    a - Quo(a, b) * b
  }

  lemma DivisionStep(a: nat, b: int)
    requires b > 0
    ensures (a / b) * b <= a < (a / b) * b + b
  {
    assert a == b * (a / b) + a % b;
  }

  function CeilDiv(a: int, b: int): (q: int)
    requires b > 0
    ensures q * b - b < a <= q * b
  {
    var q := Quo(a, b);
    if a >= 0 then
      DivisionStep(a, b);
      if Rem(a, b) != 0 && a > 0 then
        NextMultiple(q, b);
        q + 1
      else
        ZeroQuotient(a, b);
        q
    else
      DivisionStep(-a, b);
      NegatedProduct((-a) / b, b);
      q
  }

  function FloorDiv(a: int, b: int): (q: int)
    requires b > 0
    ensures q * b <= a < q * b + b
  {
    var q := Quo(a, b);
    if a >= 0 then
      DivisionStep(a, b);
      q
    else
      DivisionStep(-a, b);
      NegatedProduct((-a) / b, b);
      if Rem(a, b) != 0 then
        NextMultiple(q - 1, b);
        q - 1
      else q
  }

  lemma NextMultiple(q: int, b: int)
    ensures (q + 1) * b == q * b + b
  {
  }

  lemma ZeroQuotient(a: nat, b: int)
    requires b > 0
    ensures a == 0 ==> (a / b) * b == 0
  {
  }

  lemma NegatedProduct(q: int, b: int)
    ensures (-q) * b == -(q * b)
  {
  }

  // big.Int.Sqrt
  function FloorSqrt(v: nat): (r: nat)
    ensures r * r <= v < (r + 1) * (r + 1)
  {
    if v == 0 then 0
    else
      var r := FloorSqrt(v - 1);
      if (r + 1) * (r + 1) <= v then r + 1 else r
  }

  function CeilSqrt(v: nat): (r: nat)
    ensures v <= r * r
    ensures forall s: nat | v <= s * s :: r <= s
  {
    var root := FloorSqrt(v);
    var r := if root * root < v then root + 1 else root;
    assert forall s: nat | v <= s * s :: r <= s by {
      forall s: nat | v <= s * s ensures r <= s { if s < r { SquareMonotone(s, r - 1); } }
    }
    r
  }

  lemma SquareMonotone(a: nat, b: nat)
    requires a <= b
    ensures a * a <= b * b
  {
    assert b * b - a * a == (b - a) * (b + a);
  }

  // ----- Moments ----------------------------------------------------------------------

  datatype Moments = Moments(count: nat, sum: int, sumSquares: int)

  const EMPTY := Moments(0, 0, 0)

  // The count is a uint64 and wraps.
  function AddSample(m: Moments, x: int): Moments {
    Moments((m.count + 1) % UINT64_LIMIT, m.sum + x, m.sumSquares + x * x)
  }

  function Sum(xs: seq<int>): int { if xs == [] then 0 else Sum(xs[..|xs| - 1]) + xs[|xs| - 1] }

  function SumSquares(xs: seq<int>): nat {
    if xs == [] then 0 else SumSquares(xs[..|xs| - 1]) + xs[|xs| - 1] * xs[|xs| - 1]
  }

  // The accumulator after adding every element of xs in order.
  function Accumulate(xs: seq<int>): Moments {
    if xs == [] then EMPTY else AddSample(Accumulate(xs[..|xs| - 1]), xs[|xs| - 1])
  }

  class MetricAccumulator {
    var count: nat
    var sum: int
    var sumSquares: int

    function View(): Moments
      reads this
    {
      Moments(count, sum, sumSquares)
    }

    constructor ()
      ensures View() == EMPTY
    {
      count, sum, sumSquares := 0, 0, 0;
    }

    method Add(value: int)
      modifies this
      ensures View() == AddSample(old(View()), value)
      ensures forall xs: seq<int> | old(View()) == Accumulate(xs) :: View() == Accumulate(xs + [value])
    {
      sum := sum + value;
      var square := value * value;
      sumSquares := sumSquares + square;
      count := (count + 1) % UINT64_LIMIT;
      forall xs: seq<int> | old(View()) == Accumulate(xs) ensures View() == Accumulate(xs + [value]) {
        assert (xs + [value])[..|xs|] == xs;
      }
    }
  }

  // What every accumulator fed with deltas of magnitude at most `bound` satisfies.
  ghost predicate Bounded(m: Moments, bound: int) {
    && m.count * m.sumSquares - m.sum * m.sum >= 0
    && -(m.count * bound) <= m.sum <= m.count * bound
    && 0 <= m.sumSquares <= m.count * (bound * bound)
    && (m.count == 0 ==> m.sum == 0 && m.sumSquares == 0)
  }

  lemma ScaledDispersion(n: int, s: int, q: int, x: int)
    ensures n * (q - 2 * x * s + n * (x * x)) == (n * q - s * s) + (s - n * x) * (s - n * x)
  {
  }

  /** The sum of squared distances to x, expressed through the moments, is never negative. */
  lemma DispersionNonnegative(n: nat, s: int, q: int, x: int)
    requires n * q - s * s >= 0
    requires n == 0 ==> q == 0
    ensures q - 2 * x * s + n * (x * x) >= 0
  {
    ScaledDispersion(n, s, q, x);
    SquareNonnegative(s - n * x);
    if n > 0 { ProductSign(q - 2 * x * s + n * (x * x), n); } else { assert s * s <= 0; ZeroSquare(s); }
  }

  lemma SquareNonnegative(a: int)
    ensures a * a >= 0
  {
  }

  lemma ZeroSquare(a: int)
    requires a * a <= 0
    ensures a == 0
  {
  }

  lemma ProductSign(q: int, d: int)
    requires d > 0 && d * q >= 0
    ensures q >= 0
  {
  }

  lemma NumeratorStep(n: int, s: int, q: int, x: int)
    ensures (n + 1) * (q + x * x) - (s + x) * (s + x) == (n * q - s * s) + (q - 2 * x * s + n * (x * x))
  {
  }

  lemma SquareBound(x: int, bound: int)
    requires -bound <= x <= bound
    ensures x * x <= bound * bound
  {
    if x >= 0 { SquareMonotone(x, bound); } else { SquareMonotone(-x, bound); }
  }

  lemma NumeratorStays(n: nat, s: int, q: int, x: int)
    requires n * q - s * s >= 0 && (n == 0 ==> q == 0)
    ensures (n + 1) * (q + x * x) - (s + x) * (s + x) >= 0
  {
    DispersionNonnegative(n, s, q, x);
    NumeratorStep(n, s, q, x);
  }

  lemma RangeStays(n: nat, s: int, q: int, x: int, bound: int)
    requires -bound <= x <= bound && -(n * bound) <= s <= n * bound && 0 <= q <= n * (bound * bound)
    ensures -((n + 1) * bound) <= s + x <= (n + 1) * bound && 0 <= q + x * x <= (n + 1) * (bound * bound)
  {
    NextMultiple(n, bound);
    NextMultiple(n, bound * bound);
    SquareBound(x, bound);
    SquareNonnegative(x);
  }

  /** Adding a bounded delta keeps the accumulator bounded, in particular its variance
      numerator stays nonnegative. */
  lemma AddKeepsBounded(m: Moments, x: int, bound: int)
    requires bound >= 0 && Bounded(m, bound) && -bound <= x <= bound && m.count + 1 < UINT64_LIMIT
    ensures Bounded(AddSample(m, x), bound)
  {
    assert AddSample(m, x) == Moments(m.count + 1, m.sum + x, m.sumSquares + x * x);
    NumeratorStays(m.count, m.sum, m.sumSquares, x);
    RangeStays(m.count, m.sum, m.sumSquares, x, bound);
  }

  // ----- The confidence interval ---------------------------------------------------------

  datatype IntervalError =
    MeanExceedsInt64 | BoundExceedsInt64 | NegativeVariance | HalfWidthExceedsUint64 | IntervalExceedsInt64

  // n * sum(x^2) - sum(x)^2
  function Numerator(m: Moments): int { m.count * m.sumSquares - m.sum * m.sum }

  // n * n * (n - 1)
  function Denominator(m: Moments): int { m.count * m.count * (m.count - 1) }

  lemma DenominatorPositive(m: Moments)
    requires m.count >= 2
    ensures Denominator(m) > 0
  {
    assert m.count * m.count > 0;
  }

  function StandardError(m: Moments): nat
    requires m.count >= 2 && Numerator(m) >= 0
  {
    DenominatorPositive(m);
    NonnegativeQuotient(Numerator(m), Denominator(m));
    CeilSqrt(CeilDiv(Numerator(m), Denominator(m)))
  }

  // metricAccumulator.interval
  function Interval(m: Moments, metric: Metric, t: Threshold, z: nat): (r: Result<ConfidenceInterval, IntervalError>)
  {
    var enough := m.count >= t.minimumSamples;
    var base := ConfidenceInterval(metric, m.count, 0, 0, 0, 0, t.maximumRegression, enough, false);
    if m.count == 0 then Ok(base)
    else
      var meanFloor := FloorDiv(m.sum, m.count);
      var meanCeil := CeilDiv(m.sum, m.count);
      var mean := Quo(m.sum, m.count);
      if !IsInt64(mean) then Err(MeanExceedsInt64)
      else if m.count < 2 then
        if !IsInt64(meanFloor) || !IsInt64(meanCeil) then Err(BoundExceedsInt64)
        else Ok(base.(meanDelta := mean, lowerBound := meanFloor, upperBound := meanCeil))
      else if Numerator(m) < 0 then Err(NegativeVariance)
      else
        var halfWidth := CeilDiv(StandardError(m) * z, PARTS_PER_MILLION);
        if !IsUint64(halfWidth) then Err(HalfWidthExceedsUint64)
        else
          var lower := meanFloor - halfWidth;
          var upper := meanCeil + halfWidth;
          if !IsInt64(lower) || !IsInt64(upper) then Err(IntervalExceedsInt64)
          else
            Ok(base.(meanDelta := mean, lowerBound := lower, upperBound := upper, halfWidth := halfWidth,
                     triggered := enough && upper > t.maximumRegression))
  }

  lemma NonnegativeQuotient(a: int, b: int)
    requires a >= 0 && b > 0
    ensures CeilDiv(a, b) >= 0
  {
    CancelPositive(-1, CeilDiv(a, b), b);
  }

  lemma CancelPositive(a: int, b: int, n: int)
    requires n > 0 && a * n < b * n
    ensures a < b
  {
    NegatedProduct(b, n);
    assert (a - b) * n == a * n - b * n;
  }

  lemma CeilDivAtMost(a: int, b: int, limit: int)
    requires b > 0 && a <= limit * b
    ensures CeilDiv(a, b) <= limit
  {
    NextMultiple(CeilDiv(a, b) - 1, b);
    CancelPositive(CeilDiv(a, b) - 1, limit, b);
  }

  lemma FloorDivAtLeast(a: int, b: int, limit: int)
    requires b > 0 && limit * b <= a
    ensures limit <= FloorDiv(a, b)
  {
    NextMultiple(FloorDiv(a, b), b);
    CancelPositive(limit, FloorDiv(a, b) + 1, b);
  }

  lemma MeanBounds(s: int, n: nat, bound: int)
    requires bound >= 0 && n > 0 && -(n * bound) <= s <= n * bound
    ensures -bound <= FloorDiv(s, n) <= Quo(s, n) <= CeilDiv(s, n) <= bound
  {
    NegatedProduct(bound, n);
    CeilDivAtMost(s, n, bound);
    FloorDivAtLeast(s, n, -bound);
  }

  lemma ScaleBoth(n: int, a: int, b: int)
    requires n >= 0 && a <= b
    ensures n * a <= n * b
  {
  }

  lemma CubeFactor(n: int, c: int)
    requires n >= 2 && c >= 0
    ensures n * (n * c) <= c * (n * n * (n - 1))
  {
    assert n * n * (n - 1) == n * n + (n * n) * (n - 2);
    SquareNonnegative(n);
    ScaleBoth(n * n, 0, n - 2);
    ScaleBoth(c, n * n, n * n * (n - 1));
    assert n * (n * c) == c * (n * n);
  }

  lemma VarianceOfMeanBound(m: Moments, bound: int)
    requires bound >= 0 && Bounded(m, bound) && m.count >= 2
    ensures Denominator(m) > 0
    ensures 0 <= CeilDiv(Numerator(m), Denominator(m)) <= bound * bound
  {
    DenominatorPositive(m);
    NonnegativeQuotient(Numerator(m), Denominator(m));
    SquareNonnegative(m.sum);
    SquareNonnegative(bound);
    ScaleBoth(m.count, m.sumSquares, m.count * (bound * bound));
    CubeFactor(m.count, bound * bound);
    CeilDivAtMost(Numerator(m), Denominator(m), bound * bound);
  }

  /** With deltas inside the validated range, and a validated z-score, computing the
      interval cannot fail: none of the five error exits is reachable. */
  lemma IntervalNeverFails(m: Moments, metric: Metric, t: Threshold, z: nat)
    requires Bounded(m, MAXIMUM_DEPLOYMENT_VALUE) && 1_000_000 <= z <= 5_000_000
    ensures Interval(m, metric, t, z).Ok?
  {
    if m.count > 0 {
      MeanBounds(m.sum, m.count, MAXIMUM_DEPLOYMENT_VALUE);
      if m.count >= 2 {
        VarianceOfMeanBound(m, MAXIMUM_DEPLOYMENT_VALUE);
        var se := StandardError(m);
        assert se <= MAXIMUM_DEPLOYMENT_VALUE;
        ScaleBoth(se, z, 5_000_000);
        ScaleBoth(se, 0, z);
        CeilDivAtMost(se * z, PARTS_PER_MILLION, 5 * MAXIMUM_DEPLOYMENT_VALUE);
        NonnegativeQuotient(se * z, PARTS_PER_MILLION);
      }
    }
  }

  lemma {:induction false} AccumulateIsExact(xs: seq<int>)
    requires |xs| < UINT64_LIMIT
    ensures Accumulate(xs) == Moments(|xs|, Sum(xs), SumSquares(xs))
  {
    if xs != [] { AccumulateIsExact(xs[..|xs| - 1]); }
  }

  /** For every sequence of deltas the variance numerator n*sum(x^2) - sum(x)^2 is
      nonnegative and the moments stay within the range of their inputs. */
  lemma {:induction false} AccumulateIsBounded(xs: seq<int>, bound: int)
    requires |xs| < UINT64_LIMIT && bound >= 0
    requires forall i | 0 <= i < |xs| :: -bound <= xs[i] <= bound
    ensures Bounded(Accumulate(xs), bound)
  {
    if xs == [] {
    } else {
      AccumulateIsBounded(xs[..|xs| - 1], bound);
      AccumulateIsExact(xs[..|xs| - 1]);
      AddKeepsBounded(Accumulate(xs[..|xs| - 1]), xs[|xs| - 1], bound);
    }
  }

  /** Rounding the variance up before taking the root loses nothing: the standard error is
      the least integer whose square reaches the exact variance of the mean. */
  lemma StandardErrorIsLeast(m: Moments)
    requires m.count >= 2 && Numerator(m) >= 0
    ensures Denominator(m) > 0
    ensures Numerator(m) <= (StandardError(m) * StandardError(m)) * Denominator(m)
    ensures forall s: nat | Numerator(m) <= (s * s) * Denominator(m) :: StandardError(m) <= s
  {
    DenominatorPositive(m);
    var n, d, se := Numerator(m), Denominator(m), StandardError(m);
    NonnegativeQuotient(n, d);
    ScaleBoth(d, CeilDiv(n, d), se * se);
    forall s: nat | n <= (s * s) * d ensures se <= s {
      CeilDivAtMost(n, d, s * s);
    }
  }

  lemma WideEnough(h: nat, se: nat, z: nat, n: nat, d: nat)
    requires se * z <= h * PARTS_PER_MILLION && n <= (se * se) * d
    ensures (z * z) * n <= (h * h) * (PARTS_PER_MILLION * PARTS_PER_MILLION) * d
  {
    SquareMonotone(se * z, h * PARTS_PER_MILLION);
    SquareNonnegative(z);
    ScaleBoth(z * z, n, (se * se) * d);
    assert (z * z) * ((se * se) * d) == ((se * z) * (se * z)) * d;
    ScaleBoth(d, (se * z) * (se * z), (h * PARTS_PER_MILLION) * (h * PARTS_PER_MILLION));
    assert (h * PARTS_PER_MILLION) * (h * PARTS_PER_MILLION) == (h * h) * (PARTS_PER_MILLION * PARTS_PER_MILLION);
  }

  lemma IntervalCentres(m: Moments, metric: Metric, t: Threshold, z: nat)
    requires m.count > 0 && Interval(m, metric, t, z).Ok?
    ensures var ci := Interval(m, metric, t, z).value;
      var centreLow, centreHigh := ci.lowerBound + ci.halfWidth, ci.upperBound - ci.halfWidth;
      && ci.sampleCount == m.count
      && centreLow * m.count <= m.sum < centreLow * m.count + m.count
      && centreHigh * m.count - m.count < m.sum <= centreHigh * m.count
      && ci.lowerBound * m.count <= m.sum <= ci.upperBound * m.count
      && (m.count == 1 ==> ci.halfWidth == 0)
      && (if m.sum >= 0 then ci.meanDelta * m.count <= m.sum < ci.meanDelta * m.count + m.count
          else ci.meanDelta * m.count - m.count < m.sum <= ci.meanDelta * m.count)
  {
    var ci := Interval(m, metric, t, z).value;
    var centreLow, centreHigh := FloorDiv(m.sum, m.count), CeilDiv(m.sum, m.count);
    assert ci.lowerBound + ci.halfWidth == centreLow && ci.upperBound - ci.halfWidth == centreHigh;
    ScaleBoth(m.count, ci.lowerBound, centreLow);
    ScaleBoth(m.count, centreHigh, ci.upperBound);
  }

  /** The interval brackets the exact mean as tightly as integers allow, and the mean reported is the exact one
      truncated toward zero. */
  lemma IntervalIsExact(xs: seq<int>, metric: Metric, t: Threshold, z: nat)
    requires 0 < |xs| < UINT64_LIMIT
    requires Interval(Accumulate(xs), metric, t, z).Ok?
    ensures var ci := Interval(Accumulate(xs), metric, t, z).value;
      var centreLow, centreHigh := ci.lowerBound + ci.halfWidth, ci.upperBound - ci.halfWidth;
      && ci.sampleCount == |xs|
      && centreLow * |xs| <= Sum(xs) < centreLow * |xs| + |xs|
      && centreHigh * |xs| - |xs| < Sum(xs) <= centreHigh * |xs|
      && ci.lowerBound * |xs| <= Sum(xs) <= ci.upperBound * |xs|
      && (|xs| == 1 ==> ci.halfWidth == 0)
      && (if Sum(xs) >= 0 then ci.meanDelta * |xs| <= Sum(xs) < ci.meanDelta * |xs| + |xs|
          else ci.meanDelta * |xs| - |xs| < Sum(xs) <= ci.meanDelta * |xs|)
  {
    AccumulateIsExact(xs);
    IntervalCentres(Accumulate(xs), metric, t, z);
  }

  /** The half-width is conservative and least: it covers z standard errors of the exact
      paired sample, and no smaller integer covers z times an integer that reaches one. */
  lemma HalfWidthIsConservative(xs: seq<int>, metric: Metric, t: Threshold, z: nat)
    requires 2 <= |xs| < UINT64_LIMIT
    requires Interval(Accumulate(xs), metric, t, z).Ok?
    ensures var h := Interval(Accumulate(xs), metric, t, z).value.halfWidth;
      var n := |xs|;
      var numerator := n * SumSquares(xs) - Sum(xs) * Sum(xs);
      && numerator >= 0
      && (z * z) * numerator <= (h * h) * (1_000_000 * 1_000_000) * (n * n * (n - 1))
      && forall s: nat, k: nat | numerator <= (s * s) * (n * n * (n - 1)) && s * z <= k * 1_000_000 :: h <= k
  {
    AccumulateIsExact(xs);
    var m := Accumulate(xs);
    var h := Interval(m, metric, t, z).value.halfWidth;
    StandardErrorIsLeast(m);
    WideEnough(h, StandardError(m), z, Numerator(m), Denominator(m));
    forall s: nat, k: nat | Numerator(m) <= (s * s) * Denominator(m) && s * z <= k * PARTS_PER_MILLION ensures h <= k {
      ScaleBoth(z, StandardError(m), s);
      CeilDivAtMost(StandardError(m) * z, PARTS_PER_MILLION, k);
    }
  }

  /** A breach is reported exactly when there are enough samples and the upper bound exceeds
      the permitted regression, also on the early exits for zero and one sample. */
  lemma TriggeredExactly(m: Moments, metric: Metric, t: Threshold, z: nat)
    requires ValidThreshold(t) && Interval(m, metric, t, z).Ok?
    ensures var ci := Interval(m, metric, t, z).value;
      && ci.enoughSamples == (t.minimumSamples <= m.count)
      && ci.triggered == (ci.enoughSamples && ci.upperBound > t.maximumRegression)
  {
  }

  lemma {:induction false} SumRemove(xs: seq<int>, i: nat)
    requires i < |xs|
    ensures Sum(xs) == Sum(xs[..i] + xs[i + 1..]) + xs[i]
    ensures SumSquares(xs) == SumSquares(xs[..i] + xs[i + 1..]) + xs[i] * xs[i]
  {
    var rest := xs[..i] + xs[i + 1..];
    if i == |xs| - 1 {
      assert rest == xs[..|xs| - 1];
    } else {
      var front := xs[..|xs| - 1];
      SumRemove(front, i);
      assert rest[..|rest| - 1] == front[..i] + front[i + 1..];
    }
  }

  lemma {:induction false} SumOfPermutation(xs: seq<int>, ys: seq<int>)
    requires Sorting.Reordering(xs, ys)
    ensures |xs| == |ys| && Sum(xs) == Sum(ys) && SumSquares(xs) == SumSquares(ys)
    decreases |xs|
  {
    hide Sorting.Reordering, Sum, SumSquares;
    Sorting.ReorderingFacts(xs, ys);
    if xs == [] {
      assert xs == ys;
    } else {
      var k :| 0 <= k < |ys| && ys[k] == xs[0];
      Sorting.ReorderingOfRest(xs, ys, k);
      SumOfPermutation(xs[1..], ys[..k] + ys[k + 1..]);
      SumRemove(xs, 0);
      SumRemove(ys, k);
      assert xs[..0] + xs[1..] == xs[1..];
    }
  }

  /** The interval depends on which deltas were observed, not on their order. */
  lemma IntervalIgnoresOrder(xs: seq<int>, ys: seq<int>, metric: Metric, t: Threshold, z: nat)
    requires |xs| < UINT64_LIMIT && multiset(xs) == multiset(ys)
    ensures Interval(Accumulate(xs), metric, t, z) == Interval(Accumulate(ys), metric, t, z)
  {
    SumOfPermutation(xs, ys);
    AccumulateIsExact(xs);
    AccumulateIsExact(ys);
  }
}
