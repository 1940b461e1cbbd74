/** What the indicators are, without division: the equations their outputs satisfy. */
module IndicatorMeaning {
  import opened Outcomes
  import opened RealArithmetic
  import opened Indicators

  // ----- sums -----

  /** Sums are additive and yield the value of a single element, which determines them. */
  lemma {:induction false} SumIsAdditive(a: seq<real>, b: seq<real>, x: real)
    ensures Sum([]) == 0.0 && Sum([x]) == x && Sum(a + b) == Sum(a) + Sum(b)
  {
    assert [x][..0] == [];
    if |b| == 0 {
      assert a + b == a;
    } else {
      SumIsAdditive(a, b[..|b| - 1], x);
      assert (a + b)[..|a + b| - 1] == a + b[..|b| - 1];
    }
  }

  /** So are sums of products. */
  lemma {:induction false} DotIsAdditive(a: seq<real>, b: seq<real>, u: seq<real>, v: seq<real>, x: real, y: real)
    requires |a| == |b| && |u| == |v|
    ensures Dot([], []) == 0.0 && Dot([x], [y]) == x * y && Dot(a + u, b + v) == Dot(a, b) + Dot(u, v)
  {
    assert [x][..0] == [] && [y][..0] == [];
    if |u| == 0 {
      assert a + u == a && b + v == b;
    } else {
      DotIsAdditive(a, b, u[..|u| - 1], v[..|v| - 1], x, y);
      assert (a + u)[..|a + u| - 1] == a + u[..|u| - 1];
      assert (b + v)[..|b + v| - 1] == b + v[..|v| - 1];
    }
  }

  lemma MeanTimes(values: seq<real>)
    requires |values| > 0
    ensures |values| as real * Mean(values) == Sum(values)
  {
    QuotientTimes(Sum(values), |values| as real);
  }

  // ----- moving averages -----

  /** The average of the values. */
  predicate Averages(average: real, values: seq<real>) { |values| as real * average == Sum(values) }

  /** An exponential step: the average moves by 2 / (period + 1) of its distance to the value. */
  predicate StepsToward(before: real, after: real, value: real, period: nat) {
    (period + 1) as real * (after - before) == 2.0 * (value - before)
  }

  lemma BlendSteps(period: nat, value: real, before: real)
    requires period >= 1
    ensures StepsToward(before, Blend(Alpha(period), value, before), value, period)
  {
    var alpha, n := Alpha(period), (period + 1) as real;
    QuotientTimes(2.0, n);
    assert Blend(alpha, value, before) - before == alpha * (value - before);
    assert n * (alpha * (value - before)) == (alpha * n) * (value - before);
  }

  /** An exponential average starts at the mean of the first `period` values and steps toward each later
      one. */
  lemma EmaEquations(values: seq<real>, period: nat, points: seq<Point>)
    requires 1 <= period <= |values| && points == EmaSeries(values, period, |values|)
    ensures |points| == |values| - period + 1
    ensures forall j | 0 <= j < |points| :: points[j].index == period - 1 + j
    ensures Averages(points[0].value, values[..period])
    ensures forall j | 1 <= j < |points| ::
      StepsToward(points[j - 1].value, points[j].value, values[period - 1 + j], period)
  {
    MeanTimes(values[..period]);
    forall j | 1 <= j < |points|
      ensures StepsToward(points[j - 1].value, points[j].value, values[period - 1 + j], period)
    {
      BlendSteps(period, values[period - 1 + j], EmaAt(values, period, period - 2 + j));
    }
  }

  /** A smoothing step: the average moves by 1 / period of its distance to the value. */
  predicate Smooths(before: real, after: real, value: real, period: nat) {
    period as real * (after - before) == value - before
  }

  lemma WilderSmooths(before: real, value: real, period: nat)
    requires period >= 1
    ensures Smooths(before, WilderStep(before, value, period), value, period)
  {
    var p := period as real;
    QuotientTimes(before * (period - 1) as real + value, p);
    assert before * (period - 1) as real == before * p - before;
  }

  /** A smoothed average starts at the mean of the first `period` values and is smoothed by each later one. */
  lemma WilderEquations(values: seq<real>, period: nat, end: nat)
    requires 1 <= period <= end <= |values|
    ensures if end == period then Averages(WilderAt(values, period, end), values[..period])
      else Smooths(WilderAt(values, period, end - 1), WilderAt(values, period, end), values[end - 1], period)
  {
    if end == period { MeanTimes(values[..period]); } else { WilderSmooths(WilderAt(values, period, end - 1), values[end - 1], period); }
  }

  // ----- relative strength -----

  function Rises(values: seq<real>, n: nat): (rises: seq<real>)
    requires n < |values|
  {
    seq(n, k requires 0 <= k < n => if values[k + 1] > values[k] then values[k + 1] - values[k] else 0.0)
  }

  function Falls(values: seq<real>, n: nat): (falls: seq<real>)
    requires n < |values|
  {
    seq(n, k requires 0 <= k < n => if values[k + 1] < values[k] then values[k] - values[k + 1] else 0.0)
  }

  /** The share of the rise in rise and fall together, in percent, and 50 when there is neither. */
  predicate SharesRise(index: real, rise: real, fall: real) {
    && rise >= 0.0 && fall >= 0.0
    && (rise + fall) * index == 100.0 * rise
    && (rise + fall == 0.0 ==> index == 50.0)
  }

  lemma ShareOfRise(gain: real, loss: real)
    requires gain >= 0.0 && loss >= 0.0
    ensures SharesRise(RsiValue(gain, loss), gain, loss)
  {
    if loss > 0.0 {
      ShareForm(gain, loss);
      var share := (100.0 * loss) / (gain + loss);
      QuotientTimes(100.0 * loss, gain + loss);
      assert RsiValue(gain, loss) == 100.0 - share;
      assert (gain + loss) * (100.0 - share) == 100.0 * (gain + loss) - share * (gain + loss);
    }
  }

  lemma RisesAreGains(values: seq<real>)
    requires |values| > 0
    ensures Rises(values, |values| - 1) == Gains(Changes(values))
    ensures Falls(values, |values| - 1) == Losses(Changes(values))
  {
    assert forall k | 0 <= k < |values| - 1 :: Negated(Changes(values))[k] == values[k] - values[k + 1];
  }

  /** The index is the share of the smoothed rises in the smoothed rises and falls together. */
  lemma RsiEquations(values: seq<real>, period: nat, i: nat)
    requires 1 <= period <= i < |values|
    ensures SharesRise(RsiAt(values, period, i), WilderAt(Rises(values, |values| - 1), period, i),
                       WilderAt(Falls(values, |values| - 1), period, i))
  {
    RisesAreGains(values);
    ShareOfRise(AverageGain(values, period, i), AverageLoss(values, period, i));
  }

  // ----- beta -----

  lemma {:induction false} ZeroDotIsZero(c: seq<real>)
    ensures Dot(c, c) == 0.0 <==> forall i | 0 <= i < |c| :: c[i] == 0.0
  {
    if |c| != 0 {
      var front, last := c[..|c| - 1], c[|c| - 1];
      ZeroDotIsZero(front);
      DotWithItself(front);
      SquareIsPositive(last);
      if last * last == 0.0 { SquaresOrder(last, 0.0); }
      assert forall i | 0 <= i < |front| :: front[i] == c[i];
    }
  }

  lemma FlatMean(values: seq<real>)
    requires |values| > 0 && forall i | 0 <= i < |values| :: values[i] == values[0]
    ensures Mean(values) == values[0]
  {
    MeanWithin(values, values[0], values[0]);
  }

  lemma FlatIff(values: seq<real>)
    requires |values| > 0
    ensures Covariance(values, values) == 0.0 <==> forall i | 0 <= i < |values| :: values[i] == values[0]
  {
    var c := Centered(values);
    ZeroDotIsZero(c);
    assert forall i | 0 <= i < |values| :: c[i] == values[i] - Mean(values);
    if forall i | 0 <= i < |values| :: values[i] == values[0] { FlatMean(values); }
    if forall i | 0 <= i < |c| :: c[i] == 0.0 { assert c[0] == 0.0; }
  }

  /** Beta exists exactly for two equally long series of at least two returns of which the benchmark's
      are not all equal; it is the slope that solves the normal equation of the centred series. */
  lemma BetaEquation(asset: seq<real>, benchmark: seq<real>)
    ensures Beta(asset, benchmark).Ok? <==>
      2 <= |asset| == |benchmark| && exists i :: 0 <= i < |benchmark| && benchmark[i] != benchmark[0]
    ensures Beta(asset, benchmark) == Err(UnequalSeries) <==> |asset| != |benchmark| || |asset| < 2
    ensures Beta(asset, benchmark).Ok? ==>
      exists a, b :: SolvesNormalEquation(Beta(asset, benchmark).value, asset, a, benchmark, b)
  {
    if 2 <= |asset| == |benchmark| {
      FlatIff(benchmark);
      if Beta(asset, benchmark).Ok? {
        DotWithItself(Centered(benchmark));
        QuotientTimes(Covariance(asset, benchmark), Covariance(benchmark, benchmark));
        MeanTimes(asset);
        MeanTimes(benchmark);
        assert SolvesNormalEquation(Beta(asset, benchmark).value, asset, Mean(asset), benchmark, Mean(benchmark));
      }
    }
  }

  ghost predicate SolvesNormalEquation(beta: real, asset: seq<real>, a: real, benchmark: seq<real>, b: real) {
    && |asset| == |benchmark|
    && |asset| as real * a == Sum(asset) && |benchmark| as real * b == Sum(benchmark)
    && beta * Dot(Shifted(benchmark, -b), Shifted(benchmark, -b)) == Dot(Shifted(asset, -a), Shifted(benchmark, -b))
  }

  // ----- range position -----

  /** The last close stands at this position between the lowest and the highest consumed ones. */
  ghost predicate StandsAt(position: real, closes: seq<real>, lookback: int, low: real, high: real)
    requires 1 <= lookback <= |closes|
  {
    var consumed := closes[|closes| - lookback..];
    && low < high && low in consumed && high in consumed && (forall close <- consumed :: low <= close <= high)
    && position * (high - low) == closes[|closes| - 1] - low
  }

  /** The position times the range of the consumed closes is how far the last of them stands above the
      lowest. */
  lemma PositionEquation(closes: seq<real>, lookback: int)
    requires RangePosition(closes, lookback).Ok?
    ensures 1 <= lookback <= |closes|
    ensures exists low, high :: StandsAt(RangePosition(closes, lookback).value, closes, lookback, low, high)
  {
    var consumed := closes[|closes| - lookback..];
    RangeIsAttained(consumed);
    forall close | close in consumed ensures LowestOf(consumed) <= close <= HighestOf(consumed) {
      var k :| 0 <= k < |consumed| && consumed[k] == close;
      RangeHoldsAll(consumed, k);
    }
    var low, high := LowestOf(consumed), HighestOf(consumed);
    LastInRange(consumed);
    QuotientTimes(closes[|closes| - 1] - low, high - low);
    assert StandsAt(RangePosition(closes, lookback).value, closes, lookback, low, high);
  }
}
