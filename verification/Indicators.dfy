/** Technical indicators over decimal series, as exact reals: recurrences computed by loops against
    their declarative values. */
module Indicators {
  import opened Outcomes
  import opened RealArithmetic

  datatype IndicatorError = BadPeriod | TooFewValues | UnequalSeries | PeriodsOutOfOrder | FlatBenchmark
    | FlatRange

  /** One output point: the index in the input series and the value there. */
  datatype Point = Point(index: nat, value: real)

  function Sum(values: seq<real>): real {
    if |values| == 0 then 0.0 else Sum(values[..|values| - 1]) + values[|values| - 1]
  }

  function Mean(values: seq<real>): real
    requires |values| > 0
  {
    Sum(values) / |values| as real
  }

  predicate Within(values: seq<real>, low: real, high: real) {
    forall i | 0 <= i < |values| :: low <= values[i] <= high
  }

  lemma {:induction false} SumWithin(values: seq<real>, low: real, high: real)
    requires Within(values, low, high)
    ensures low * |values| as real <= Sum(values) <= high * |values| as real
  {
    if |values| != 0 {
      var front := values[..|values| - 1];
      SumWithin(front, low, high);
      assert |values| as real == |front| as real + 1.0;
      assert low * |values| as real == low * |front| as real + low;
      assert high * |values| as real == high * |front| as real + high;
    }
  }

  lemma MeanWithin(values: seq<real>, low: real, high: real)
    requires |values| > 0 && Within(values, low, high)
    ensures low <= Mean(values) <= high
  {
    SumWithin(values, low, high);
    DivideOrder(Sum(values), low, |values| as real);
    DivideOrder(Sum(values), high, |values| as real);
  }

  // ----- exponential moving average -----

  function Alpha(period: nat): (alpha: real)
    requires period >= 1
    ensures 0.0 < alpha <= 1.0
  {
    DivideOrder(2.0, 0.0, (period + 1) as real);
    DivideOrder(2.0, 1.0, (period + 1) as real);
    2.0 / (period + 1) as real
  }

  function Blend(alpha: real, x: real, y: real): real { alpha * x + (1.0 - alpha) * y }

  lemma BlendWithin(alpha: real, x: real, y: real, low: real, high: real)
    requires 0.0 <= alpha <= 1.0 && low <= x <= high && low <= y <= high
    ensures low <= Blend(alpha, x, y) <= high
  {
    PositiveProduct(alpha, x - low);
    PositiveProduct(1.0 - alpha, y - low);
    PositiveProduct(alpha, high - x);
    PositiveProduct(1.0 - alpha, high - y);
    assert Blend(alpha, x, y) - low == alpha * (x - low) + (1.0 - alpha) * (y - low);
    assert high - Blend(alpha, x, y) == alpha * (high - x) + (1.0 - alpha) * (high - y);
  }

  /** The average at an index, seeded by the mean of the first `period` values. */
  function EmaAt(values: seq<real>, period: nat, i: nat): real
    requires 1 <= period <= i + 1 <= |values|
    decreases i
  {
    if i == period - 1 then Mean(values[..period])
    else Blend(Alpha(period), values[i], EmaAt(values, period, i - 1))
  }

  /** One point per index from `period - 1` up to `end - 1`. */
  function EmaSeries(values: seq<real>, period: nat, end: nat): (points: seq<Point>)
    requires 1 <= period <= end <= |values|
    ensures |points| == end - period + 1
    ensures forall j | 0 <= j < |points| :: points[j] == Point(period - 1 + j, EmaAt(values, period, period - 1 + j))
  {
    var last := Point(end - 1, EmaAt(values, period, end - 1));
    if end == period then [last] else EmaSeries(values, period, end - 1) + [last]
  }

  method Ema(values: seq<real>, period: int) returns (r: Result<seq<Point>, IndicatorError>)
    ensures r == if period < 1 then Err(BadPeriod) else if |values| < period then Err(TooFewValues)
      else Ok(EmaSeries(values, period, |values|))
  {
    if period < 1 { return Err(BadPeriod); }
    if |values| < period { return Err(TooFewValues); }
    var alpha := Alpha(period);
    var current := Mean(values[..period]);
    var output := [Point(period - 1, current)];
    for index := period to |values|
      invariant current == EmaAt(values, period, index - 1)
      invariant output == EmaSeries(values, period, index)
    {
      current := Blend(alpha, values[index], current);
      output := output + [Point(index, current)];
    }
    r := Ok(output);
  }

  /** Every average lies between bounds on the values seen so far. */
  lemma {:induction false} EmaWithin(values: seq<real>, period: nat, i: nat, low: real, high: real)
    requires 1 <= period <= i + 1 <= |values| && Within(values[..i + 1], low, high)
    ensures low <= EmaAt(values, period, i) <= high
    decreases i
  {
    if i == period - 1 {
      MeanWithin(values[..period], low, high);
    } else {
      assert forall k | 0 <= k < i :: values[..i][k] == values[..i + 1][k];
      EmaWithin(values, period, i - 1, low, high);
      assert values[i] == values[..i + 1][i];
      BlendWithin(Alpha(period), values[i], EmaAt(values, period, i - 1), low, high);
    }
  }

  function Shifted(values: seq<real>, offset: real): (shifted: seq<real>)
    ensures |shifted| == |values| && forall i | 0 <= i < |values| :: shifted[i] == values[i] + offset
  {
    seq(|values|, i requires 0 <= i < |values| => values[i] + offset)
  }

  lemma {:induction false} SumOfShifted(values: seq<real>, offset: real)
    ensures Sum(Shifted(values, offset)) == Sum(values) + offset * |values| as real
  {
    if |values| != 0 {
      var front := values[..|values| - 1];
      SumOfShifted(front, offset);
      assert Shifted(values, offset)[..|front|] == Shifted(front, offset);
      assert |values| as real == |front| as real + 1.0;
      assert offset * |values| as real == offset * |front| as real + offset;
    }
  }

  lemma MeanOfShifted(values: seq<real>, offset: real)
    requires |values| > 0
    ensures Mean(Shifted(values, offset)) == Mean(values) + offset
  {
    var n := |values| as real;
    SumOfShifted(values, offset);
    QuotientOfSum(Sum(values), offset * n, n);
    SameQuotient(offset, offset * n, n);
  }

  lemma BlendOfShifted(alpha: real, x: real, y: real, offset: real)
    ensures Blend(alpha, x + offset, y + offset) == Blend(alpha, x, y) + offset
  {
    assert alpha * (x + offset) == alpha * x + alpha * offset;
    assert (1.0 - alpha) * (y + offset) == (1.0 - alpha) * y + (1.0 - alpha) * offset;
    assert alpha * offset + (1.0 - alpha) * offset == offset;
  }

  /** Moving every value by a constant moves every average by it. */
  lemma {:induction false} EmaOfShifted(values: seq<real>, period: nat, i: nat, offset: real)
    requires 1 <= period <= i + 1 <= |values|
    ensures EmaAt(Shifted(values, offset), period, i) == EmaAt(values, period, i) + offset
    decreases i
  {
    if i == period - 1 {
      assert Shifted(values, offset)[..period] == Shifted(values[..period], offset);
      MeanOfShifted(values[..period], offset);
    } else {
      EmaOfShifted(values, period, i - 1, offset);
      BlendOfShifted(Alpha(period), values[i], EmaAt(values, period, i - 1), offset);
    }
  }

  // ----- Wilder smoothing -----

  /** The smoothed average after `end` values: a mean of the first `period`, then 1/period steps. */
  function WilderAt(values: seq<real>, period: nat, end: nat): real
    requires 1 <= period <= end <= |values|
    decreases end
  {
    if end == period then Mean(values[..period])
    else WilderStep(WilderAt(values, period, end - 1), values[end - 1], period)
  }

  function WilderStep(average: real, value: real, period: nat): real
    requires period >= 1
  {
    (average * (period - 1) as real + value) / period as real
  }

  lemma WilderStepWithin(average: real, value: real, period: nat, low: real, high: real)
    requires period >= 1 && low <= average <= high && low <= value <= high
    ensures low <= WilderStep(average, value, period) <= high
  {
    var p, q := period as real, (period - 1) as real;
    ScaleAll(average, low, high, q);
    assert low * p == low * q + low && high * p == high * q + high;
    DivideOrder(average * q + value, low, p);
    DivideOrder(average * q + value, high, p);
  }

  lemma ScaleAll(x: real, low: real, high: real, factor: real)
    requires low <= x <= high && factor >= 0.0
    ensures low * factor <= x * factor <= high * factor
  {
    PositiveProduct(x - low, factor);
    PositiveProduct(high - x, factor);
  }

  lemma {:induction false} WilderWithin(values: seq<real>, period: nat, end: nat, low: real, high: real)
    requires 1 <= period <= end <= |values| && Within(values, low, high)
    ensures low <= WilderAt(values, period, end) <= high
    decreases end
  {
    if end == period {
      MeanWithin(values[..period], low, high);
    } else {
      WilderWithin(values, period, end - 1, low, high);
      WilderStepWithin(WilderAt(values, period, end - 1), values[end - 1], period, low, high);
    }
  }

  // ----- relative strength index -----

  function Changes(values: seq<real>): (changes: seq<real>)
    requires |values| > 0
    ensures |changes| == |values| - 1
    ensures forall i | 0 <= i < |changes| :: changes[i] == values[i + 1] - values[i]
  {
    seq(|values| - 1, i requires 0 <= i < |values| - 1 => values[i + 1] - values[i])
  }

  function Gains(changes: seq<real>): (gains: seq<real>)
    ensures |gains| == |changes| && forall i | 0 <= i < |gains| :: gains[i] == Max(changes[i], 0.0)
  {
    seq(|changes|, i requires 0 <= i < |changes| => Max(changes[i], 0.0))
  }

  function Negated(values: seq<real>): (negated: seq<real>)
    ensures |negated| == |values| && forall i | 0 <= i < |values| :: negated[i] == -values[i]
  {
    seq(|values|, i requires 0 <= i < |values| => -values[i])
  }

  function Losses(changes: seq<real>): seq<real> { Gains(Negated(changes)) }

  function RsiValue(gain: real, loss: real): real
    requires gain >= 0.0 && loss >= 0.0
  {
    if loss == 0.0 then if gain > 0.0 then 100.0 else 50.0
    else
      QuotientNonNegative(gain, loss);
      100.0 - 100.0 / (1.0 + gain / loss)
  }

  lemma RsiValueInRange(gain: real, loss: real)
    requires gain >= 0.0 && loss >= 0.0
    ensures 0.0 <= RsiValue(gain, loss) <= 100.0
  {
    if loss != 0.0 {
      QuotientNonNegative(gain, loss);
      DivideOrder(100.0, 0.0, 1.0 + gain / loss);
      DivideOrder(100.0, 100.0, 1.0 + gain / loss);
    }
  }

  lemma ShareForm(gain: real, loss: real)
    requires gain >= 0.0 && loss > 0.0
    ensures gain / loss >= 0.0
    ensures 100.0 / (1.0 + gain / loss) == (100.0 * loss) / (gain + loss)
  {
    var strength := gain / loss;
    QuotientNonNegative(gain, loss);
    var share := 100.0 / (1.0 + strength);
    QuotientTimes(100.0, 1.0 + strength);
    QuotientTimes(gain, loss);
    assert (1.0 + strength) * loss == gain + loss;
    assert share * (gain + loss) == (share * (1.0 + strength)) * loss;
    SameQuotient(share, 100.0 * loss, gain + loss);
  }

  /** Gains and losses exchanged mirror the index in 50. */
  lemma RsiValueMirrors(gain: real, loss: real)
    requires gain >= 0.0 && loss >= 0.0
    ensures RsiValue(loss, gain) == 100.0 - RsiValue(gain, loss)
  {
    if loss > 0.0 && gain > 0.0 {
      ShareForm(gain, loss);
      ShareForm(loss, gain);
      var total := gain + loss;
      QuotientOfSum(100.0 * gain, 100.0 * loss, total);
      SameQuotient(100.0, 100.0 * gain + 100.0 * loss, total);
    } else if loss > 0.0 {
      SameQuotient(0.0, gain, loss);
    } else if gain > 0.0 {
      SameQuotient(0.0, loss, gain);
    }
  }

  lemma {:induction false} WilderNonNegative(values: seq<real>, period: nat, end: nat)
    requires 1 <= period <= end <= |values| && forall i | 0 <= i < |values| :: values[i] >= 0.0
    ensures WilderAt(values, period, end) >= 0.0
    decreases end
  {
    if end == period {
      SumNonNegative(values[..period]);
      QuotientNonNegative(Sum(values[..period]), period as real);
    } else {
      WilderNonNegative(values, period, end - 1);
      PositiveProduct(WilderAt(values, period, end - 1), (period - 1) as real);
      QuotientNonNegative(WilderAt(values, period, end - 1) * (period - 1) as real + values[end - 1], period as real);
    }
  }

  lemma {:induction false} SumNonNegative(values: seq<real>)
    requires forall i | 0 <= i < |values| :: values[i] >= 0.0
    ensures Sum(values) >= 0.0
  {
    if |values| != 0 { SumNonNegative(values[..|values| - 1]); }
  }

  function AverageGain(values: seq<real>, period: nat, i: nat): (gain: real)
    requires 1 <= period <= i < |values|
    ensures gain >= 0.0
  {
    WilderNonNegative(Gains(Changes(values)), period, i);
    WilderAt(Gains(Changes(values)), period, i)
  }

  function AverageLoss(values: seq<real>, period: nat, i: nat): (loss: real)
    requires 1 <= period <= i < |values|
    ensures loss >= 0.0
  {
    WilderNonNegative(Losses(Changes(values)), period, i);
    WilderAt(Losses(Changes(values)), period, i)
  }

  function RsiAt(values: seq<real>, period: nat, i: nat): real
    requires 1 <= period <= i < |values|
  {
    RsiValue(AverageGain(values, period, i), AverageLoss(values, period, i))
  }

  /** One point per index from `period` up to `end - 1`. */
  function RsiSeries(values: seq<real>, period: nat, end: nat): (points: seq<Point>)
    requires 1 <= period < end <= |values|
    ensures |points| == end - period
    ensures forall j | 0 <= j < |points| :: points[j] == Point(period + j, RsiAt(values, period, period + j))
  {
    var last := Point(end - 1, RsiAt(values, period, end - 1));
    if end == period + 1 then [last] else RsiSeries(values, period, end - 1) + [last]
  }

  method Rsi(values: seq<real>, period: int) returns (r: Result<seq<Point>, IndicatorError>)
    ensures r == if period < 2 then Err(BadPeriod) else if |values| < period + 1 then Err(TooFewValues)
      else Ok(RsiSeries(values, period, |values|))
  {
    if period < 2 { return Err(BadPeriod); }
    if |values| < period + 1 { return Err(TooFewValues); }
    var changes := Changes(values);
    var gains, losses := Gains(changes), Losses(changes);
    var averageGain, averageLoss := Mean(gains[..period]), Mean(losses[..period]);
    assert averageGain == AverageGain(values, period, period) && averageLoss == AverageLoss(values, period, period);
    var output := [Point(period, RsiValue(averageGain, averageLoss))];
    for changeIndex := period to |changes|
      invariant averageGain == AverageGain(values, period, changeIndex)
      invariant averageLoss == AverageLoss(values, period, changeIndex)
      invariant output == RsiSeries(values, period, changeIndex + 1)
    {
      averageGain := WilderStep(averageGain, gains[changeIndex], period);
      averageLoss := WilderStep(averageLoss, losses[changeIndex], period);
      assert averageGain == AverageGain(values, period, changeIndex + 1);
      assert averageLoss == AverageLoss(values, period, changeIndex + 1);
      output := output + [Point(changeIndex + 1, RsiValue(averageGain, averageLoss))];
    }
    r := Ok(output);
  }

  /** The index lies in [0, 100], and a mirrored series has the mirrored index. */
  lemma RsiRangeAndMirror(values: seq<real>, period: nat, i: nat)
    requires 1 <= period <= i < |values|
    ensures 0.0 <= RsiAt(values, period, i) <= 100.0
    ensures RsiAt(Negated(values), period, i) == 100.0 - RsiAt(values, period, i)
  {
    var gain, loss := AverageGain(values, period, i), AverageLoss(values, period, i);
    RsiValueInRange(gain, loss);
    RsiValueMirrors(gain, loss);
    NegatedChanges(values);
  }

  lemma NegatedChanges(values: seq<real>)
    requires |values| > 0
    ensures Gains(Changes(Negated(values))) == Losses(Changes(values))
    ensures Losses(Changes(Negated(values))) == Gains(Changes(values))
  {
    assert Changes(Negated(values)) == Negated(Changes(values));
    assert Negated(Negated(Changes(values))) == Changes(values);
  }

  // ----- moving average convergence/divergence -----

  datatype MacdPoint = MacdPoint(index: nat, line: real, signal: real, histogram: real)

  function LineAt(values: seq<real>, fast: nat, slow: nat, i: nat): real
    requires 1 <= fast <= slow <= i + 1 <= |values|
  {
    EmaAt(values, fast, i) - EmaAt(values, slow, i)
  }

  /** The line from index `slow - 1` on. */
  function Line(values: seq<real>, fast: nat, slow: nat): (line: seq<real>)
    requires 1 <= fast <= slow <= |values|
    ensures |line| == |values| - slow + 1
    ensures forall j | 0 <= j < |line| :: line[j] == LineAt(values, fast, slow, slow - 1 + j)
  {
    seq(|values| - slow + 1,
        j requires 0 <= j < |values| - slow + 1 => LineAt(values, fast, slow, slow - 1 + j))
  }

  function MacdAt(values: seq<real>, fast: nat, slow: nat, signal: nat, k: nat): (point: MacdPoint)
    requires 1 <= fast <= slow && 1 <= signal <= k + 1 <= |values| - slow + 1
    ensures point.index == slow - 1 + k
  {
    var line := Line(values, fast, slow);
    var average := EmaAt(line, signal, k);
    MacdPoint(slow - 1 + k, line[k], average, line[k] - average)
  }

  predicate MacdAccepts(values: seq<real>, fast: int, slow: int, signal: int) {
    1 <= fast < slow && 1 <= signal && slow + signal - 1 <= |values|
  }

  /** The outputs cover exactly the indices from slow + signal - 2 to the last one, in order. */
  ghost predicate IsMacd(points: seq<MacdPoint>, values: seq<real>, fast: nat, slow: nat, signal: nat)
    requires MacdAccepts(values, fast, slow, signal)
  {
    && |points| == |values| - (slow + signal - 2)
    && (forall j | 0 <= j < |points| ::
          && points[j] == MacdAt(values, fast, slow, signal, signal - 1 + j)
          && points[j].index == slow + signal - 2 + j)
  }

  /** The index-to-value dictionary of a point list. */
  function Lookup(points: seq<Point>): (m: map<nat, real>)
    requires forall j, k | 0 <= j < k < |points| :: points[j].index != points[k].index
    ensures forall j | 0 <= j < |points| :: points[j].index in m && m[points[j].index] == points[j].value
  {
    if |points| == 0 then map[]
    else
      var last := points[|points| - 1];
      Lookup(points[..|points| - 1])[last.index := last.value]
  }

  method Macd(values: seq<real>, fast: int, slow: int, signal: int) returns (r: Result<seq<MacdPoint>, IndicatorError>)
    ensures r == Err(PeriodsOutOfOrder) <==> fast < 1 || slow <= fast || signal < 1
    ensures r.Ok? <==> MacdAccepts(values, fast, slow, signal)
    ensures r.Ok? ==> IsMacd(r.value, values, fast, slow, signal)
  {
    if fast < 1 || slow <= fast || signal < 1 { return Err(PeriodsOutOfOrder); }
    if |values| < slow + signal - 1 { return Err(TooFewValues); }
    var fastPoints := Ema(values, fast);
    var slowPoints := Ema(values, slow);
    var lookup := Lookup(fastPoints.value);
    var line := LineFrom(lookup, slowPoints.value, values, fast, slow);
    var signals := Ema(line, signal);
    r := Ok(JoinSignals(line, signals.value, slow));
    assert r.value == JoinSignals(line, EmaSeries(line, signal, |line|), slow);
  }

  /** Every slow index is found among the fast ones. */
  method LineFrom(lookup: map<nat, real>, slowPoints: seq<Point>, ghost values: seq<real>, ghost fast: nat, ghost slow: nat)
    returns (line: seq<real>)
    requires 1 <= fast <= slow <= |values|
    requires lookup == Lookup(EmaSeries(values, fast, |values|)) && slowPoints == EmaSeries(values, slow, |values|)
    ensures line == Line(values, fast, slow)
  {
    line := [];
    for j := 0 to |slowPoints|
      invariant line == Line(values, fast, slow)[..j]
    {
      FastFound(values, fast, slow, j);
      line := line + [lookup[slowPoints[j].index] - slowPoints[j].value];
    }
  }

  lemma FastFound(values: seq<real>, fast: nat, slow: nat, j: nat)
    requires 1 <= fast <= slow <= |values| && j <= |values| - slow
    ensures var lookup := Lookup(EmaSeries(values, fast, |values|));
      slow - 1 + j in lookup && lookup[slow - 1 + j] == EmaAt(values, fast, slow - 1 + j)
  {
    var points := EmaSeries(values, fast, |values|);
    assert points[slow - fast + j] == Point(slow - 1 + j, EmaAt(values, fast, slow - 1 + j));
  }

  function JoinSignals(line: seq<real>, signals: seq<Point>, slow: nat): seq<MacdPoint>
    requires slow >= 1 && forall j | 0 <= j < |signals| :: signals[j].index < |line|
  {
    seq(|signals|, j requires 0 <= j < |signals| =>
      var at := signals[j].index;
      MacdPoint(slow - 1 + at, line[at], signals[j].value, line[at] - signals[j].value))
  }

  /** Moving every price by a constant changes nothing: line, signal and histogram stay as they are. */
  lemma MacdOfShifted(values: seq<real>, fast: nat, slow: nat, signal: nat, k: nat, offset: real)
    requires 1 <= fast <= slow && 1 <= signal <= k + 1 <= |values| - slow + 1
    ensures MacdAt(Shifted(values, offset), fast, slow, signal, k) == MacdAt(values, fast, slow, signal, k)
  {
    var line, moved := Line(values, fast, slow), Line(Shifted(values, offset), fast, slow);
    forall j | 0 <= j < |line| ensures line[j] == moved[j] {
      EmaOfShifted(values, fast, slow - 1 + j, offset);
      EmaOfShifted(values, slow, slow - 1 + j, offset);
    }
    assert line == moved;
  }

  // ----- true range -----

  function Abs(x: real): real { if x < 0.0 then -x else x }

  function TrueRangeAt(highs: seq<real>, lows: seq<real>, closes: seq<real>, i: nat): real
    requires i < |highs| == |lows| == |closes|
  {
    if i == 0 then highs[0] - lows[0]
    else Max(highs[i] - lows[i], Max(Abs(highs[i] - closes[i - 1]), Abs(lows[i] - closes[i - 1])))
  }

  ghost predicate IsTrueRanges(ranges: seq<real>, highs: seq<real>, lows: seq<real>, closes: seq<real>) {
    && |ranges| == |highs| == |lows| == |closes|
    && (forall i | 0 <= i < |highs| :: ranges[i] == TrueRangeAt(highs, lows, closes, i))
  }

  method TrueRanges(highs: seq<real>, lows: seq<real>, closes: seq<real>) returns (r: Result<seq<real>, IndicatorError>)
    ensures r.Err? <==> |highs| == 0 || |highs| != |lows| || |highs| != |closes|
    ensures r.Ok? ==> IsTrueRanges(r.value, highs, lows, closes)
  {
    if |highs| == 0 || |highs| != |lows| || |highs| != |closes| { return Err(UnequalSeries); }
    var ranges := [highs[0] - lows[0]];
    for index := 1 to |highs|
      invariant |ranges| == index
      invariant forall i | 0 <= i < index :: ranges[i] == TrueRangeAt(highs, lows, closes, i)
    {
      ranges := ranges + [Max(highs[index] - lows[index],
                              Max(Abs(highs[index] - closes[index - 1]), Abs(lows[index] - closes[index - 1])))];
    }
    r := Ok(ranges);
  }

  /** With the low no higher than the high, the true range is the width of the bar stretched to the
      previous close. */
  lemma TrueRangeIsStretchedBar(highs: seq<real>, lows: seq<real>, closes: seq<real>, i: nat)
    requires 0 < i < |highs| == |lows| == |closes| && lows[i] <= highs[i]
    ensures TrueRangeAt(highs, lows, closes, i) == Max(highs[i], closes[i - 1]) - Min(lows[i], closes[i - 1])
    ensures TrueRangeAt(highs, lows, closes, i) >= highs[i] - lows[i] >= 0.0
  {
  }

  function AtrSeries(ranges: seq<real>, period: nat, end: nat): (points: seq<Point>)
    requires 1 <= period < end <= |ranges|
    ensures |points| == end - period
    ensures forall j | 0 <= j < |points| :: points[j] == Point(period + j, WilderAt(ranges[1..], period, period + j))
  {
    var last := Point(end - 1, WilderAt(ranges[1..], period, end - 1));
    if end == period + 1 then [last] else AtrSeries(ranges, period, end - 1) + [last]
  }

  method Atr(highs: seq<real>, lows: seq<real>, closes: seq<real>, period: int)
    returns (r: Result<seq<Point>, IndicatorError>)
    ensures r == Err(UnequalSeries) <==> |highs| == 0 || |highs| != |lows| || |highs| != |closes|
    ensures r.Ok? <==> 0 < |highs| == |lows| == |closes| && 1 <= period < |highs|
    ensures r.Ok? ==> exists ranges :: IsAtr(r.value, ranges, highs, lows, closes, period)
  {
    var ranged := TrueRanges(highs, lows, closes);
    if ranged.Err? { return Err(UnequalSeries); }
    var ranges := ranged.value;
    if period < 1 || |ranges| < period + 1 { return Err(TooFewValues); }
    assert ranges[1..][..period] == ranges[1..period + 1];
    var current := Mean(ranges[1..period + 1]);
    var output := [Point(period, current)];
    for index := period + 1 to |ranges|
      invariant current == WilderAt(ranges[1..], period, index - 1)
      invariant output == AtrSeries(ranges, period, index)
    {
      assert ranges[1..][index - 1] == ranges[index];
      current := WilderStep(current, ranges[index], period);
      output := output + [Point(index, current)];
    }
    r := Ok(output);
    assert IsAtr(r.value, ranges, highs, lows, closes, period);
  }

  ghost predicate IsAtr(points: seq<Point>, ranges: seq<real>, highs: seq<real>, lows: seq<real>, closes: seq<real>,
                        period: nat)
    requires |highs| == |lows| == |closes| && 1 <= period < |highs|
  {
    && IsTrueRanges(ranges, highs, lows, closes)
    && points == AtrSeries(ranges, period, |ranges|)
  }

  /** Every average true range lies between bounds on the true ranges after the first bar. */
  lemma AtrWithin(points: seq<Point>, ranges: seq<real>, highs: seq<real>, lows: seq<real>, closes: seq<real>,
                  period: nat, low: real, high: real)
    requires |highs| == |lows| == |closes| && 1 <= period < |highs|
    requires IsAtr(points, ranges, highs, lows, closes, period)
    requires forall i | 1 <= i < |highs| :: low <= TrueRangeAt(highs, lows, closes, i) <= high
    ensures forall point <- points :: low <= point.value <= high
  {
    forall j | 0 <= j < |points| ensures low <= points[j].value <= high {
      assert points[j].value == WilderAt(ranges[1..], period, period + j);
      WilderWithin(ranges[1..], period, period + j, low, high);
    }
  }

  // ----- beta -----

  function Dot(x: seq<real>, y: seq<real>): real
    requires |x| == |y|
  {
    if |x| == 0 then 0.0
    else Dot(x[..|x| - 1], y[..|y| - 1]) + x[|x| - 1] * y[|y| - 1]
  }

  function Centered(values: seq<real>): (centered: seq<real>)
    requires |values| > 0
    ensures |centered| == |values|
  {
    Shifted(values, -Mean(values))
  }

  function Covariance(asset: seq<real>, benchmark: seq<real>): real
    requires 0 < |asset| == |benchmark|
  {
    Dot(Centered(asset), Centered(benchmark))
  }

  function Beta(asset: seq<real>, benchmark: seq<real>): Result<real, IndicatorError> {
    if |asset| != |benchmark| || |asset| < 2 then Err(UnequalSeries)
    else if Covariance(benchmark, benchmark) == 0.0 then Err(FlatBenchmark)
    else Ok(Covariance(asset, benchmark) / Covariance(benchmark, benchmark))
  }

  lemma {:induction false} DotSymmetric(x: seq<real>, y: seq<real>)
    requires |x| == |y|
    ensures Dot(x, y) == Dot(y, x)
  {
    if |x| != 0 { DotSymmetric(x[..|x| - 1], y[..|y| - 1]); }
  }

  lemma {:induction false} DotWithItself(x: seq<real>)
    ensures Dot(x, x) >= 0.0
  {
    if |x| != 0 {
      DotWithItself(x[..|x| - 1]);
      SquareIsPositive(x[|x| - 1]);
    }
  }

  /** The sum of the squares of x - t y, expanded. */
  lemma {:induction false} SquaredDistance(x: seq<real>, y: seq<real>, t: real)
    requires |x| == |y|
    ensures Dot(x, x) - 2.0 * (t * Dot(x, y)) + (t * t) * Dot(y, y) >= 0.0
  {
    if |x| != 0 {
      var a, b := x[|x| - 1], y[|y| - 1];
      SquaredDistance(x[..|x| - 1], y[..|y| - 1], t);
      OneTerm(a, b, t);
      Distribute(t, Dot(x[..|x| - 1], y[..|y| - 1]), a * b);
      Distribute(t * t, Dot(y[..|y| - 1], y[..|y| - 1]), b * b);
    }
  }

  lemma OneTerm(a: real, b: real, t: real)
    ensures a * a - 2.0 * (t * (a * b)) + (t * t) * (b * b) >= 0.0
  {
    var d := a - t * b;
    SquareIsPositive(d);
    assert d * d == a * a - 2.0 * (a * (t * b)) + (t * b) * (t * b);
    assert a * (t * b) == t * (a * b);
    assert (t * b) * (t * b) == (t * t) * (b * b);
  }

  lemma Distribute(t: real, u: real, v: real)
    ensures t * (u + v) == t * u + t * v
  {
  }

  /** A series of length zero is all zeros, so it has no covariance with anything. */
  lemma {:induction false} FlatHasNoCovariance(x: seq<real>, y: seq<real>)
    requires |x| == |y| && Dot(y, y) == 0.0
    ensures Dot(x, y) == 0.0
  {
    if |x| != 0 {
      var front, last := y[..|y| - 1], y[|y| - 1];
      DotWithItself(front);
      SquareIsPositive(last);
      assert Dot(front, front) == 0.0 && last * last == 0.0;
      SquaresOrder(last, 0.0);
      FlatHasNoCovariance(x[..|x| - 1], front);
    }
  }

  /** Cauchy-Schwarz over sequences. */
  lemma CauchySchwarz(x: seq<real>, y: seq<real>)
    requires |x| == |y|
    ensures Dot(x, y) * Dot(x, y) <= Dot(x, x) * Dot(y, y)
  {
    DotWithItself(y);
    if Dot(y, y) == 0.0 {
      FlatHasNoCovariance(x, y);
    } else {
      var t := Dot(x, y) / Dot(y, y);
      SquaredDistance(x, y, t);
      QuadraticAtMinimum(Dot(x, x), Dot(x, y), Dot(y, y), t);
    }
  }

  lemma QuadraticAtMinimum(xx: real, xy: real, yy: real, t: real)
    requires yy > 0.0 && t * yy == xy && xx - 2.0 * (t * xy) + (t * t) * yy >= 0.0
    ensures xy * xy <= xx * yy
  {
    assert (t * t) * yy == t * xy;
    assert xx - t * xy >= 0.0;
    PositiveProduct(xx - t * xy, yy);
    assert (xx - t * xy) * yy == xx * yy - (t * yy) * xy;
  }

  /** Regressing each series on the other: the product of the two betas is the squared correlation,
      so it lies in [0, 1]; both are defined exactly when neither series is flat. */
  lemma BetasMultiplyIntoUnit(asset: seq<real>, benchmark: seq<real>)
    requires Beta(asset, benchmark).Ok? && Beta(benchmark, asset).Ok?
    ensures 0.0 <= Beta(asset, benchmark).value * Beta(benchmark, asset).value <= 1.0
  {
    BetasOfCentered(Centered(asset), Centered(benchmark));
  }

  lemma BetasOfCentered(a: seq<real>, b: seq<real>)
    requires |a| == |b| && Dot(a, a) != 0.0 && Dot(b, b) != 0.0
    ensures 0.0 <= (Dot(a, b) / Dot(b, b)) * (Dot(b, a) / Dot(a, a)) <= 1.0
  {
    DotSymmetric(a, b);
    DotWithItself(a);
    DotWithItself(b);
    CauchySchwarz(a, b);
    ProductOfQuotients(Dot(a, b), Dot(a, a), Dot(b, b));
  }

  lemma ProductOfQuotients(c: real, u: real, v: real)
    requires u > 0.0 && v > 0.0 && c * c <= u * v
    ensures 0.0 <= (c / v) * (c / u) <= 1.0
  {
    var p, q := c / v, c / u;
    QuotientTimes(c, v);
    QuotientTimes(c, u);
    PositiveProduct(u, v);
    SquareIsPositive(c);
    var product, area := p * q, u * v;
    assert product * area == (p * v) * (q * u) == c * c;
    ScaleOrder(0.0, product, area);
    ScaleOrder(product, 1.0, area);
  }

  // ----- drawdown and position -----

  function DrawdownFrom(closes: seq<real>, i: nat, j: nat): real
    requires i <= j < |closes| && closes[i] > 0.0
  {
    closes[j] / closes[i] - 1.0
  }

  predicate Positive(closes: seq<real>) { forall i | 0 <= i < |closes| :: closes[i] > 0.0 }

  /** The worst change from any close to the same or a later one. */
  ghost predicate IsMaximumDrawdown(worst: real, closes: seq<real>)
    requires Positive(closes)
  {
    && (exists i, j :: 0 <= i <= j < |closes| && worst == DrawdownFrom(closes, i, j))
    && (forall i, j | 0 <= i <= j < |closes| :: worst <= DrawdownFrom(closes, i, j))
  }

  lemma HigherPeakDeeper(close: real, lower: real, higher: real)
    requires close > 0.0 && 0.0 < lower <= higher
    ensures close / higher <= close / lower
  {
    var quotient := close / lower;
    QuotientTimes(close, lower);
    PositiveQuotient(close, lower);
    PositiveProduct(higher - lower, quotient);
    assert higher * quotient == (higher - lower) * quotient + quotient * lower;
    DivideOrder(close, quotient, higher);
  }

  lemma SelfQuotient(x: real)
    requires x > 0.0
    ensures x / x == 1.0
  {
    SameQuotient(1.0, x, x);
  }

  /** The running peak after `n` closes. */
  function Peak(closes: seq<real>, n: nat): (peak: real)
    requires 1 <= n <= |closes| && Positive(closes)
    ensures peak > 0.0
  {
    if n == 1 then closes[0] else Max(Peak(closes, n - 1), closes[n - 1])
  }

  /** The running worst after `n` closes. */
  function Worst(closes: seq<real>, n: nat): real
    requires n <= |closes| && Positive(closes)
  {
    if n == 0 then 0.0 else Min(Worst(closes, n - 1), closes[n - 1] / Peak(closes, n) - 1.0)
  }

  lemma {:induction false} PeakFacts(closes: seq<real>, n: nat) returns (at: nat)
    requires 1 <= n <= |closes| && Positive(closes)
    ensures at < n && closes[at] == Peak(closes, n)
    ensures forall i | 0 <= i < n :: closes[i] <= Peak(closes, n)
  {
    if n == 1 {
      at := 0;
    } else {
      at := PeakFacts(closes, n - 1);
      if closes[n - 1] >= Peak(closes, n - 1) { at := n - 1; }
    }
  }

  /** A close against the peak so far is the worst of that close against every earlier one. */
  lemma AgainstPeak(closes: seq<real>, i: nat, n: nat)
    requires i < n <= |closes| && Positive(closes)
    ensures closes[n - 1] / Peak(closes, n) - 1.0 <= DrawdownFrom(closes, i, n - 1)
  {
    var at := PeakFacts(closes, n);
    HigherPeakDeeper(closes[n - 1], closes[i], Peak(closes, n));
  }

  lemma {:induction false} WorstIsLowerBound(closes: seq<real>, n: nat, i: nat, j: nat)
    requires i <= j < n <= |closes| && Positive(closes)
    ensures Worst(closes, n) <= DrawdownFrom(closes, i, j)
  {
    if j == n - 1 { AgainstPeak(closes, i, n); } else { WorstIsLowerBound(closes, n - 1, i, j); }
  }

  lemma {:induction false} WorstIsAttained(closes: seq<real>, n: nat) returns (i: nat, j: nat)
    requires 1 <= n <= |closes| && Positive(closes)
    ensures i <= j < n && Worst(closes, n) == DrawdownFrom(closes, i, j)
  {
    var before := Worst(closes, n - 1);
    var latest := closes[n - 1] / Peak(closes, n) - 1.0;
    if n == 1 || latest <= before {
      i := PeakFacts(closes, n);
      j := n - 1;
      SelfQuotient(closes[0]);
    } else {
      i, j := WorstIsAttained(closes, n - 1);
    }
  }

  lemma {:induction false} WorstInRange(closes: seq<real>, n: nat)
    requires n <= |closes| && Positive(closes)
    ensures -1.0 < Worst(closes, n) <= 0.0
  {
    if n != 0 {
      WorstInRange(closes, n - 1);
      PositiveQuotient(closes[n - 1], Peak(closes, n));
    }
  }

  /** The one-pass running peak finds the worst drawdown over all pairs, and it is in (-1, 0]. */
  method MaximumDrawdown(closes: seq<real>) returns (r: Result<real, IndicatorError>)
    requires Positive(closes)
    ensures r.Ok? <==> |closes| >= 2
    ensures r.Ok? ==> IsMaximumDrawdown(r.value, closes) && -1.0 < r.value <= 0.0
  {
    if |closes| < 2 { return Err(TooFewValues); }
    var worst := RunningWorst(closes);
    var i, j := WorstIsAttained(closes, |closes|);
    forall i, j | 0 <= i <= j < |closes| ensures worst <= DrawdownFrom(closes, i, j) {
      WorstIsLowerBound(closes, |closes|, i, j);
    }
    WorstInRange(closes, |closes|);
    r := Ok(worst);
  }

  method RunningWorst(closes: seq<real>) returns (worst: real)
    requires |closes| >= 1 && Positive(closes)
    ensures worst == Worst(closes, |closes|)
  {
    var peak := closes[0];
    worst := 0.0;
    for n := 0 to |closes|
      invariant peak == Peak(closes, if n == 0 then 1 else n)
      invariant worst == Worst(closes, n)
    {
      peak := Max(peak, closes[n]);
      worst := Min(worst, closes[n] / peak - 1.0);
    }
  }

  function LowestOf(closes: seq<real>): real
    requires |closes| > 0
  {
    if |closes| == 1 then closes[0] else Min(LowestOf(closes[..|closes| - 1]), closes[|closes| - 1])
  }

  function HighestOf(closes: seq<real>): real
    requires |closes| > 0
  {
    if |closes| == 1 then closes[0] else Max(HighestOf(closes[..|closes| - 1]), closes[|closes| - 1])
  }

  /** Where the last of the consumed closes stands between their lowest and highest. */
  function RangePosition(closes: seq<real>, lookback: int): Result<real, IndicatorError> {
    if lookback < 1 then Err(BadPeriod)
    else if |closes| < lookback then Err(TooFewValues)
    else
      var consumed := closes[|closes| - lookback..];
      var low, high := LowestOf(consumed), HighestOf(consumed);
      if high == low then Err(FlatRange) else (
        LastInRange(consumed);
        Ok((closes[|closes| - 1] - low) / (high - low)))
  }

  lemma {:induction false} LastInRange(closes: seq<real>)
    requires |closes| > 0
    ensures LowestOf(closes) <= closes[|closes| - 1] <= HighestOf(closes)
  {
  }

  lemma {:induction false} RangeHoldsAll(closes: seq<real>, k: nat)
    requires k < |closes|
    ensures LowestOf(closes) <= closes[k] <= HighestOf(closes)
  {
    if k < |closes| - 1 { RangeHoldsAll(closes[..|closes| - 1], k); }
  }

  lemma {:induction false} RangeIsAttained(closes: seq<real>)
    requires |closes| > 0
    ensures LowestOf(closes) in closes && HighestOf(closes) in closes
  {
    if |closes| > 1 {
      RangeIsAttained(closes[..|closes| - 1]);
      assert closes == closes[..|closes| - 1] + [closes[|closes| - 1]];
    }
  }

  predicate Flat(closes: seq<real>) {
    forall i, j | 0 <= i < |closes| && 0 <= j < |closes| :: closes[i] == closes[j]
  }

  /** A position exists exactly when the lookback is positive, there are enough closes, and two of the
      consumed ones differ. */
  lemma PositionExistsIff(closes: seq<real>, lookback: int)
    ensures RangePosition(closes, lookback).Ok? <==>
      && 1 <= lookback <= |closes|
      && !Flat(closes[|closes| - lookback..])
  {
    if 1 <= lookback <= |closes| {
      var consumed := closes[|closes| - lookback..];
      RangeIsAttained(consumed);
      forall k | 0 <= k < |consumed| ensures LowestOf(consumed) <= consumed[k] <= HighestOf(consumed) {
        RangeHoldsAll(consumed, k);
      }
    }
  }

  /** The position is in [0, 1]: 1 exactly at the highest consumed close, 0 exactly at the lowest. */
  lemma PositionInUnit(closes: seq<real>, lookback: int)
    requires RangePosition(closes, lookback).Ok?
    ensures 1 <= lookback <= |closes|
    ensures var consumed := closes[|closes| - lookback..]; var position := RangePosition(closes, lookback).value;
      && 0.0 <= position <= 1.0
      && (position == 1.0 <==> closes[|closes| - 1] == HighestOf(consumed))
      && (position == 0.0 <==> closes[|closes| - 1] == LowestOf(consumed))
  {
    var consumed := closes[|closes| - lookback..];
    LastInRange(consumed);
    FractionOfWidth(closes[|closes| - 1] - LowestOf(consumed), HighestOf(consumed) - LowestOf(consumed));
  }

  lemma FractionOfWidth(part: real, whole: real)
    requires 0.0 <= part <= whole && whole > 0.0
    ensures 0.0 <= part / whole <= 1.0
    ensures part / whole == 1.0 <==> part == whole
    ensures part / whole == 0.0 <==> part == 0.0
  {
    DivideOrder(part, 0.0, whole);
    DivideOrder(part, 1.0, whole);
  }
}
