/** The Wilson score interval, in its three forms in the code: clamped (science), unclamped
    (backtesting) and clamped with its own z (calibration). Decimals are exact reals; a square
    root is any value that is non-negative and squares to the radicand. */
module WilsonInterval {
  import opened Outcomes
  import opened RealArithmetic

  const SCIENCE_Z := 1.959963984540054
  const CALIBRATION_Z := 1.96

  ghost predicate IsRoot(root: real, x: real) { root >= 0.0 && root * root == x }

  function Times(x: real, y: real): (r: real)
    ensures x > 0.0 && y > 0.0 ==> r > 0.0
  {
    x * y
  }

  function Square(x: real): real { Times(x, x) }

  // ----- the formulas of the source -----

  function Rate(favorable: nat, total: nat): real
    requires total > 0
  {
    favorable as real / total as real
  }

  function Radicand(z: real, favorable: nat, total: nat): real
    requires total > 0
  {
    var n, p := total as real, Rate(favorable, total);
    p * (1.0 - p) / n + Square(z) / (4.0 * Square(n))
  }

  function Denominator(z: real, total: nat): (d: real)
    requires total > 0
    ensures d >= 1.0
  {
    SquareIsPositive(z);
    QuotientNonNegative(Square(z), total as real);
    1.0 + Square(z) / total as real
  }

  function Center(z: real, favorable: nat, total: nat): real
    requires total > 0
  {
    (Rate(favorable, total) + Square(z) / (2.0 * total as real)) / Denominator(z, total)
  }

  function Margin(z: real, total: nat, root: real): real
    requires total > 0
  {
    z * root / Denominator(z, total)
  }

  function Lower(z: real, favorable: nat, total: nat, root: real): real
    requires total > 0
  {
    Center(z, favorable, total) - Margin(z, total, root)
  }

  function Upper(z: real, favorable: nat, total: nat, root: real): real
    requires total > 0
  {
    Center(z, favorable, total) + Margin(z, total, root)
  }

  /** `prospective/science.py`: no interval without observations, otherwise clamped to [0, 1]. */
  function ScienceInterval(favorable: nat, total: nat, root: real): Option<(real, real)> {
    if total == 0 then None
    else Some((Max(0.0, Lower(SCIENCE_Z, favorable, total, root)),
               Min(1.0, Upper(SCIENCE_Z, favorable, total, root))))
  }

  /** `backtesting/engine.py`: the same interval without the clamps. */
  function BacktestInterval(favorable: nat, total: nat, root: real): Option<(real, real)> {
    if total == 0 then None
    else Some((Lower(SCIENCE_Z, favorable, total, root), Upper(SCIENCE_Z, favorable, total, root)))
  }

  datatype CalibrationStatus = Inconclusive | Descriptive

  datatype CalibrationReport = CalibrationReport(
    sampleSize: int, positiveCount: int, positiveRate: real, lower: real, upper: real, status: CalibrationStatus)
  {
    predicate Valid() {
      && 0 <= sampleSize && 0 <= positiveCount
      && 0.0 <= positiveRate <= 1.0 && 0.0 <= lower <= 1.0 && 0.0 <= upper <= 1.0
    }
  }

  datatype CalibrationError = CountsOutOfOrder

  /** `predictions/calibration.py`. */
  function Summarize(positive: int, sample: int, root: real): Result<CalibrationReport, CalibrationError> {
    if sample < 0 || positive < 0 || positive > sample then Err(CountsOutOfOrder)
    else if sample == 0 then Ok(CalibrationReport(0, 0, 0.0, 0.0, 0.0, Inconclusive))
    else Ok(CalibrationReport(sample, positive, Rate(positive, sample),
                              Max(0.0, Lower(CALIBRATION_Z, positive, sample, root)),
                              Min(1.0, Upper(CALIBRATION_Z, positive, sample, root)),
                              if sample >= 30 then Descriptive else Inconclusive))
  }

  // ----- the interval as the inversion of a score test -----

  /** A hypothetical rate `x` is compatible with the observed rate `p` at weight `w = z^2 / n`. */
  ghost predicate Compatible(x: real, p: real, w: real) {
    (x - p) * (x - p) <= w * (x * (1.0 - x))
  }

  /** Completing the square in the score inequality. */
  lemma CompletedSquare(x: real, p: real, w: real, t: real)
    requires t * t == w * (p * (1.0 - p)) + w * w / 4.0
    ensures var q := (1.0 + w) * x - (p + w / 2.0);
      (1.0 + w) * ((x - p) * (x - p) - w * (x * (1.0 - x))) == q * q - t * t
  {
    var q := (1.0 + w) * x - (p + w / 2.0);
    var y, c := (1.0 + w) * x, p + w / 2.0;
    assert q * q == y * y - 2.0 * (y * c) + c * c;
    assert c * c == p * p + p * w + w * w / 4.0;
    assert y * y == (1.0 + w) * ((1.0 + w) * (x * x));
    assert (x - p) * (x - p) == x * x - 2.0 * (x * p) + p * p;
    assert w * (x * (1.0 - x)) == w * x - w * (x * x);
    assert y * c == (1.0 + w) * (x * c);
    assert x * c == x * p + x * w / 2.0;
  }

  /** The endpoints in terms of rate, weight and half-width, and the range they bound. */
  function LowForm(p: real, w: real, t: real): real
    requires w > 0.0
  {
    (p + w / 2.0 - t) / (1.0 + w)
  }

  function HighForm(p: real, w: real, t: real): real
    requires w > 0.0
  {
    (p + w / 2.0 + t) / (1.0 + w)
  }

  predicate InRange(x: real, p: real, w: real, t: real) { -t <= (1.0 + w) * x - (p + w / 2.0) <= t }

  lemma GapIsRange(x: real, p: real, w: real, t: real)
    requires w > 0.0 && t >= 0.0 && t * t == w * (p * (1.0 - p)) + w * w / 4.0
    ensures Compatible(x, p, w) <==> InRange(x, p, w, t)
  {
    CompletedSquare(x, p, w, t);
    GapSign(1.0 + w, (x - p) * (x - p) - w * (x * (1.0 - x)), (1.0 + w) * x - (p + w / 2.0), t);
  }

  lemma RangeIsInterval(x: real, p: real, w: real, t: real)
    requires w > 0.0
    ensures InRange(x, p, w, t) <==> LowForm(p, w, t) <= x <= HighForm(p, w, t)
  {
    DivideOrder(p + w / 2.0 - t, x, 1.0 + w);
    DivideOrder(p + w / 2.0 + t, x, 1.0 + w);
  }

  lemma CompatibleIff(x: real, p: real, w: real, t: real)
    requires w > 0.0 && t >= 0.0 && t * t == w * (p * (1.0 - p)) + w * w / 4.0
    ensures Compatible(x, p, w) <==> LowForm(p, w, t) <= x <= HighForm(p, w, t)
  {
    GapIsRange(x, p, w, t);
    RangeIsInterval(x, p, w, t);
  }

  lemma GapSign(d: real, gap: real, q: real, t: real)
    requires d > 0.0 && t >= 0.0 && d * gap == q * q - t * t
    ensures gap <= 0.0 <==> -t <= q <= t
  {
    SquaresOrder(q, t);
    PositiveProduct(gap, d);
    PositiveProduct(-gap, d);
    assert gap * d == d * gap && (-gap) * d == -(d * gap);
  }

  function Weight(z: real, total: nat): real
    requires total > 0
  {
    Square(z) / total as real
  }

  lemma WeightFacts(z: real, total: nat)
    requires 0 < total && z > 0.0
    ensures var n, w := total as real, Weight(z, total);
      w > 0.0 && w * n == Square(z) && Square(z) / (2.0 * n) == w / 2.0
  {
    var n, w := total as real, Weight(z, total);
    PositiveQuotient(Square(z), n);
    assert w * n == Square(z);
    assert (w / 2.0) * (2.0 * n) == w * n;
    SameQuotient(w / 2.0, Square(z), 2.0 * n);
  }

  lemma SquareOfProduct(z: real, root: real)
    ensures (z * root) * (z * root) == Square(z) * (root * root)
  {
  }

  /** The squared half-width, written with the weight. */
  lemma HalfWidth(z: real, favorable: nat, total: nat, root: real)
    requires 0 < total && z > 0.0 && IsRoot(root, Radicand(z, favorable, total))
    ensures var p, w, t := Rate(favorable, total), Weight(z, total), z * root;
      t >= 0.0 && t * t == w * (p * (1.0 - p)) + w * w / 4.0
  {
    var p := Rate(favorable, total);
    WeightFacts(z, total);
    PositiveProduct(z, root);
    SquareOfProduct(z, root);
    RadicandForm(p * (1.0 - p), Square(z), total as real, Weight(z, total));
  }

  /** The source's endpoints written with the weight. */
  lemma EndpointForms(z: real, favorable: nat, total: nat, root: real)
    requires 0 < total && z > 0.0
    ensures var p, w, t := Rate(favorable, total), Weight(z, total), z * root;
      && w > 0.0
      && Lower(z, favorable, total, root) == LowForm(p, w, t)
      && Upper(z, favorable, total, root) == HighForm(p, w, t)
  {
    WeightFacts(z, total);
    QuotientOfSum(Rate(favorable, total) + Weight(z, total) / 2.0, z * root, 1.0 + Weight(z, total));
  }

  lemma RadicandForm(spread: real, zz: real, n: real, w: real)
    requires n > 0.0 && w * n == zz
    ensures zz * (spread / n + zz / (4.0 * Square(n))) == w * spread + w * w / 4.0
  {
    var a, c := spread / n, w / (4.0 * n);
    assert a * n == spread && c * (4.0 * n) == w;
    assert c * (4.0 * Square(n)) == (c * (4.0 * n)) * n == zz;
    SameQuotient(c, zz, 4.0 * Square(n));
    assert zz * a == w * (a * n);
    assert zz * c == w * (n * c);
    assert n * c == w / 4.0;
    assert w * (w / 4.0) == w * w / 4.0;
  }

  lemma RateInRange(favorable: nat, total: nat)
    requires favorable <= total && 0 < total
    ensures 0.0 <= Rate(favorable, total) <= 1.0
  {
    DivideOrder(favorable as real, 1.0, total as real);
    DivideOrder(favorable as real, 0.0, total as real);
  }

  // ----- the results -----

  /** The interval is exactly the set of rates that the score test does not reject. */
  lemma IntervalIsScoreTest(z: real, favorable: nat, total: nat, root: real, x: real)
    requires 0 < total && z > 0.0 && IsRoot(root, Radicand(z, favorable, total))
    ensures Lower(z, favorable, total, root) <= x <= Upper(z, favorable, total, root)
      <==> Compatible(x, Rate(favorable, total), Weight(z, total))
  {
    HalfWidth(z, favorable, total, root);
    EndpointForms(z, favorable, total, root);
    CompatibleIff(x, Rate(favorable, total), Weight(z, total), z * root);
  }

  lemma CompatibleInRange(x: real, p: real, w: real)
    requires w > 0.0 && Compatible(x, p, w)
    ensures 0.0 <= x <= 1.0
  {
    SquareIsPositive(x - p);
    var spread := x * (1.0 - x);
    assert spread * w >= 0.0;
    PositiveProduct(spread, w);
    PositiveProduct(x, 1.0 - x);
    PositiveProduct(1.0 - x, x);
    assert (1.0 - x) * x == spread;
  }

  lemma OrderedEndpoints(z: real, favorable: nat, total: nat, root: real)
    requires 0 < total && z > 0.0 && IsRoot(root, Radicand(z, favorable, total))
    ensures Lower(z, favorable, total, root) <= Upper(z, favorable, total, root)
  {
    HalfWidth(z, favorable, total, root);
    EndpointForms(z, favorable, total, root);
    assert Margin(z, total, root) >= 0.0 by {
      DivideOrder(z * root, 0.0, Denominator(z, total));
    }
  }

  /** 0 <= lower <= favorable/total <= upper <= 1. */
  lemma BoundsAndRate(z: real, favorable: nat, total: nat, root: real)
    requires favorable <= total && 0 < total && z > 0.0 && IsRoot(root, Radicand(z, favorable, total))
    ensures 0.0 <= Lower(z, favorable, total, root) <= Rate(favorable, total)
    ensures Rate(favorable, total) <= Upper(z, favorable, total, root) <= 1.0
  {
    var p, w := Rate(favorable, total), Weight(z, total);
    var lower, upper := Lower(z, favorable, total, root), Upper(z, favorable, total, root);
    HalfWidth(z, favorable, total, root);
    EndpointForms(z, favorable, total, root);
    OrderedEndpoints(z, favorable, total, root);
    RateInRange(favorable, total);
    IntervalIsScoreTest(z, favorable, total, root, lower);
    IntervalIsScoreTest(z, favorable, total, root, upper);
    IntervalIsScoreTest(z, favorable, total, root, p);
    assert Compatible(p, p, w) by {
      PositiveProduct(p, 1.0 - p);
      PositiveProduct(w, p * (1.0 - p));
    }
    CompatibleInRange(lower, p, w);
    CompatibleInRange(upper, p, w);
  }

  /** The clamps change nothing in exact arithmetic: the clamped and unclamped forms agree. */
  lemma ClampsChangeNothing(favorable: nat, total: nat, root: real)
    requires favorable <= total
    requires total > 0 ==> IsRoot(root, Radicand(SCIENCE_Z, favorable, total))
    ensures ScienceInterval(favorable, total, root) == BacktestInterval(favorable, total, root)
  {
    if total > 0 { BoundsAndRate(SCIENCE_Z, favorable, total, root); }
  }

  lemma RootsAgree(a: real, b: real, x: real)
    requires IsRoot(a, x) && IsRoot(b, x)
    ensures a == b
  {
    SquaresOrder(a, b);
    SquaresOrder(b, a);
  }

  lemma ComplementRate(favorable: nat, total: nat)
    requires favorable <= total && 0 < total
    ensures Rate(total - favorable, total) == 1.0 - Rate(favorable, total)
  {
    var n, p := total as real, Rate(favorable, total);
    assert p * n == favorable as real;
    assert (1.0 - p) * n == n - p * n;
    assert n - favorable as real == (total - favorable) as real;
    SameQuotient(1.0 - p, (total - favorable) as real, n);
  }

  /** Swapping favorable and adverse mirrors the interval in 1/2. */
  lemma Mirror(z: real, favorable: nat, total: nat, root: real, mirrored: real)
    requires favorable <= total && 0 < total && z > 0.0
    requires IsRoot(root, Radicand(z, favorable, total))
    requires IsRoot(mirrored, Radicand(z, total - favorable, total))
    ensures Lower(z, total - favorable, total, mirrored) == 1.0 - Upper(z, favorable, total, root)
    ensures Upper(z, total - favorable, total, mirrored) == 1.0 - Lower(z, favorable, total, root)
  {
    var p, w, t := Rate(favorable, total), Weight(z, total), z * root;
    ComplementRate(favorable, total);
    SameRadicand(z, favorable, total);
    RootsAgree(root, mirrored, Radicand(z, favorable, total));
    EndpointForms(z, favorable, total, root);
    EndpointForms(z, total - favorable, total, root);
    MirrorForms(p, Rate(total - favorable, total), w, t);
  }

  lemma MirrorForms(p: real, q: real, w: real, t: real)
    requires w > 0.0 && q == 1.0 - p
    ensures LowForm(q, w, t) == 1.0 - HighForm(p, w, t)
    ensures HighForm(q, w, t) == 1.0 - LowForm(p, w, t)
  {
    SumOfQuotients(q + w / 2.0 - t, p + w / 2.0 + t, 1.0 + w);
    SumOfQuotients(q + w / 2.0 + t, p + w / 2.0 - t, 1.0 + w);
  }

  lemma RateMonotone(f: nat, g: nat, total: nat)
    requires f <= g && 0 < total
    ensures Rate(f, total) <= Rate(g, total)
  {
    QuotientMonotone(f as real, g as real, total as real);
  }

  /** Moving the observed rate towards a compatible one keeps it compatible. */
  lemma CloserIsCompatible(x: real, p: real, q: real, w: real)
    requires x <= p <= q && Compatible(x, q, w)
    ensures Compatible(x, p, w)
  {
    SquaresOrder(p - x, q - x);
    assert (x - p) * (x - p) == (p - x) * (p - x);
    assert (x - q) * (x - q) == (q - x) * (q - x);
  }

  lemma LowerMonotone(z: real, f: nat, g: nat, total: nat, rootF: real, rootG: real)
    requires f <= g <= total && 0 < total && z > 0.0
    requires IsRoot(rootF, Radicand(z, f, total)) && IsRoot(rootG, Radicand(z, g, total))
    ensures Lower(z, f, total, rootF) <= Lower(z, g, total, rootG)
  {
    var p, q, w := Rate(f, total), Rate(g, total), Weight(z, total);
    var x := Lower(z, g, total, rootG);
    BoundsAndRate(z, f, total, rootF);
    BoundsAndRate(z, g, total, rootG);
    RateMonotone(f, g, total);
    if x < p {
      IntervalIsScoreTest(z, g, total, rootG, x);
      CloserIsCompatible(x, p, q, w);
      IntervalIsScoreTest(z, f, total, rootF, x);
    }
  }

  /** More favorable outcomes never lower either bound. */
  lemma BoundsMonotone(z: real, f: nat, g: nat, total: nat, rootF: real, rootG: real)
    requires f <= g <= total && 0 < total && z > 0.0
    requires IsRoot(rootF, Radicand(z, f, total)) && IsRoot(rootG, Radicand(z, g, total))
    ensures Lower(z, f, total, rootF) <= Lower(z, g, total, rootG)
    ensures Upper(z, f, total, rootF) <= Upper(z, g, total, rootG)
  {
    LowerMonotone(z, f, g, total, rootF, rootG);
    SameRadicand(z, f, total);
    SameRadicand(z, g, total);
    LowerMonotone(z, total - g, total - f, total, rootG, rootF);
    Mirror(z, f, total, rootF, rootF);
    Mirror(z, g, total, rootG, rootG);
  }

  lemma SameRadicand(z: real, favorable: nat, total: nat)
    requires favorable <= total && 0 < total
    ensures Radicand(z, total - favorable, total) == Radicand(z, favorable, total)
  {
    var p := Rate(favorable, total);
    ComplementRate(favorable, total);
    assert (1.0 - p) * (1.0 - (1.0 - p)) == p * (1.0 - p);
  }

  /** A larger z gives a wider interval; so the calibration report's interval always contains the
      science report's interval for the same counts. */
  lemma WiderWithLargerZ(z: real, y: real, favorable: nat, total: nat, rootZ: real, rootY: real)
    requires favorable <= total && 0 < total && 0.0 < z <= y
    requires IsRoot(rootZ, Radicand(z, favorable, total)) && IsRoot(rootY, Radicand(y, favorable, total))
    ensures Lower(y, favorable, total, rootY) <= Lower(z, favorable, total, rootZ)
    ensures Upper(z, favorable, total, rootZ) <= Upper(y, favorable, total, rootY)
  {
    OrderedEndpoints(z, favorable, total, rootZ);
    StaysCompatible(z, y, favorable, total, rootZ, rootY, Lower(z, favorable, total, rootZ));
    StaysCompatible(z, y, favorable, total, rootZ, rootY, Upper(z, favorable, total, rootZ));
  }

  lemma StaysCompatible(z: real, y: real, favorable: nat, total: nat, rootZ: real, rootY: real, x: real)
    requires 0 < total && 0.0 < z <= y
    requires IsRoot(rootZ, Radicand(z, favorable, total)) && IsRoot(rootY, Radicand(y, favorable, total))
    requires Lower(z, favorable, total, rootZ) <= x <= Upper(z, favorable, total, rootZ)
    ensures Lower(y, favorable, total, rootY) <= x <= Upper(y, favorable, total, rootY)
  {
    var v, w := Weight(z, total), Weight(y, total);
    EndpointForms(z, favorable, total, rootZ);
    IntervalIsScoreTest(z, favorable, total, rootZ, x);
    IntervalIsScoreTest(y, favorable, total, rootY, x);
    CompatibleInRange(x, Rate(favorable, total), v);
    SquaresOrder(z, y);
    WeightFacts(z, total);
    WeightFacts(y, total);
    assert (v - w) * total as real == Square(z) - Square(y);
    PositiveProduct(v - w, total as real);
    var spread := x * (1.0 - x);
    PositiveProduct(x, 1.0 - x);
    PositiveProduct(w - v, spread);
    assert w * spread == v * spread + (w - v) * spread;
  }

  /** Every calibration report satisfies its record constraints, and it fails to be built exactly
      on counts that are negative or out of order. */
  lemma CalibrationIsValid(positive: int, sample: int, root: real)
    requires 0 <= positive <= sample && 0 < sample ==> IsRoot(root, Radicand(CALIBRATION_Z, positive, sample))
    ensures Summarize(positive, sample, root).Err? <==> !(0 <= positive <= sample)
    ensures var r := Summarize(positive, sample, root);
      r.Ok? ==>
        && r.value.Valid()
        && r.value.lower <= r.value.positiveRate <= r.value.upper
        && (sample > 0 ==>
              && r.value.lower == Lower(CALIBRATION_Z, positive, sample, root)
              && r.value.upper == Upper(CALIBRATION_Z, positive, sample, root))
  {
    if 0 <= positive <= sample && 0 < sample {
      RateInRange(positive, sample);
      BoundsAndRate(CALIBRATION_Z, positive, sample, root);
    }
  }

  // ----- the intervals in terms of the counts -----

  /** The score test on the counts: `x` is kept while (n x - f)^2 is at most z^2 n x (1 - x). */
  ghost predicate KeptByCounts(x: real, z: real, favorable: nat, total: nat) {
    var gap := total as real * x - favorable as real;
    gap * gap <= (z * z) * (total as real * (x * (1.0 - x)))
  }

  lemma ScaledGap(x: real, p: real, n: real, f: real)
    requires p * n == f
    ensures n * x - f == Times(n, x - p)
  {
    assert n * (x - p) == n * x - n * p;
  }

  lemma ScaledSquare(gap: real, n: real)
    ensures Square(Times(n, gap)) == Square(gap) * Square(n)
  {
    assert (n * gap) * (n * gap) == (gap * gap) * (n * n);
  }

  lemma ScaledSpread(w: real, spread: real, n: real, zz: real)
    requires w * n == zz
    ensures (w * spread) * Square(n) == zz * (n * spread)
  {
    assert (w * spread) * (n * n) == (w * n) * (n * spread);
  }

  predicate CountsForm(x: real, n: real, f: real, zz: real) { Square(n * x - f) <= zz * (n * (x * (1.0 - x))) }

  lemma ScaledTest(x: real, p: real, w: real, n: real, f: real, zz: real)
    requires n > 0.0 && p * n == f && w * n == zz
    ensures Compatible(x, p, w) <==> CountsForm(x, n, f, zz)
  {
    var gap, spread := x - p, x * (1.0 - x);
    ScaleOrder(Square(gap), w * spread, Square(n));
    ScaledGap(x, p, n, f);
    ScaledSquare(gap, n);
    ScaledSpread(w, spread, n, zz);
  }

  lemma KeptIff(x: real, z: real, favorable: nat, total: nat)
    ensures KeptByCounts(x, z, favorable, total) <==> CountsForm(x, total as real, favorable as real, Square(z))
  {
  }

  lemma RateTimes(favorable: nat, total: nat)
    requires total > 0
    ensures Rate(favorable, total) * total as real == favorable as real
  {
    QuotientTimes(favorable as real, total as real);
  }

  lemma IntervalIsCountTest(z: real, favorable: nat, total: nat, root: real, x: real)
    requires 0 < total && z > 0.0 && IsRoot(root, Radicand(z, favorable, total))
    ensures Lower(z, favorable, total, root) <= x <= Upper(z, favorable, total, root)
       <==> KeptByCounts(x, z, favorable, total)
  {
    IntervalIsScoreTest(z, favorable, total, root, x);
    WeightFacts(z, total);
    RateTimes(favorable, total);
    ScaledTest(x, Rate(favorable, total), Weight(z, total), total as real, favorable as real, Square(z));
    KeptIff(x, z, favorable, total);
  }

  /** The science interval, from the counts alone: none without observations, and otherwise exactly the
      rates between its ends that the test at 1.959963984540054 keeps. */
  lemma ScienceIntervalIsCountTest(favorable: nat, total: nat, root: real, x: real)
    requires favorable <= total && (total > 0 ==> IsRoot(root, Radicand(SCIENCE_Z, favorable, total)))
    ensures var interval := ScienceInterval(favorable, total, root);
      && (interval.None? <==> total == 0)
      && (total > 0 ==> (interval.value.0 <= x <= interval.value.1 <==> KeptByCounts(x, 1.959963984540054, favorable, total)))
  {
    if total > 0 {
      BoundsAndRate(SCIENCE_Z, favorable, total, root);
      IntervalIsCountTest(SCIENCE_Z, favorable, total, root, x);
    }
  }

  /** The calibration report, from the counts alone: its own counts, the rate that times the sample gives
      the positives, and a description from 30 on. */
  lemma CalibrationStates(positive: int, sample: int, root: real)
    requires 0 <= positive <= sample
    ensures Summarize(positive, sample, root).Ok?
    ensures var r := Summarize(positive, sample, root).value;
      && r.sampleSize == sample && r.positiveCount == positive
      && r.positiveRate * sample as real == positive as real
      && (sample == 0 ==> r.positiveRate == 0.0 && r.lower == 0.0 && r.upper == 0.0)
      && (r.status == Descriptive <==> sample >= 30)
  {
    if sample > 0 { QuotientTimes(positive as real, sample as real); }
  }

  /** Its interval is that of the test at 1.96. */
  lemma CalibrationIntervalIsCountTest(positive: int, sample: int, root: real, x: real)
    requires 0 <= positive <= sample && 0 < sample && IsRoot(root, Radicand(CALIBRATION_Z, positive, sample))
    ensures Summarize(positive, sample, root).Ok?
    ensures var r := Summarize(positive, sample, root).value;
      r.lower <= x <= r.upper <==> KeptByCounts(x, 1.96, positive, sample)
  {
    CalibrationIsValid(positive, sample, root);
    IntervalIsCountTest(CALIBRATION_Z, positive, sample, root, x);
  }
}
