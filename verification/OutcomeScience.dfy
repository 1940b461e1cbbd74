/** Version-stratified science over prospective outcomes: counts, strata and the report. */
module OutcomeScience {
  import opened Calendar
  import opened Outcomes
  import opened Filtering
  import opened Ordering
  import opened ProspectiveContracts
  import opened RealArithmetic
  import opened WilsonInterval

  const LOCKED_AT: Instant := 1_788_826_620 * SECOND
  const MINIMUM_CALIBRATION_SAMPLE: nat := 30
  const POWER_REQUIRED_SAMPLE: nat := 194

  datatype Classification = Opportunity | Mixed | Risk | Watch

  /** The immutable publication lineage of an outcome. */
  datatype Version = Version(
    publicationId: nat,
    publishedAt: Instant,
    asset: string,
    publicationSchema: string,
    ruleset: string,
    classification: Classification,
    modelName: string,
    modelDigest: string,
    promptVersion: string)

  datatype Case = Case(outcomeId: nat, outcome: Outcome, version: Version)
  {
    predicate LineageMatches() {
      && outcome.plan.publicationId == version.publicationId
      && outcome.plan.publishedAt == version.publishedAt
      && outcome.plan.asset.symbol == version.asset
    }

    /** The record's validator, its outcome being a valid record already. */
    predicate Valid() { outcome.Valid() && LineageMatches() }

    function Key(): StratumKey {
      StratumKey(outcome.plan.horizon, outcome.plan.origin, version.publicationSchema, version.ruleset,
                 version.classification, version.modelName, version.modelDigest, version.promptVersion)
    }

    predicate Completed() { outcome.status.OutcomeCompleted? }

    predicate Favorable() { Completed() && outcome.relativeReturn.Some? && outcome.relativeReturn.value > 0.0 }
  }

  /** The dimensions that vary: the other five each have one legal value. */
  datatype StratumKey = StratumKey(
    horizon: Horizon,
    origin: Origin,
    publicationSchema: string,
    ruleset: string,
    classification: Classification,
    modelName: string,
    modelDigest: string,
    promptVersion: string)
  {
    function Texts(): seq<string> {
      [HorizonText(horizon), OriginText(origin), publicationSchema, ruleset, ClassificationText(classification),
       modelName, modelDigest, promptVersion]
    }
  }

  function HorizonText(horizon: Horizon): string {
    match horizon case T1 => "1" case T5 => "5" case T20 => "20"
  }

  function OriginText(origin: Origin): string {
    match origin case GenuineForward => "GENUINE_FORWARD" case Reconstructed => "RECONSTRUCTED"
  }

  function ClassificationText(c: Classification): string {
    match c case Opportunity => "opportunity" case Mixed => "mixed" case Risk => "risk" case Watch => "watch"
  }

  /** Strata are listed by the texts of their keys, so the 20-session horizon precedes the 5-session one. */
  predicate KeyLeq(a: StratumKey, b: StratumKey) { TupleLeq(a.Texts(), b.Texts()) }

  lemma HorizonTextsDiffer(a: Horizon, b: Horizon)
    requires HorizonText(a) == HorizonText(b)
    ensures a == b
  {
    assert HorizonText(a)[0] == HorizonText(b)[0];
  }

  lemma OriginTextsDiffer(a: Origin, b: Origin)
    requires OriginText(a) == OriginText(b)
    ensures a == b
  {
    assert OriginText(a)[0] == OriginText(b)[0];
  }

  lemma ClassificationTextsDiffer(a: Classification, b: Classification)
    requires ClassificationText(a) == ClassificationText(b)
    ensures a == b
  {
    assert ClassificationText(a)[0] == ClassificationText(b)[0];
  }

  lemma TextsIdentifyKey(a: StratumKey, b: StratumKey)
    requires a.Texts() == b.Texts()
    ensures a == b
  {
    assert forall i | 0 <= i < 8 :: a.Texts()[i] == b.Texts()[i];
    assert a.Texts()[0] == HorizonText(a.horizon) && b.Texts()[0] == HorizonText(b.horizon);
    assert a.Texts()[1] == OriginText(a.origin) && b.Texts()[1] == OriginText(b.origin);
    assert a.Texts()[4] == ClassificationText(a.classification);
    assert b.Texts()[4] == ClassificationText(b.classification);
    HorizonTextsDiffer(a.horizon, b.horizon);
    OriginTextsDiffer(a.origin, b.origin);
    ClassificationTextsDiffer(a.classification, b.classification);
    assert a.Texts()[2] == b.Texts()[2] && a.Texts()[3] == b.Texts()[3];
    assert a.Texts()[5] == b.Texts()[5] && a.Texts()[6] == b.Texts()[6] && a.Texts()[7] == b.Texts()[7];
  }

  lemma KeyOrder()
    ensures TotalOrder(KeyLeq)
  {
    TupleOrder();
    forall a, b | KeyLeq(a, b) && KeyLeq(b, a) ensures a == b { TextsIdentifyKey(a, b); }
  }

  // ----- counting -----

  datatype Feature = Every | IsCompleted | IsFavorable

  datatype Slice = Everything | OfOrigin(origin: Origin) | OfKey(key: StratumKey)

  predicate Has(c: Case, f: Feature) {
    match f case Every => true case IsCompleted => c.Completed() case IsFavorable => c.Favorable()
  }

  predicate In(c: Case, s: Slice) {
    match s
    case Everything => true
    case OfOrigin(origin) => c.outcome.plan.origin == origin
    case OfKey(key) => c.Key() == key
  }

  function One(b: bool): (n: nat) { if b then 1 else 0 }

  function Test(s: Slice, f: Feature): Case -> bool { (c: Case) => In(c, s) && Has(c, f) }

  /** How many cases of a slice have a feature. */
  function Tally(cases: seq<Case>, s: Slice, f: Feature): (n: nat)
    ensures n <= |cases|
  {
    |Keep(cases, Test(s, f))|
  }

  datatype Counts = Counts(sample: int, completed: int, unavailable: int, favorable: int, adverse: int)
  {
    predicate NonNegative() { sample >= 0 && completed >= 0 && unavailable >= 0 && favorable >= 0 && adverse >= 0 }
  }

  function CountsOf(cases: seq<Case>, s: Slice): Counts {
    var sample, completed, favorable := Tally(cases, s, Every), Tally(cases, s, IsCompleted), Tally(cases, s, IsFavorable);
    Counts(sample, completed, sample - completed, favorable, completed - favorable)
  }

  lemma TallyOrder(cases: seq<Case>, s: Slice)
    ensures Tally(cases, s, IsFavorable) <= Tally(cases, s, IsCompleted) <= Tally(cases, s, Every)
  {
    KeepWeaker(cases, Test(s, IsFavorable), Test(s, IsCompleted));
    KeepWeaker(cases, Test(s, IsCompleted), Test(s, Every));
  }

  lemma TallyOfBoth(cases: seq<Case>, f: Feature)
    ensures Tally(cases, Everything, f) == Tally(cases, OfOrigin(GenuineForward), f) + Tally(cases, OfOrigin(Reconstructed), f)
  {
    KeepSplit(cases, Test(Everything, f), Test(OfOrigin(GenuineForward), f), Test(OfOrigin(Reconstructed), f));
  }

  lemma TallyEverything(cases: seq<Case>)
    ensures Tally(cases, Everything, Every) == |cases|
  {
    KeepAll(cases, Test(Everything, Every));
  }

  lemma TallySnoc(cases: seq<Case>, last: Case, s: Slice, f: Feature)
    ensures Tally(cases + [last], s, f) == Tally(cases, s, f) + One(In(last, s) && Has(last, f))
  {
    KeepSnoc(cases, last, Test(s, f));
  }

  /** Counts do not depend on the order of the cases. */
  lemma CountsIgnoreOrder(a: seq<Case>, b: seq<Case>, s: Slice)
    requires multiset(a) == multiset(b)
    ensures CountsOf(a, s) == CountsOf(b, s)
  {
    KeepRearranged(a, b, Test(s, Every));
    KeepRearranged(a, b, Test(s, IsCompleted));
    KeepRearranged(a, b, Test(s, IsFavorable));
  }

  // ----- strata -----

  datatype Power = NotAssessed | PowerInsufficient | PowerSufficient

  datatype Disposition = InsufficientSample | NotConclusive

  datatype Statistics = Statistics(rate: Option<real>, interval: Option<(real, real)>)

  const NO_STATISTICS := Statistics(None, None)

  /** How statistics are computed from the favourable and the completed count. */
  type Estimate = (nat, nat) -> Statistics

  datatype Stratum = Stratum(
    key: StratumKey,
    counts: Counts,
    statistics: Statistics,
    power: Power,
    disposition: Disposition)
  {
    /** The record's validator, which recomputes the statistics. */
    predicate Valid(estimate: Estimate) {
      && counts.NonNegative()
      && counts.completed + counts.unavailable == counts.sample
      && counts.favorable + counts.adverse == counts.completed
      && (if key.origin.Reconstructed? then
            statistics == NO_STATISTICS && power.NotAssessed? && disposition.NotConclusive?
          else
            && statistics == estimate(counts.favorable, counts.completed)
            && power == (if counts.completed >= POWER_REQUIRED_SAMPLE then PowerSufficient else PowerInsufficient)
            && disposition == (if counts.completed >= MINIMUM_CALIBRATION_SAMPLE then NotConclusive else InsufficientSample))
    }
  }

  /** The counts of a stratum decide its statistics; a reconstructed one gets none. */
  function MakeStratum(key: StratumKey, sample: nat, completed: nat, favorable: nat, estimate: Estimate): Stratum {
    var counts := Counts(sample, completed, sample - completed, favorable, completed - favorable);
    if key.origin.GenuineForward? then
      Stratum(key, counts,
              estimate(favorable, completed),
              if completed >= POWER_REQUIRED_SAMPLE then PowerSufficient else PowerInsufficient,
              if completed >= MINIMUM_CALIBRATION_SAMPLE then NotConclusive else InsufficientSample)
    else Stratum(key, counts, NO_STATISTICS, NotAssessed, NotConclusive)
  }

  function StratumOf(key: StratumKey, cases: seq<Case>, estimate: Estimate): (stratum: Stratum)
    ensures stratum.key == key && stratum.counts == CountsOf(cases, OfKey(key))
  {
    var s := OfKey(key);
    MakeStratum(key, Tally(cases, s, Every), Tally(cases, s, IsCompleted), Tally(cases, s, IsFavorable), estimate)
  }

  lemma StratumIsValid(key: StratumKey, cases: seq<Case>, estimate: Estimate)
    ensures StratumOf(key, cases, estimate).Valid(estimate)
  {
    TallyOrder(cases, OfKey(key));
  }

  /** One stratum per key, in the order of the keys. */
  function StrataOf(keys: seq<StratumKey>, cases: seq<Case>, estimate: Estimate): (strata: seq<Stratum>)
    ensures |strata| == |keys|
    ensures forall i | 0 <= i < |keys| :: strata[i] == StratumOf(keys[i], cases, estimate)
  {
    if |keys| == 0 then []
    else StrataOf(keys[..|keys| - 1], cases, estimate) + [StratumOf(keys[|keys| - 1], cases, estimate)]
  }

  function Add(a: Counts, b: Counts): Counts {
    Counts(a.sample + b.sample, a.completed + b.completed, a.unavailable + b.unavailable,
           a.favorable + b.favorable, a.adverse + b.adverse)
  }

  const NO_COUNTS := Counts(0, 0, 0, 0, 0)

  /** Field-wise totals over the strata of one origin. */
  function Totals(strata: seq<Stratum>, origin: Origin): Counts {
    if |strata| == 0 then NO_COUNTS
    else
      var last := strata[|strata| - 1];
      var rest := Totals(strata[..|strata| - 1], origin);
      if last.key.origin == origin then Add(rest, last.counts) else rest
  }

  /** A case is counted by the strata of its origin exactly once. */
  function CaseTotal(keys: seq<StratumKey>, cases: seq<Case>, origin: Origin, f: Feature): nat {
    if |keys| == 0 then 0
    else
      var last := keys[|keys| - 1];
      CaseTotal(keys[..|keys| - 1], cases, origin, f) + (if last.origin == origin then Tally(cases, OfKey(last), f) else 0)
  }

  function CaseCounts(keys: seq<StratumKey>, cases: seq<Case>, origin: Origin): Counts {
    var sample, completed := CaseTotal(keys, cases, origin, Every), CaseTotal(keys, cases, origin, IsCompleted);
    var favorable := CaseTotal(keys, cases, origin, IsFavorable);
    Counts(sample, completed, sample - completed, favorable, completed - favorable)
  }

  lemma CaseCountsSnoc(keys: seq<StratumKey>, last: StratumKey, cases: seq<Case>, origin: Origin)
    ensures CaseCounts(keys + [last], cases, origin) ==
      if last.origin == origin then Add(CaseCounts(keys, cases, origin), CountsOf(cases, OfKey(last)))
      else CaseCounts(keys, cases, origin)
  {
    assert (keys + [last])[..|keys|] == keys;
  }

  lemma TotalsSnoc(strata: seq<Stratum>, last: Stratum, origin: Origin)
    ensures Totals(strata + [last], origin) ==
      if last.key.origin == origin then Add(Totals(strata, origin), last.counts) else Totals(strata, origin)
  {
    assert (strata + [last])[..|strata|] == strata;
  }

  lemma {:induction false} TotalsAreTallies(keys: seq<StratumKey>, cases: seq<Case>, origin: Origin, estimate: Estimate)
    ensures Totals(StrataOf(keys, cases, estimate), origin) == CaseCounts(keys, cases, origin)
  {
    if |keys| != 0 {
      var front, last := keys[..|keys| - 1], keys[|keys| - 1];
      assert keys == front + [last];
      TotalsAreTallies(front, cases, origin, estimate);
      TotalsSnoc(StrataOf(front, cases, estimate), StratumOf(last, cases, estimate), origin);
      CaseCountsSnoc(front, last, cases, origin);
    }
  }

  lemma {:induction false} CaseTotalOfNone(keys: seq<StratumKey>, origin: Origin, f: Feature)
    ensures CaseTotal(keys, [], origin, f) == 0
  {
    if |keys| != 0 { CaseTotalOfNone(keys[..|keys| - 1], origin, f); }
  }

  /** One more case adds one to exactly the stratum of its key. */
  lemma {:induction false} CaseTotalStep(keys: seq<StratumKey>, cases: seq<Case>, last: Case, origin: Origin, f: Feature)
    requires NoDuplicates(keys)
    ensures CaseTotal(keys, cases + [last], origin, f) == CaseTotal(keys, cases, origin, f)
      + One(last.Key() in keys && last.Key().origin == origin && Has(last, f))
  {
    if |keys| != 0 {
      var front := keys[..|keys| - 1];
      assert keys == front + [keys[|keys| - 1]];
      CaseTotalStep(front, cases, last, origin, f);
      TallySnoc(cases, last, OfKey(keys[|keys| - 1]), f);
    }
  }

  /** When the keys cover the cases, adding up the strata of an origin counts its cases. */
  lemma {:induction false} StrataCover(keys: seq<StratumKey>, cases: seq<Case>, origin: Origin, f: Feature)
    requires NoDuplicates(keys) && forall c <- cases :: c.Key() in keys
    ensures CaseTotal(keys, cases, origin, f) == Tally(cases, OfOrigin(origin), f)
  {
    if |cases| == 0 {
      CaseTotalOfNone(keys, origin, f);
    } else {
      var front, last := cases[..|cases| - 1], cases[|cases| - 1];
      assert cases == front + [last];
      StrataCover(keys, front, origin, f);
      CaseTotalStep(keys, front, last, origin, f);
    }
  }

  /** The strata of an origin add up to that origin's own counts, field by field. */
  lemma TotalsReconcile(keys: seq<StratumKey>, cases: seq<Case>, origin: Origin, estimate: Estimate)
    requires NoDuplicates(keys) && forall c <- cases :: c.Key() in keys
    ensures Totals(StrataOf(keys, cases, estimate), origin) == CountsOf(cases, OfOrigin(origin))
  {
    TotalsAreTallies(keys, cases, origin, estimate);
    StrataCover(keys, cases, origin, Every);
    StrataCover(keys, cases, origin, IsCompleted);
    StrataCover(keys, cases, origin, IsFavorable);
  }

  // ----- the report -----

  datatype ScienceError =
    | PredatesLock | DuplicateCases | FutureOutcome | EnrolledBeforeLock | OtherBenchmark | InvalidStratum | InvalidReport

  function StratumKeyOf(stratum: Stratum): StratumKey { stratum.key }

  function TotalSample(strata: seq<Stratum>): int {
    if |strata| == 0 then 0
    else TotalSample(strata[..|strata| - 1]) + strata[|strata| - 1].counts.sample
  }

  predicate Decided(stratum: Stratum) { stratum.key.origin.GenuineForward? && stratum.disposition.NotConclusive? }

  function Verdict(strata: seq<Stratum>): Disposition {
    if exists stratum <- strata :: Decided(stratum) then NotConclusive else InsufficientSample
  }

  datatype Report = Report(
    generatedAt: Instant,
    cutoff: Instant,
    caseSet: seq<Case>,
    total: Counts,
    forward: Counts,
    reconstructed: Counts,
    strata: seq<Stratum>,
    disposition: Disposition)
  {
    predicate CountsBalance() {
      && forward.sample + reconstructed.sample == total.sample
      && total.completed + total.unavailable == total.sample
      && total.favorable + total.adverse == total.completed
      && TotalSample(strata) == total.sample
      && forward == Totals(strata, GenuineForward)
      && reconstructed == Totals(strata, Reconstructed)
      && total.completed == forward.completed + reconstructed.completed
      && total.unavailable == forward.unavailable + reconstructed.unavailable
      && total.favorable == forward.favorable + reconstructed.favorable
      && total.adverse == forward.adverse + reconstructed.adverse
    }

    /** The record's validator. */
    predicate Valid() {
      && generatedAt == cutoff && generatedAt >= LOCKED_AT
      && total.NonNegative() && forward.NonNegative() && reconstructed.NonNegative()
      && CountsBalance()
      && DistinctKeys(strata, StratumKeyOf)
      && disposition == Verdict(strata)
    }
  }

  function OutcomeIdOf(c: Case): nat { c.outcomeId }
  function PlanIdOf(c: Case): PlanId { c.outcome.plan.Id() }
  predicate IdLeq(a: Case, b: Case) { a.outcomeId <= b.outcomeId }

  const SPY := Listing("SPY", "ARCX")

  predicate Appended(c: Case, at: Instant) { c.outcome.appendedAt <= at }

  predicate LockRespected(c: Case) { c.outcome.plan.origin.GenuineForward? ==> c.outcome.plan.enrolledAt >= LOCKED_AT }

  predicate Benchmarked(c: Case) { c.outcome.plan.benchmark == SPY }

  /** The admission guards, in the order they are made. */
  function Guards(cases: seq<Case>, at: Instant): Option<ScienceError> {
    if at < LOCKED_AT then Some(PredatesLock)
    else if !DistinctKeys(cases, OutcomeIdOf) || !DistinctKeys(cases, PlanIdOf) then Some(DuplicateCases)
    else if exists c <- cases :: !Appended(c, at) then Some(FutureOutcome)
    else if exists c <- cases :: !LockRespected(c) then Some(EnrolledBeforeLock)
    else if exists c <- cases :: !Benchmarked(c) then Some(OtherBenchmark)
    else None
  }

  function KeySet(cases: seq<Case>): set<StratumKey> { set c <- cases :: c.Key() }

  ghost function KeyList(cases: seq<Case>): (keys: seq<StratumKey>)
    ensures SortedBy(keys, KeyLeq) && NoDuplicates(keys)
    ensures forall key :: key in keys <==> key in KeySet(cases)
    ensures forall c <- cases :: c.Key() in keys
  {
    KeyOrder();
    Ascending(KeySet(cases), KeyLeq)
  }

  function ReportFrom(cases: seq<Case>, at: Instant, strata: seq<Stratum>): Report {
    Report(at, at, Sort(cases, IdLeq), CountsOf(cases, Everything), CountsOf(cases, OfOrigin(GenuineForward)),
           CountsOf(cases, OfOrigin(Reconstructed)), strata, Verdict(strata))
  }

  ghost function Draft(cases: seq<Case>, at: Instant, estimate: Estimate): Report {
    ReportFrom(cases, at, StrataOf(KeyList(cases), cases, estimate))
  }

  /** Every stratum and then the report run their validators. */
  function Construct(report: Report, estimate: Estimate): Result<Report, ScienceError> {
    if exists stratum <- report.strata :: !stratum.Valid(estimate) then Err(InvalidStratum)
    else if !report.Valid() then Err(InvalidReport)
    else Ok(report)
  }

  ghost function BuildReport(cases: seq<Case>, at: Instant, estimate: Estimate): Result<Report, ScienceError> {
    match Guards(cases, at)
    case Some(error) => Err(error)
    case None => Construct(Draft(cases, at, estimate), estimate)
  }

  lemma {:induction false} TotalSampleByOrigin(strata: seq<Stratum>)
    ensures TotalSample(strata) == Totals(strata, GenuineForward).sample + Totals(strata, Reconstructed).sample
  {
    if |strata| != 0 { TotalSampleByOrigin(strata[..|strata| - 1]); }
  }

  lemma CountsReconcile(cases: seq<Case>)
    ensures var t, f, r := CountsOf(cases, Everything), CountsOf(cases, OfOrigin(GenuineForward)),
                           CountsOf(cases, OfOrigin(Reconstructed)); t == Add(f, r)
  {
    TallyOfBoth(cases, Every);
    TallyOfBoth(cases, IsCompleted);
    TallyOfBoth(cases, IsFavorable);
  }

  lemma ReportFromBalances(cases: seq<Case>, at: Instant, strata: seq<Stratum>)
    requires Totals(strata, GenuineForward) == CountsOf(cases, OfOrigin(GenuineForward))
    requires Totals(strata, Reconstructed) == CountsOf(cases, OfOrigin(Reconstructed))
    ensures ReportFrom(cases, at, strata).CountsBalance()
  {
    TotalSampleByOrigin(strata);
    CountsReconcile(cases);
  }

  lemma StrataBalance(cases: seq<Case>, at: Instant, keys: seq<StratumKey>, estimate: Estimate)
    requires NoDuplicates(keys) && forall c <- cases :: c.Key() in keys
    ensures ReportFrom(cases, at, StrataOf(keys, cases, estimate)).CountsBalance()
  {
    TotalsReconcile(keys, cases, GenuineForward, estimate);
    TotalsReconcile(keys, cases, Reconstructed, estimate);
    ReportFromBalances(cases, at, StrataOf(keys, cases, estimate));
  }

  lemma StrataAreDistinct(keys: seq<StratumKey>, cases: seq<Case>, estimate: Estimate)
    requires NoDuplicates(keys)
    ensures DistinctKeys(StrataOf(keys, cases, estimate), StratumKeyOf)
  {
  }

  lemma StrataAreValid(keys: seq<StratumKey>, cases: seq<Case>, estimate: Estimate)
    ensures forall stratum <- StrataOf(keys, cases, estimate) :: stratum.Valid(estimate)
  {
    forall i | 0 <= i < |keys| ensures StrataOf(keys, cases, estimate)[i].Valid(estimate) {
      StratumIsValid(keys[i], cases, estimate);
    }
  }

  lemma CountsAreNonNegative(cases: seq<Case>, s: Slice)
    ensures CountsOf(cases, s).NonNegative()
  {
    TallyOrder(cases, s);
  }

  lemma ReportFromIsValid(cases: seq<Case>, at: Instant, strata: seq<Stratum>)
    requires at >= LOCKED_AT && DistinctKeys(strata, StratumKeyOf)
    requires ReportFrom(cases, at, strata).CountsBalance()
    ensures ReportFrom(cases, at, strata).Valid()
  {
    CountsAreNonNegative(cases, Everything);
    CountsAreNonNegative(cases, OfOrigin(GenuineForward));
    CountsAreNonNegative(cases, OfOrigin(Reconstructed));
  }

  lemma DraftIsValid(cases: seq<Case>, at: Instant, estimate: Estimate)
    requires at >= LOCKED_AT
    ensures Draft(cases, at, estimate).Valid()
  {
    var keys := KeyList(cases);
    StrataBalance(cases, at, keys, estimate);
    StrataAreDistinct(keys, cases, estimate);
    ReportFromIsValid(cases, at, StrataOf(keys, cases, estimate));
  }

  lemma ConstructAccepts(report: Report, estimate: Estimate)
    requires report.Valid() && forall stratum <- report.strata :: stratum.Valid(estimate)
    ensures Construct(report, estimate) == Ok(report)
  {
  }

  /** The report's own checks never reject: building fails exactly when an admission guard fails,
      and whatever is built reconciles with its strata field by field. */
  lemma ReportBuiltIffAccepted(cases: seq<Case>, at: Instant, estimate: Estimate)
    ensures BuildReport(cases, at, estimate) ==
      match Guards(cases, at) case Some(error) => Err(error) case None => Ok(Draft(cases, at, estimate))
    ensures Guards(cases, at).None? ==> Draft(cases, at, estimate).Valid()
  {
    if Guards(cases, at).None? {
      DraftIsValid(cases, at, estimate);
      StrataAreValid(KeyList(cases), cases, estimate);
      ConstructAccepts(Draft(cases, at, estimate), estimate);
    }
  }

  /** The strata partition the cases: each case is in exactly one stratum, no stratum is empty, and
      together they hold all the cases. */
  lemma StrataPartitionCases(cases: seq<Case>, at: Instant, estimate: Estimate)
    ensures forall c <- cases :: exists stratum <- Draft(cases, at, estimate).strata :: stratum.key == c.Key()
    ensures DistinctKeys(Draft(cases, at, estimate).strata, StratumKeyOf)
    ensures forall stratum <- Draft(cases, at, estimate).strata :: stratum.counts.sample > 0
    ensures TotalSample(Draft(cases, at, estimate).strata) == |cases|
  {
    var keys := KeyList(cases);
    StrataAreDistinct(keys, cases, estimate);
    StrataBalance(cases, at, keys, estimate);
    TallyEverything(cases);
    forall c | c in cases ensures exists stratum <- StrataOf(keys, cases, estimate) :: stratum.key == c.Key() {
      StratumListed(keys, c.Key(), cases, estimate);
    }
    forall i | 0 <= i < |keys| ensures StrataOf(keys, cases, estimate)[i].counts.sample > 0 {
      var c := CaseOf(keys[i], cases);
      PresentIsCounted(cases, c);
    }
  }

  lemma StratumListed(keys: seq<StratumKey>, key: StratumKey, cases: seq<Case>, estimate: Estimate)
    requires key in keys
    ensures exists stratum <- StrataOf(keys, cases, estimate) :: stratum.key == key
  {
    var i :| 0 <= i < |keys| && keys[i] == key;
    assert StrataOf(keys, cases, estimate)[i].key == key;
  }

  lemma PresentIsCounted(cases: seq<Case>, c: Case)
    requires c in cases
    ensures Tally(cases, OfKey(c.Key()), Every) > 0
  {
    assert c in Keep(cases, Test(OfKey(c.Key()), Every));
  }

  // ----- what the report depends on -----

  lemma {:induction false} StrataIgnoreOrder(keys: seq<StratumKey>, a: seq<Case>, b: seq<Case>, estimate: Estimate)
    requires multiset(a) == multiset(b)
    ensures StrataOf(keys, a, estimate) == StrataOf(keys, b, estimate)
  {
    if |keys| != 0 {
      StrataIgnoreOrder(keys[..|keys| - 1], a, b, estimate);
      CountsIgnoreOrder(a, b, OfKey(keys[|keys| - 1]));
    }
  }

  lemma KeysIgnoreOrder(a: seq<Case>, b: seq<Case>)
    requires multiset(a) == multiset(b)
    ensures KeySet(a) == KeySet(b)
  {
    MembersOfMultiset(a, b);
    assert forall key :: key in KeySet(a) <==> key in KeySet(b);
  }

  lemma CaseSetIgnoresOrder(a: seq<Case>, b: seq<Case>)
    requires multiset(a) == multiset(b) && DistinctKeys(a, OutcomeIdOf)
    ensures Sort(a, IdLeq) == Sort(b, IdLeq)
  {
    forall x, y | x in a && y in a && IdLeq(x, y) && IdLeq(y, x) ensures x == y {
      SameKeySameElement(a, OutcomeIdOf, x, y);
    }
    SortIgnoresOrder(a, b, IdLeq);
  }

  lemma GuardsIgnoreOrder(a: seq<Case>, b: seq<Case>, at: Instant)
    requires multiset(a) == multiset(b)
    ensures Guards(a, at) == Guards(b, at)
  {
    MembersOfMultiset(a, b);
    assert DistinctKeys(a, OutcomeIdOf) <==> DistinctKeys(b, OutcomeIdOf) by {
      if DistinctKeys(a, OutcomeIdOf) { RearrangedKeys(a, b, OutcomeIdOf); }
      if DistinctKeys(b, OutcomeIdOf) { RearrangedKeys(b, a, OutcomeIdOf); }
    }
    assert DistinctKeys(a, PlanIdOf) <==> DistinctKeys(b, PlanIdOf) by {
      if DistinctKeys(a, PlanIdOf) { RearrangedKeys(a, b, PlanIdOf); }
      if DistinctKeys(b, PlanIdOf) { RearrangedKeys(b, a, PlanIdOf); }
    }
  }

  lemma DraftIgnoresOrder(a: seq<Case>, b: seq<Case>, at: Instant, estimate: Estimate)
    requires multiset(a) == multiset(b) && DistinctKeys(a, OutcomeIdOf)
    ensures Draft(a, at, estimate) == Draft(b, at, estimate)
  {
    KeysIgnoreOrder(a, b);
    StrataIgnoreOrder(KeyList(a), a, b, estimate);
    CaseSetIgnoresOrder(a, b);
    CountsIgnoreOrder(a, b, Everything);
    CountsIgnoreOrder(a, b, OfOrigin(GenuineForward));
    CountsIgnoreOrder(a, b, OfOrigin(Reconstructed));
  }

  /** The whole report, error cases included, is the same for every arrangement of the cases. */
  lemma ReportIgnoresOrder(a: seq<Case>, b: seq<Case>, at: Instant, estimate: Estimate)
    requires multiset(a) == multiset(b)
    ensures BuildReport(a, at, estimate) == BuildReport(b, at, estimate)
  {
    GuardsIgnoreOrder(a, b, at);
    ReportBuiltIffAccepted(a, at, estimate);
    ReportBuiltIffAccepted(b, at, estimate);
    if Guards(a, at).None? { DraftIgnoresOrder(a, b, at, estimate); }
  }

  predicate IsForward(c: Case) { c.outcome.plan.origin.GenuineForward? }
  predicate IsForwardKey(key: StratumKey) { key.origin.GenuineForward? }
  predicate IsForwardStratum(stratum: Stratum) { IsForwardKey(stratum.key) }

  function ForwardCases(cases: seq<Case>): seq<Case> { Keep(cases, IsForward) }

  lemma ForwardTally(cases: seq<Case>, key: StratumKey, f: Feature)
    requires key.origin.GenuineForward?
    ensures Tally(ForwardCases(cases), OfKey(key), f) == Tally(cases, OfKey(key), f)
  {
    KeepKept(cases, IsForward, Test(OfKey(key), f), Test(OfKey(key), f));
  }

  lemma ForwardCounts(cases: seq<Case>)
    ensures CountsOf(ForwardCases(cases), Everything) == CountsOf(cases, OfOrigin(GenuineForward))
  {
    KeepKept(cases, IsForward, Test(Everything, Every), Test(OfOrigin(GenuineForward), Every));
    KeepKept(cases, IsForward, Test(Everything, IsCompleted), Test(OfOrigin(GenuineForward), IsCompleted));
    KeepKept(cases, IsForward, Test(Everything, IsFavorable), Test(OfOrigin(GenuineForward), IsFavorable));
  }

  lemma ForwardStratum(key: StratumKey, cases: seq<Case>, estimate: Estimate)
    requires key.origin.GenuineForward?
    ensures StratumOf(key, ForwardCases(cases), estimate) == StratumOf(key, cases, estimate)
  {
    ForwardTally(cases, key, Every);
    ForwardTally(cases, key, IsCompleted);
    ForwardTally(cases, key, IsFavorable);
  }

  /** The forward strata are those of the forward cases alone. */
  lemma {:induction false} ForwardStrataAlone(keys: seq<StratumKey>, cases: seq<Case>, estimate: Estimate)
    ensures Keep(StrataOf(keys, cases, estimate), IsForwardStratum)
      == StrataOf(Keep(keys, IsForwardKey), ForwardCases(cases), estimate)
  {
    if |keys| != 0 {
      var front, last := keys[..|keys| - 1], keys[|keys| - 1];
      ForwardStrataAlone(front, cases, estimate);
      KeepSnoc(StrataOf(front, cases, estimate), StratumOf(last, cases, estimate), IsForwardStratum);
      if last.origin.GenuineForward? {
        ForwardStratum(last, cases, estimate);
        assert (Keep(front, IsForwardKey) + [last])[..|Keep(front, IsForwardKey)|] == Keep(front, IsForwardKey);
      }
    }
  }

  lemma ForwardKeyList(cases: seq<Case>)
    ensures Keep(KeyList(cases), IsForwardKey) == KeyList(ForwardCases(cases))
  {
    var forward := Keep(KeyList(cases), IsForwardKey);
    KeepSorted(KeyList(cases), IsForwardKey, KeyLeq);
    KeepDistinct(KeyList(cases), IsForwardKey);
    forall key ensures key in forward <==> key in KeySet(ForwardCases(cases)) {
      if key in forward {
        var c := CaseOf(key, cases);
        assert c in ForwardCases(cases);
      }
    }
    KeyOrder();
    AscendingUnique(forward, KeySet(ForwardCases(cases)), KeyLeq);
  }

  lemma ForwardVerdict(strata: seq<Stratum>)
    ensures Verdict(Keep(strata, IsForwardStratum)) == Verdict(strata)
  {
  }

  /** Reconstructed cases never affect a forward number: the forward strata with their rates and
      intervals, the forward counts and the disposition are those of the report on the forward cases
      alone, which has nothing else in it. */
  lemma ReconstructedNeverAffectsForward(cases: seq<Case>, at: Instant, estimate: Estimate)
    ensures var report, alone := Draft(cases, at, estimate), Draft(ForwardCases(cases), at, estimate);
      && Keep(report.strata, IsForwardStratum) == alone.strata
      && report.forward == alone.total
      && report.disposition == alone.disposition
  {
    ForwardKeyList(cases);
    ForwardStrataAlone(KeyList(cases), cases, estimate);
    ForwardVerdict(StrataOf(KeyList(cases), cases, estimate));
    ForwardCounts(cases);
  }

  // ----- what the statistics mean -----

  /** The code's own statistics: the rate and its clamped Wilson interval, with `root` as square root. */
  function WilsonEstimate(favorable: nat, completed: nat, root: real -> real): Statistics {
    if completed == 0 then NO_STATISTICS
    else Statistics(Some(Rate(favorable, completed)),
                    ScienceInterval(favorable, completed, root(Radicand(SCIENCE_Z, favorable, completed))))
  }

  /** The statistics put a rate inside its interval, inside [0, 1]. */
  predicate Brackets(s: Statistics) {
    && s.rate.Some? && s.interval.Some?
    && 0.0 <= s.interval.value.0 <= s.rate.value <= s.interval.value.1 <= 1.0
  }

  /** The estimate brackets the rate of any completed cases, and says nothing about none. */
  ghost predicate BracketsRates(estimate: Estimate) {
    && estimate(0, 0) == NO_STATISTICS
    && forall f: nat, n: nat | f <= n && 0 < n :: Brackets(estimate(f, n))
  }

  /** `root` yields the square root of every radicand the science interval has. */
  ghost predicate RootsRadicands(root: real -> real) {
    forall f: nat, n: nat | f <= n && 0 < n :: IsRoot(root(Radicand(SCIENCE_Z, f, n)), Radicand(SCIENCE_Z, f, n))
  }

  lemma WilsonBracketsRates(root: real -> real)
    requires RootsRadicands(root)
    ensures BracketsRates((f: nat, n: nat) => WilsonEstimate(f, n, root))
  {
    forall f: nat, n: nat | f <= n && 0 < n
      ensures Brackets(WilsonEstimate(f, n, root))
    {
      BoundsAndRate(SCIENCE_Z, f, n, root(Radicand(SCIENCE_Z, f, n)));
    }
  }

  /** A forward stratum with completed cases has a rate inside its interval; any other has none. */
  lemma ForwardStatisticsBracket(key: StratumKey, cases: seq<Case>, estimate: Estimate)
    requires BracketsRates(estimate)
    ensures var s := StratumOf(key, cases, estimate);
      if key.origin.GenuineForward? && s.counts.completed > 0 then Brackets(s.statistics) else s.statistics == NO_STATISTICS
  {
    TallyOrder(cases, OfKey(key));
  }

  /** The case is a forward one whose own stratum has 30 completed cases. */
  predicate Calibrated(c: Case, cases: seq<Case>) {
    c.outcome.plan.origin.GenuineForward? && Tally(cases, OfKey(c.Key()), IsCompleted) >= 30
  }

  lemma DecidedIff(c: Case, cases: seq<Case>, estimate: Estimate)
    ensures Decided(StratumOf(c.Key(), cases, estimate)) <==> Calibrated(c, cases)
  {
  }

  lemma CalibratedDecides(keys: seq<StratumKey>, cases: seq<Case>, c: Case, estimate: Estimate)
    requires c.Key() in keys && Calibrated(c, cases)
    ensures Verdict(StrataOf(keys, cases, estimate)) == NotConclusive
  {
    var i :| 0 <= i < |keys| && keys[i] == c.Key();
    DecidedIff(c, cases, estimate);
    assert StrataOf(keys, cases, estimate)[i] in StrataOf(keys, cases, estimate);
  }

  lemma DecidedBy(keys: seq<StratumKey>, cases: seq<Case>, estimate: Estimate) returns (key: StratumKey)
    requires Verdict(StrataOf(keys, cases, estimate)) == NotConclusive
    ensures key in keys && Decided(StratumOf(key, cases, estimate))
  {
    var strata := StrataOf(keys, cases, estimate);
    var stratum :| stratum in strata && Decided(stratum);
    var i :| 0 <= i < |strata| && strata[i] == stratum;
    key := keys[i];
  }

  /** A report is inconclusive exactly when one single forward stratum has 30 completed cases: strata
      are never pooled, and reconstructed ones never count. */
  lemma InconclusiveIff(cases: seq<Case>, at: Instant, estimate: Estimate)
    ensures Draft(cases, at, estimate).disposition == NotConclusive <==> exists c <- cases :: Calibrated(c, cases)
  {
    var keys := KeyList(cases);
    if exists c <- cases :: Calibrated(c, cases) {
      var c :| c in cases && Calibrated(c, cases);
      CalibratedDecides(keys, cases, c, estimate);
    }
    if Verdict(StrataOf(keys, cases, estimate)) == NotConclusive {
      var key := DecidedBy(keys, cases, estimate);
      var c := CaseOf(key, cases);
      DecidedIff(c, cases, estimate);
    }
  }

  lemma CaseOf(key: StratumKey, cases: seq<Case>) returns (c: Case)
    requires key in KeySet(cases)
    ensures c in cases && c.Key() == key
  {
    c :| c in cases && c.Key() == key;
  }

  /** The registered power design, two-sided 5% and 80% power for 0.60 against 0.50, needs 194. */
  lemma PowerSampleIs194(nullRoot: real, alternativeRoot: real)
    requires IsRoot(nullRoot, 0.50 * (1.0 - 0.50)) && IsRoot(alternativeRoot, 0.60 * (1.0 - 0.60))
    ensures var weighted := SCIENCE_Z * nullRoot + 0.841621233572914 * alternativeRoot;
      (POWER_REQUIRED_SAMPLE - 1) as real < Square(weighted) / (0.10 * 0.10) <= POWER_REQUIRED_SAMPLE as real
  {
    RootsAgree(nullRoot, 0.5, 0.25);
    SquaresOrder(alternativeRoot, 0.4899);
    SquaresOrder(0.4898, alternativeRoot);
    var weighted := SCIENCE_Z * nullRoot + 0.841621233572914 * alternativeRoot;
    assert 1.392 < weighted < 1.3924;
    SquaresOrder(weighted, 1.3924);
    SquaresOrder(1.392, weighted);
    assert Square(weighted) / (0.10 * 0.10) == 100.0 * Square(weighted);
  }

  // ----- the building loops -----

  /** The cases of one stratum, in their order. */
  function Select(cases: seq<Case>, key: StratumKey): seq<Case> { Keep(cases, Test(OfKey(key), Every)) }

  lemma SelectCounts(cases: seq<Case>, key: StratumKey, estimate: Estimate)
    ensures StratumOf(key, cases, estimate) == FromGroup(key, Select(cases, key), estimate)
  {
    KeepKept(cases, Test(OfKey(key), Every), Test(Everything, IsCompleted), Test(OfKey(key), IsCompleted));
    KeepKept(cases, Test(OfKey(key), Every), Test(Everything, IsFavorable), Test(OfKey(key), IsFavorable));
  }

  lemma SelectNone(cases: seq<Case>, key: StratumKey)
    requires key !in KeySet(cases)
    ensures Select(cases, key) == []
  {
    forall c | c in cases ensures !Test(OfKey(key), Every)(c) { assert c.Key() in KeySet(cases); }
    KeepNone(cases, Test(OfKey(key), Every));
  }

  ghost predicate GroupsOf(grouped: map<StratumKey, seq<Case>>, cases: seq<Case>) {
    && grouped.Keys == KeySet(cases)
    && (forall key <- grouped :: grouped[key] == Select(cases, key))
  }

  /** Fills the grouping dictionary one case at a time. */
  method Group(cases: seq<Case>) returns (grouped: map<StratumKey, seq<Case>>)
    ensures GroupsOf(grouped, cases)
  {
    grouped := map[];
    for i := 0 to |cases|
      invariant GroupsOf(grouped, cases[..i])
    {
      var key := cases[i].Key();
      var known := if key in grouped then grouped[key] else [];
      assert cases[..i + 1] == cases[..i] + [cases[i]];
      GroupGrows(cases[..i], cases[i], grouped, known);
      grouped := grouped[key := known + [cases[i]]];
    }
    assert cases[..|cases|] == cases;
  }

  lemma KeySetSnoc(cases: seq<Case>, last: Case)
    ensures KeySet(cases + [last]) == KeySet(cases) + {last.Key()}
  {
    forall key ensures key in KeySet(cases + [last]) <==> key in KeySet(cases) || key == last.Key() {
      if key in KeySet(cases) { var c := CaseOf(key, cases); assert c in cases + [last]; }
      if key == last.Key() { assert last in cases + [last]; }
    }
  }

  lemma SelectSnoc(cases: seq<Case>, last: Case, key: StratumKey)
    ensures Select(cases + [last], key) == if last.Key() == key then Select(cases, key) + [last] else Select(cases, key)
  {
    KeepSnoc(cases, last, Test(OfKey(key), Every));
  }

  /** One more case joins its key's group, which may be a new one. */
  lemma GroupGrows(cases: seq<Case>, last: Case, grouped: map<StratumKey, seq<Case>>, known: seq<Case>)
    requires GroupsOf(grouped, cases)
    requires known == if last.Key() in grouped then grouped[last.Key()] else []
    ensures GroupsOf(grouped[last.Key() := known + [last]], cases + [last])
  {
    if last.Key() !in grouped { SelectNone(cases, last.Key()); }
    GroupStep(cases, last, grouped, known + [last]);
  }

  lemma GroupStep(cases: seq<Case>, last: Case, grouped: map<StratumKey, seq<Case>>, group: seq<Case>)
    requires GroupsOf(grouped, cases) && group == Select(cases, last.Key()) + [last]
    ensures GroupsOf(grouped[last.Key() := group], cases + [last])
  {
    KeySetSnoc(cases, last);
    forall key | key in grouped[last.Key() := group]
      ensures grouped[last.Key() := group][key] == Select(cases + [last], key)
    {
      SelectSnoc(cases, last, key);
    }
  }

  /** The stratum of one group, from the group's own counts. */
  function FromGroup(key: StratumKey, selected: seq<Case>, estimate: Estimate): Stratum {
    MakeStratum(key, |selected|, Tally(selected, Everything, IsCompleted), Tally(selected, Everything, IsFavorable), estimate)
  }

  lemma StrataSnoc(keys: seq<StratumKey>, i: nat, cases: seq<Case>, estimate: Estimate)
    requires i < |keys|
    ensures StrataOf(keys[..i + 1], cases, estimate)
      == StrataOf(keys[..i], cases, estimate) + [FromGroup(keys[i], Select(cases, keys[i]), estimate)]
  {
    assert keys[..i + 1][..i] == keys[..i];
    SelectCounts(cases, keys[i], estimate);
  }

  /** Groups the cases and builds one stratum per group, in key order. */
  method BuildStrata(cases: seq<Case>, estimate: Estimate) returns (strata: seq<Stratum>)
    ensures strata == StrataOf(KeyList(cases), cases, estimate)
  {
    var grouped := Group(cases);
    KeyOrder();
    var keys := ListAscending(grouped.Keys, KeyLeq);
    strata := StrataInOrder(keys, grouped, cases, estimate);
  }

  method StrataInOrder(keys: seq<StratumKey>, grouped: map<StratumKey, seq<Case>>, ghost cases: seq<Case>, estimate: Estimate)
    returns (strata: seq<Stratum>)
    requires forall key <- keys :: key in grouped && grouped[key] == Select(cases, key)
    ensures strata == StrataOf(keys, cases, estimate)
  {
    strata := [];
    for i := 0 to |keys|
      invariant strata == StrataOf(keys[..i], cases, estimate)
    {
      StrataSnoc(keys, i, cases, estimate);
      strata := strata + [FromGroup(keys[i], grouped[keys[i]], estimate)];
    }
    assert keys[..|keys|] == keys;
  }

  method Build(cases: seq<Case>, at: Instant, estimate: Estimate) returns (r: Result<Report, ScienceError>)
    ensures r == BuildReport(cases, at, estimate)
  {
    var problem := Guards(cases, at);
    if problem.Some? { return Err(problem.value); }
    var strata := BuildStrata(cases, estimate);
    r := Construct(ReportFrom(cases, at, strata), estimate);
  }
}

/** The point-in-time population: every enrolled plan is terminal, not yet due or overdue. */
module SciencePopulation {
  import opened Calendar
  import opened Filtering
  import opened Outcomes
  import opened Ordering
  import opened ProspectiveContracts
  import opened OutcomeScience

  const MAXIMUM_CASES: nat := 100_000

  /** A published brief, as far as its lineage is read. */
  datatype Brief = Brief(
    briefId: nat,
    publishedAt: Instant,
    ticker: Option<string>,
    schema: string,
    ruleset: string,
    classification: Classification,
    modelName: string,
    modelDigest: string,
    promptVersion: string)
  {
    function Lineage(): Version
      requires ticker.Some?
    {
      Version(briefId, publishedAt, ticker.value, schema, ruleset, classification, modelName, modelDigest, promptVersion)
    }
  }

  /** One joined row: a plan, its publication and, once terminal, its outcome with its id. */
  datatype Row = Row(plan: Plan, publication: Option<Brief>, outcome: Option<(nat, Outcome)>)

  datatype PopulationError =
    | InvalidRecord | DuplicatePlan | FuturePlan | MissingPublication | UnresolvedSymbol | PublicationMismatch
    | OutcomeMismatch | FutureRecord | InvalidPopulation

  datatype Population = Population(
    cutoff: Instant, enrolled: nat, terminal: nat, notYetDue: nat, overdue: nat, cases: seq<Case>)
  {
    predicate CaseInTime(c: Case) { c.outcome.plan.enrolledAt <= cutoff && c.outcome.appendedAt <= cutoff }

    /** The record's validator. */
    predicate Valid() {
      && |cases| <= MAXIMUM_CASES
      && terminal == |cases|
      && enrolled == terminal + notYetDue + overdue
      && DistinctKeys(cases, PlanIdOf)
      && (forall c <- cases :: c.Valid() && CaseInTime(c))
    }
  }

  function RowId(row: Row): PlanId { row.plan.Id() }

  /** What is wrong with one row on its own, after its plan record has been validated. */
  function RowProblem(row: Row, cutoff: Instant): Option<PopulationError> {
    if row.plan.enrolledAt > cutoff then Some(FuturePlan)
    else if row.publication.None? then Some(MissingPublication)
    else
      var brief := row.publication.value;
      if brief.ticker.None? then Some(UnresolvedSymbol)
      else if brief.briefId != row.plan.publicationId || brief.publishedAt != row.plan.publishedAt
              || brief.ticker.value != row.plan.asset.symbol then Some(PublicationMismatch)
      else if row.outcome.None? then None
      else if !row.outcome.value.1.Valid() then Some(InvalidRecord)
      else if row.outcome.value.1.plan != row.plan then Some(OutcomeMismatch)
      else if row.outcome.value.1.appendedAt > cutoff then Some(FutureRecord)
      else None
  }

  predicate RowSound(row: Row, cutoff: Instant) { row.plan.Valid() && RowProblem(row, cutoff).None? }

  function ToCase(row: Row): Case
    requires row.outcome.Some? && row.publication.Some? && row.publication.value.ticker.Some?
  {
    Case(row.outcome.value.0, row.outcome.value.1, row.publication.value.Lineage())
  }

  predicate NotYetDue(row: Row, cutoff: Instant) { row.outcome.None? && row.plan.targetCloseAt > cutoff }

  predicate Overdue(row: Row, cutoff: Instant) { row.outcome.None? && row.plan.targetCloseAt <= cutoff }

  /** The running state of the loop. */
  datatype Account = Account(cases: seq<Case>, notYetDue: nat, overdue: nat, planIds: set<PlanId>)

  function Enter(row: Row, cutoff: Instant, account: Account): Result<Account, PopulationError> {
    if !row.plan.Valid() then Err(InvalidRecord)
    else if RowId(row) in account.planIds then Err(DuplicatePlan)
    else if RowProblem(row, cutoff).Some? then Err(RowProblem(row, cutoff).value)
    else
      var ids := account.planIds + {RowId(row)};
      if row.outcome.Some? then Ok(Account(account.cases + [ToCase(row)], account.notYetDue, account.overdue, ids))
      else if row.plan.targetCloseAt > cutoff then Ok(Account(account.cases, account.notYetDue + 1, account.overdue, ids))
      else Ok(Account(account.cases, account.notYetDue, account.overdue + 1, ids))
  }

  function Enroll(rows: seq<Row>, cutoff: Instant): Result<Account, PopulationError> {
    if |rows| == 0 then Ok(Account([], 0, 0, {}))
    else
      match Enroll(rows[..|rows| - 1], cutoff)
      case Err(e) => Err(e)
      case Ok(account) => Enter(rows[|rows| - 1], cutoff, account)
  }

  function BuildPopulation(rows: seq<Row>, cutoff: Instant): Result<Population, PopulationError> {
    match Enroll(rows, cutoff)
    case Err(e) => Err(e)
    case Ok(a) =>
      var population := Population(cutoff, |rows|, |a.cases|, a.notYetDue, a.overdue, a.cases);
      if population.Valid() then Ok(population) else Err(InvalidPopulation)
  }

  // ----- what the loop adds up to -----

  predicate Sound(rows: seq<Row>, cutoff: Instant) {
    && (forall row <- rows :: RowSound(row, cutoff))
    && DistinctKeys(rows, RowId)
  }

  /** The terminal rows as cases, in row order. */
  function CasesOf(rows: seq<Row>, cutoff: Instant): (cases: seq<Case>)
    requires forall row <- rows :: RowSound(row, cutoff)
  {
    if |rows| == 0 then []
    else
      var last := rows[|rows| - 1];
      assert RowSound(last, cutoff);
      var rest := CasesOf(rows[..|rows| - 1], cutoff);
      if last.outcome.Some? then rest + [ToCase(last)] else rest
  }

  function IsNotYetDue(cutoff: Instant): Row -> bool { (row: Row) => NotYetDue(row, cutoff) }

  function IsOverdue(cutoff: Instant): Row -> bool { (row: Row) => Overdue(row, cutoff) }

  function IdsOf(rows: seq<Row>): set<PlanId> { set row <- rows :: RowId(row) }

  predicate Waiting(rows: seq<Row>, cutoff: Instant, notYetDue: nat, overdue: nat) {
    notYetDue == |Keep(rows, IsNotYetDue(cutoff))| && overdue == |Keep(rows, IsOverdue(cutoff))|
  }

  ghost predicate Accounts(account: Account, rows: seq<Row>, cutoff: Instant)
    requires forall row <- rows :: RowSound(row, cutoff)
  {
    && account.planIds == IdsOf(rows)
    && account.cases == CasesOf(rows, cutoff)
    && |rows| == |account.cases| + account.notYetDue + account.overdue
    && Waiting(rows, cutoff, account.notYetDue, account.overdue)
  }

  lemma IdsSnoc(rows: seq<Row>, last: Row)
    ensures IdsOf(rows + [last]) == IdsOf(rows) + {RowId(last)}
    ensures RowId(last) in IdsOf(rows) <==> exists i :: 0 <= i < |rows| && RowId(rows[i]) == RowId(last)
  {
    forall id ensures id in IdsOf(rows + [last]) <==> id in IdsOf(rows) || id == RowId(last) {
      if id in IdsOf(rows) { var row :| row in rows && RowId(row) == id; assert row in rows + [last]; }
      if id == RowId(last) { assert last in rows + [last]; }
    }
  }

  lemma EnterIff(rows: seq<Row>, last: Row, account: Account, cutoff: Instant)
    requires account.planIds == IdsOf(rows)
    ensures Enter(last, cutoff, account).Ok? <==> RowSound(last, cutoff) && RowId(last) !in IdsOf(rows)
  {
  }

  lemma SoundSnoc(rows: seq<Row>, last: Row, cutoff: Instant)
    ensures Sound(rows + [last], cutoff) <==>
      Sound(rows, cutoff) && RowSound(last, cutoff) && RowId(last) !in IdsOf(rows)
  {
    var all := rows + [last];
    assert forall i | 0 <= i < |rows| :: all[i] == rows[i];
    assert all[|rows|] == last;
    IdsSnoc(rows, last);
    if Sound(all, cutoff) {
      assert forall row <- rows :: row in all;
      assert last in all;
    }
  }

  lemma AccountsSnoc(rows: seq<Row>, last: Row, account: Account, cutoff: Instant)
    requires Sound(rows + [last], cutoff) && Sound(rows, cutoff) && Accounts(account, rows, cutoff)
    requires Enter(last, cutoff, account).Ok?
    ensures Accounts(Enter(last, cutoff, account).value, rows + [last], cutoff)
  {
    assert (rows + [last])[..|rows|] == rows;
    IdsSnoc(rows, last);
    KeepSnoc(rows, last, IsNotYetDue(cutoff));
    KeepSnoc(rows, last, IsOverdue(cutoff));
  }

  /** The loop ends without an error exactly when every row is sound on its own and no plan comes
      twice; its cases are then the terminal rows in order, and its counters count the others. */
  lemma {:induction false} EnrollIff(rows: seq<Row>, cutoff: Instant)
    ensures Enroll(rows, cutoff).Ok? <==> Sound(rows, cutoff)
    ensures Sound(rows, cutoff) ==> Accounts(Enroll(rows, cutoff).value, rows, cutoff)
  {
    if |rows| != 0 {
      var front, last := rows[..|rows| - 1], rows[|rows| - 1];
      assert rows == front + [last];
      EnrollIff(front, cutoff);
      SoundSnoc(front, last, cutoff);
      if Sound(front, cutoff) {
        EnterIff(front, last, Enroll(front, cutoff).value, cutoff);
        if Sound(rows, cutoff) { AccountsSnoc(front, last, Enroll(front, cutoff).value, cutoff); }
      }
    }
  }

  /** A case of the population: a valid record of some row's plan, known by the cutoff. */
  predicate KnownCase(c: Case, rows: seq<Row>, cutoff: Instant) {
    && c.LineageMatches() && PlanIdOf(c) in IdsOf(rows)
    && c.outcome.plan.enrolledAt <= cutoff && c.outcome.appendedAt <= cutoff
  }

  lemma {:induction false} CasesAreKnown(rows: seq<Row>, cutoff: Instant)
    requires Sound(rows, cutoff)
    ensures forall c <- CasesOf(rows, cutoff) :: KnownCase(c, rows, cutoff)
    ensures DistinctKeys(CasesOf(rows, cutoff), PlanIdOf)
  {
    if |rows| != 0 {
      var front, last := rows[..|rows| - 1], rows[|rows| - 1];
      assert rows == front + [last];
      SoundSnoc(front, last, cutoff);
      IdsSnoc(front, last);
      CasesAreKnown(front, cutoff);
      var cases := CasesOf(front, cutoff);
      forall c | c in cases ensures KnownCase(c, rows, cutoff) && PlanIdOf(c) != RowId(last) {
        assert KnownCase(c, front, cutoff);
      }
      if last.outcome.Some? { CaseIsKnown(last, cutoff); }
    }
  }

  lemma CaseIsKnown(row: Row, cutoff: Instant)
    requires RowProblem(row, cutoff).None? && row.outcome.Some?
    ensures ToCase(row).LineageMatches() && PlanIdOf(ToCase(row)) == RowId(row)
    ensures ToCase(row).outcome.appendedAt <= cutoff && ToCase(row).outcome.plan.enrolledAt <= cutoff
  {
  }

  lemma CaseRecordValid(row: Row, cutoff: Instant)
    requires RowProblem(row, cutoff).None? && row.outcome.Some?
    ensures row.outcome.value.1.Valid()
  {
  }

  lemma {:induction false} CasesAreValid(rows: seq<Row>, cutoff: Instant)
    requires forall row <- rows :: RowSound(row, cutoff)
    ensures forall c <- CasesOf(rows, cutoff) :: c.outcome.Valid()
  {
    if |rows| != 0 {
      var front, last := rows[..|rows| - 1], rows[|rows| - 1];
      CasesAreValid(front, cutoff);
      assert RowSound(last, cutoff);
      if last.outcome.Some? { CaseRecordValid(last, cutoff); }
    }
  }

  /** Conservation: a population is built exactly when every row is sound on its own, no plan comes
      twice and at most 100,000 plans are terminal. Every enrolled plan is then terminal, not yet due
      or overdue, each counted by its own condition; the cases are the terminal rows in order; the
      population's own checks otherwise never reject. */
  lemma PopulationIff(rows: seq<Row>, cutoff: Instant)
    ensures BuildPopulation(rows, cutoff).Ok? <==>
      Sound(rows, cutoff) && |CasesOf(rows, cutoff)| <= MAXIMUM_CASES
    ensures var r := BuildPopulation(rows, cutoff);
      r.Ok? ==>
        && r.value.cases == CasesOf(rows, cutoff)
        && |rows| == r.value.enrolled == r.value.terminal + r.value.notYetDue + r.value.overdue
        && Waiting(rows, cutoff, r.value.notYetDue, r.value.overdue)
  {
    EnrollIff(rows, cutoff);
    if Sound(rows, cutoff) {
      CasesAreKnown(rows, cutoff);
      CasesAreValid(rows, cutoff);
      var a := Enroll(rows, cutoff).value;
      PopulationValidIff(Population(cutoff, |rows|, |a.cases|, a.notYetDue, a.overdue, a.cases), rows);
    }
  }

  lemma PopulationValidIff(p: Population, rows: seq<Row>)
    requires p.terminal == |p.cases| && p.enrolled == p.terminal + p.notYetDue + p.overdue
    requires DistinctKeys(p.cases, PlanIdOf)
    requires forall c <- p.cases :: KnownCase(c, rows, p.cutoff)
    requires forall c <- p.cases :: c.outcome.Valid()
    ensures p.Valid() <==> |p.cases| <= MAXIMUM_CASES
  {
    forall c | c in p.cases ensures c.Valid() && p.CaseInTime(c) { assert KnownCase(c, rows, p.cutoff); }
  }

  /** The loop over the joined rows. */
  method Collect(rows: seq<Row>, cutoff: Instant) returns (r: Result<Population, PopulationError>)
    ensures r == BuildPopulation(rows, cutoff)
  {
    var cases: seq<Case> := [];
    var notYetDue, overdue := 0, 0;
    var planIds: set<PlanId> := {};
    for i := 0 to |rows|
      invariant Enroll(rows[..i], cutoff) == Ok(Account(cases, notYetDue, overdue, planIds))
    {
      var row := rows[i];
      assert rows[..i + 1][..i] == rows[..i];
      var entered := Enter(row, cutoff, Account(cases, notYetDue, overdue, planIds));
      if entered.Err? {
        EnrollStops(rows, i + 1, cutoff);
        return Err(entered.error);
      }
      planIds := planIds + {RowId(row)};
      if row.outcome.Some? {
        cases := cases + [ToCase(row)];
      } else if row.plan.targetCloseAt > cutoff {
        notYetDue := notYetDue + 1;
      } else {
        overdue := overdue + 1;
      }
    }
    assert rows[..|rows|] == rows;
    var population := Population(cutoff, |rows|, |cases|, notYetDue, overdue, cases);
    r := if population.Valid() then Ok(population) else Err(InvalidPopulation);
  }

  /** Once the loop has failed it stays failed with the same error. */
  lemma {:induction false} EnrollStops(rows: seq<Row>, i: nat, cutoff: Instant)
    requires i <= |rows| && Enroll(rows[..i], cutoff).Err?
    ensures Enroll(rows, cutoff) == Enroll(rows[..i], cutoff)
    decreases |rows| - i
  {
    if i == |rows| {
      assert rows[..i] == rows;
    } else {
      assert rows[..i + 1][..i] == rows[..i];
      EnrollStops(rows, i + 1, cutoff);
    }
  }

  // ----- the snapshot -----

  datatype Snapshot = Snapshot(population: Population, report: Report)
  {
    predicate Valid() {
      && population.cutoff == report.cutoff
      && report.total.sample == population.terminal
      && report.caseSet == Sort(population.cases, IdLeq)
    }
  }

  datatype SnapshotError = ReportRefused(reason: ScienceError) | InvalidSnapshot

  ghost function BuildSnapshot(population: Population, estimate: Estimate): Result<Snapshot, SnapshotError> {
    Attach(population, BuildReport(population.cases, population.cutoff, estimate))
  }

  function Attach(population: Population, built: Result<Report, ScienceError>): Result<Snapshot, SnapshotError> {
    match built
    case Err(e) => Err(ReportRefused(e))
    case Ok(report) => if Snapshot(population, report).Valid() then Ok(Snapshot(population, report)) else Err(InvalidSnapshot)
  }

  predicate Registered(population: Population) {
    && population.cutoff >= LOCKED_AT
    && DistinctKeys(population.cases, OutcomeIdOf)
    && (forall c <- population.cases :: LockRespected(c) && Benchmarked(c))
  }

  /** A valid population discharges the report's checks on duplicate plans and on future outcomes, so
      its snapshot fails only on the cutoff, a repeated outcome id, an early forward enrollment or
      another benchmark; the snapshot's own checks never reject. */
  lemma SnapshotIff(population: Population, estimate: Estimate)
    requires population.Valid()
    ensures BuildSnapshot(population, estimate).Ok? <==> Registered(population)
    ensures BuildSnapshot(population, estimate) != Err(InvalidSnapshot)
  {
    GuardsIff(population);
    ReportBuiltIffAccepted(population.cases, population.cutoff, estimate);
    DraftMatches(population, estimate);
    AttachIff(population, BuildReport(population.cases, population.cutoff, estimate));
  }

  lemma AttachIff(population: Population, built: Result<Report, ScienceError>)
    requires built.Ok? ==> Snapshot(population, built.value).Valid()
    ensures Attach(population, built).Ok? <==> built.Ok?
    ensures Attach(population, built) != Err(InvalidSnapshot)
  {
  }

  lemma DraftMatches(population: Population, estimate: Estimate)
    requires population.terminal == |population.cases|
    ensures Snapshot(population, Draft(population.cases, population.cutoff, estimate)).Valid()
  {
    TallyEverything(population.cases);
  }

  lemma GuardsIff(population: Population)
    requires DistinctKeys(population.cases, PlanIdOf)
    requires forall c <- population.cases :: population.CaseInTime(c)
    ensures Guards(population.cases, population.cutoff).None? <==> Registered(population)
  {
    forall c | c in population.cases ensures Appended(c, population.cutoff) { assert population.CaseInTime(c); }
  }
}
