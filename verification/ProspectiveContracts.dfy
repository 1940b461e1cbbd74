/** The closed records of the prospective-outcome job protocol and their validators.
    Instants are whole microseconds, session dates are day numbers, and content hashes and
    UUIDs are numbers compared only for order and equality. */
module ProspectiveContracts {
  import opened Calendar
  import opened Outcomes
  import opened Ordering

  type Hash = nat

  /** Prices are positive by their field constraint. */
  type Price = p: real | p > 0.0 witness 1.0

  datatype Horizon = T1 | T5 | T20
  datatype Origin = GenuineForward | Reconstructed
  datatype OutcomeStatus = OutcomeCompleted | OutcomeUnavailable
  datatype AttemptStatus = Succeeded | RetryableFailure | TerminalFailure
  datatype ErrorCode = HttpFailure | TransportFailure | ResponseFailure | ObservationMissing

  /** A symbol together with its market identifier code. */
  datatype Listing = Listing(symbol: string, mic: string)

  /** What `outcome_plan_id` hashes: the provider name has one legal value, so it is left out. */
  datatype PlanId = PlanId(publicationId: nat, horizon: Horizon)

  datatype Plan = Plan(
    publicationId: nat,
    publishedAt: Instant,
    asset: Listing,
    benchmark: Listing,
    currency: string,
    enrolledAt: Instant,
    referenceDate: Day,
    referenceCloseAt: Instant,
    horizon: Horizon,
    targetDate: Day,
    targetCloseAt: Instant,
    origin: Origin)
  {
    function Id(): PlanId { PlanId(publicationId, horizon) }

    predicate Valid() {
      && asset != benchmark
      && publishedAt <= enrolledAt
      && publishedAt <= referenceCloseAt
      && referenceDate < targetDate
      && referenceCloseAt < targetCloseAt
      && origin == if enrolledAt < targetCloseAt then GenuineForward else Reconstructed
    }
  }

  datatype Bar = Bar(
    listing: Listing,
    sessionDate: Day,
    close: Price,
    currency: string,
    contentHash: Hash,
    retrievedAt: Instant)

  datatype BarRequest = BarRequest(listing: Listing, startDate: Day, endDate: Day, currency: string)
  {
    predicate Valid() { startDate <= endDate && endDate - startDate <= 90 }
  }

  datatype BarBatch = BarBatch(request: BarRequest, bars: seq<Bar>, responseHash: Hash, retrievedAt: Instant)
  {
    predicate Valid() {
      && request.Valid()
      && (forall i | 0 <= i < |bars| ::
            && bars[i].listing == request.listing
            && bars[i].currency == request.currency
            && request.startDate <= bars[i].sessionDate <= request.endDate
            && bars[i].retrievedAt == retrievedAt)
      && (forall i, j | 0 <= i < j < |bars| :: bars[i].sessionDate < bars[j].sessionDate)
    }
  }

  datatype Observations = Observations(
    assetReference: Option<Bar>,
    assetTarget: Option<Bar>,
    benchmarkReference: Option<Bar>,
    benchmarkTarget: Option<Bar>)
  {
    /** The four observations in the order the validators list them. */
    function Slots(): seq<Option<Bar>> { [assetReference, assetTarget, benchmarkReference, benchmarkTarget] }

    predicate Complete() {
      assetReference.Some? && assetTarget.Some? && benchmarkReference.Some? && benchmarkTarget.Some?
    }
  }

  const NO_OBSERVATIONS := Observations(None, None, None, None)

  datatype Attempt = Attempt(
    attemptId: nat,
    publicationId: nat,
    horizon: Horizon,
    number: int,
    startedAt: Instant,
    completedAt: Instant,
    status: AttemptStatus,
    responseHashes: seq<Hash>,
    responseRows: int,
    errorCode: Option<ErrorCode>)
  {
    predicate Valid() {
      && 1 <= number <= 6
      && startedAt <= completedAt
      && |responseHashes| <= 2
      && 0 <= responseRows <= 10_000
      && (status.Succeeded? <==> errorCode.None?)
    }
  }

  /** The four observation slots, as a limitation names them. */
  datatype Slot = AssetReference | AssetTarget | BenchmarkReference | BenchmarkTarget

  /** The one limitation text the evaluator writes: which observations are missing. */
  datatype Limitation = MissingObservations(slots: seq<Slot>)

  function Present(slots: seq<Option<Bar>>): (bars: seq<Bar>) {
    if |slots| == 0 then []
    else (match slots[0] case None => [] case Some(bar) => [bar]) + Present(slots[1..])
  }

  function HashesOf(bars: seq<Bar>): (hashes: seq<Hash>)
    ensures |hashes| == |bars|
    ensures forall i | 0 <= i < |bars| :: hashes[i] == bars[i].contentHash
  {
    seq(|bars|, i requires 0 <= i < |bars| => bars[i].contentHash)
  }

  predicate HashLeq(a: Hash, b: Hash) { a <= b }

  function PriceReturn(start: Price, end: Price): real {
    (end - start) / start
  }

  datatype Outcome = Outcome(
    plan: Plan,
    status: OutcomeStatus,
    evaluatedAt: Instant,
    appendedAt: Instant,
    observations: Observations,
    assetReturn: Option<real>,
    benchmarkReturn: Option<real>,
    relativeReturn: Option<real>,
    observationHashes: seq<Hash>,
    attempts: seq<Attempt>,
    limitations: seq<Limitation>)
  {
    predicate TimesValid() { plan.targetCloseAt <= evaluatedAt <= appendedAt }

    /** One retained attempt is a valid record of this plan, finished by the evaluation. */
    predicate AttemptInScope(i: int)
      requires 0 <= i < |attempts|
    {
      && attempts[i].Valid()
      && attempts[i].publicationId == plan.publicationId
      && attempts[i].horizon == plan.horizon
      && attempts[i].completedAt <= evaluatedAt
    }

    /** Two retained attempts are distinct and numbered in their order. */
    predicate AttemptsOrdered(i: int, j: int)
      requires 0 <= i < j < |attempts|
    {
      attempts[i].attemptId != attempts[j].attemptId && attempts[i].number < attempts[j].number
    }

    predicate AttemptsValid() {
      && 1 <= |attempts| <= 6
      && (forall i | 0 <= i < |attempts| :: AttemptInScope(i))
      && (forall i, j | 0 <= i < j < |attempts| :: AttemptsOrdered(i, j))
      && attempts[|attempts| - 1].status == (if status.OutcomeCompleted? then Succeeded else TerminalFailure)
    }

    predicate SlotValid(slot: Option<Bar>, listing: Listing, date: Day) {
      slot.Some? ==>
        && slot.value.listing == listing
        && slot.value.sessionDate == date
        && slot.value.currency == plan.currency
        && slot.value.retrievedAt <= evaluatedAt
    }

    predicate ObservationsValid() {
      && SlotValid(observations.assetReference, plan.asset, plan.referenceDate)
      && SlotValid(observations.assetTarget, plan.asset, plan.targetDate)
      && SlotValid(observations.benchmarkReference, plan.benchmark, plan.referenceDate)
      && SlotValid(observations.benchmarkTarget, plan.benchmark, plan.targetDate)
    }

    predicate ReturnsValid() {
      if status.OutcomeCompleted? then
        && observations.Complete()
        && assetReturn.Some? && benchmarkReturn.Some? && relativeReturn.Some?
        && limitations == []
        && assetReturn.value
           == PriceReturn(observations.assetReference.value.close, observations.assetTarget.value.close)
        && benchmarkReturn.value
           == PriceReturn(observations.benchmarkReference.value.close, observations.benchmarkTarget.value.close)
        && relativeReturn.value == assetReturn.value - benchmarkReturn.value
      else
        && assetReturn.None? && benchmarkReturn.None? && relativeReturn.None?
        && 1 <= |limitations| <= 8
    }

    predicate HashesValid() {
      && observationHashes == Sort(HashesOf(Present(observations.Slots())), HashLeq)
      && NoDuplicates(observationHashes)
    }

    /** The whole validator: an outcome that fails it cannot be constructed. */
    predicate Valid() {
      && plan.Valid()
      && TimesValid()
      && AttemptsValid()
      && ObservationsValid()
      && ReturnsValid()
      && HashesValid()
    }
  }
}

/** Deterministic price-return evaluation of one plan from its retained observations. */
module ProspectiveEvaluator {
  import opened Calendar
  import opened Outcomes
  import opened Ordering
  import opened ProspectiveContracts

  datatype EvaluationError = CurrencyMismatch | IdentityMismatch | InvalidOutcome

  function MissingSlots(o: Observations): (missing: seq<Slot>)
    ensures missing == [] <==> o.Complete()
  {
    (if o.assetReference.None? then [AssetReference] else [])
    + (if o.assetTarget.None? then [AssetTarget] else [])
    + (if o.benchmarkReference.None? then [BenchmarkReference] else [])
    + (if o.benchmarkTarget.None? then [BenchmarkTarget] else [])
  }

  predicate SlotMatches(slot: Option<Bar>, listing: Listing, date: Day) {
    slot.Some? ==> slot.value.listing == listing && slot.value.sessionDate == date
  }

  predicate SlotInCurrency(slot: Option<Bar>, currency: string) {
    slot.Some? ==> slot.value.currency == currency
  }

  /** The currency and identity checks made before anything is computed. */
  function Guards(plan: Plan, o: Observations): Option<EvaluationError> {
    if !(&& SlotInCurrency(o.assetReference, plan.currency) && SlotInCurrency(o.assetTarget, plan.currency)
         && SlotInCurrency(o.benchmarkReference, plan.currency) && SlotInCurrency(o.benchmarkTarget, plan.currency))
    then Some(CurrencyMismatch)
    else if !(&& SlotMatches(o.assetReference, plan.asset, plan.referenceDate)
              && SlotMatches(o.assetTarget, plan.asset, plan.targetDate)
              && SlotMatches(o.benchmarkReference, plan.benchmark, plan.referenceDate)
              && SlotMatches(o.benchmarkTarget, plan.benchmark, plan.targetDate))
    then Some(IdentityMismatch)
    else None
  }

  /** Builds the outcome the evaluator would construct, before its validator runs. */
  function Draft(plan: Plan, o: Observations, attempts: seq<Attempt>, evaluatedAt: Instant, appendedAt: Instant):
    (outcome: Outcome)
    ensures outcome.plan == plan && outcome.attempts == attempts && outcome.observations == o
    ensures outcome.evaluatedAt == evaluatedAt && outcome.appendedAt == appendedAt
    ensures outcome.status.OutcomeCompleted? <==> o.Complete()
  {
    var hashes := Sort(HashesOf(Present(o.Slots())), HashLeq);
    if !o.Complete() then
      Outcome(plan, OutcomeUnavailable, evaluatedAt, appendedAt, o, None, None, None, hashes, attempts,
              [MissingObservations(MissingSlots(o))])
    else
      var asset := PriceReturn(o.assetReference.value.close, o.assetTarget.value.close);
      var benchmark := PriceReturn(o.benchmarkReference.value.close, o.benchmarkTarget.value.close);
      Outcome(plan, OutcomeCompleted, evaluatedAt, appendedAt, o, Some(asset), Some(benchmark),
              Some(asset - benchmark), hashes, attempts, [])
  }

  /** Constructing an outcome runs its validator. */
  function Construct(outcome: Outcome): (r: Result<Outcome, EvaluationError>)
    ensures r.Ok? ==> r.value == outcome && outcome.Valid()
  {
    if outcome.Valid() then Ok(outcome) else Err(InvalidOutcome)
  }

  function Evaluate(plan: Plan, o: Observations, attempts: seq<Attempt>, evaluatedAt: Instant, appendedAt: Instant):
    (r: Result<Outcome, EvaluationError>)
    ensures r.Ok? ==> r.value.Valid() && r.value == Draft(plan, o, attempts, evaluatedAt, appendedAt)
  {
    match Guards(plan, o)
    case Some(error) => Err(error)
    case None => Construct(Draft(plan, o, attempts, evaluatedAt, appendedAt))
  }

  lemma SortKeepsDistinctness(hashes: seq<Hash>)
    ensures NoDuplicates(Sort(hashes, HashLeq)) <==> NoDuplicates(hashes)
  {
    var sorted := Sort(hashes, HashLeq);
    DistinctByCount(sorted);
    DistinctByCount(hashes);
  }

  predicate SlotRetrievedBy(slot: Option<Bar>, at: Instant) { slot.Some? ==> slot.value.retrievedAt <= at }

  /** No retained bar was retrieved after the instant. */
  predicate RetrievedBy(o: Observations, at: Instant) {
    && SlotRetrievedBy(o.assetReference, at) && SlotRetrievedBy(o.assetTarget, at)
    && SlotRetrievedBy(o.benchmarkReference, at) && SlotRetrievedBy(o.benchmarkTarget, at)
  }

  lemma DraftReturnsValid(plan: Plan, o: Observations, attempts: seq<Attempt>, evaluatedAt: Instant, appendedAt: Instant)
    ensures Draft(plan, o, attempts, evaluatedAt, appendedAt).ReturnsValid()
  {
  }

  lemma DraftObservationsValidIff(plan: Plan, o: Observations, attempts: seq<Attempt>, evaluatedAt: Instant,
                                  appendedAt: Instant)
    ensures Draft(plan, o, attempts, evaluatedAt, appendedAt).ObservationsValid()
       <==> Guards(plan, o).None? && RetrievedBy(o, evaluatedAt)
  {
  }

  lemma DraftHashesValidIff(plan: Plan, o: Observations, attempts: seq<Attempt>, evaluatedAt: Instant, appendedAt: Instant)
    ensures Draft(plan, o, attempts, evaluatedAt, appendedAt).HashesValid()
       <==> NoDuplicates(HashesOf(Present(o.Slots())))
  {
    SortKeepsDistinctness(HashesOf(Present(o.Slots())));
  }

  lemma ValidByParts(outcome: Outcome)
    requires outcome.ReturnsValid()
    ensures outcome.Valid() <==>
      && outcome.plan.Valid() && outcome.TimesValid() && outcome.ObservationsValid()
      && outcome.AttemptsValid() && outcome.HashesValid()
  {
  }

  lemma EvaluateUnfolds(plan: Plan, o: Observations, attempts: seq<Attempt>, evaluatedAt: Instant, appendedAt: Instant)
    ensures Evaluate(plan, o, attempts, evaluatedAt, appendedAt).Ok?
       <==> Guards(plan, o).None? && Draft(plan, o, attempts, evaluatedAt, appendedAt).Valid()
  {
    var outcome := Draft(plan, o, attempts, evaluatedAt, appendedAt);
    assert Guards(plan, o).None? ==> Evaluate(plan, o, attempts, evaluatedAt, appendedAt) == Construct(outcome);
  }

  /** When an evaluation succeeds: exactly for a valid plan, times in order, bars that belong to their
      slots, were retrieved by the evaluation and have distinct content hashes, and attempts that are
      ordered, distinct, in scope, no later than the evaluation and end in a success if all four bars
      are present, in a terminal failure otherwise. */
  lemma EvaluateSucceedsIff(plan: Plan, o: Observations, attempts: seq<Attempt>, evaluatedAt: Instant, appendedAt: Instant)
    ensures Evaluate(plan, o, attempts, evaluatedAt, appendedAt).Ok?
      <==> && plan.Valid() && plan.targetCloseAt <= evaluatedAt <= appendedAt
           && Guards(plan, o).None? && RetrievedBy(o, evaluatedAt)
           && NoDuplicates(HashesOf(Present(o.Slots())))
           && Draft(plan, o, attempts, evaluatedAt, appendedAt).AttemptsValid()
  {
    DraftReturnsValid(plan, o, attempts, evaluatedAt, appendedAt);
    DraftObservationsValidIff(plan, o, attempts, evaluatedAt, appendedAt);
    DraftHashesValidIff(plan, o, attempts, evaluatedAt, appendedAt);
    ValidByParts(Draft(plan, o, attempts, evaluatedAt, appendedAt));
    EvaluateUnfolds(plan, o, attempts, evaluatedAt, appendedAt);
  }

  // ----- the outcome in terms of its closes -----

  lemma QuotientOf(start: real, end: real)
    requires start > 0.0
    ensures (end - start) / start * start == end - start
  {
  }

  /** One relative change exceeds another exactly when its target stands higher over its reference. */
  lemma ExceedsIff(x: real, p: real, q: real, y: real, r: real, t: real)
    requires p > 0.0 && r > 0.0 && x * p == q - p && y * r == t - r
    ensures x > y <==> q * r > t * p
    ensures x == y <==> q * r == t * p
  {
    assert q * r == (x + 1.0) * (p * r) by { assert q == (x + 1.0) * p; }
    assert t * p == (y + 1.0) * (p * r) by { assert t == (y + 1.0) * r; }
    var area := p * r;
    assert area > 0.0;
    assert q * r - t * p == (x - y) * area;
  }

  /** What the returns of a valid completed outcome say about its closes: each return times its reference
      close is the rise of the close, and the relative return is positive exactly when the asset rose by
      the larger factor. */
  lemma CompletedReturns(r: Outcome)
    requires r.Valid() && r.status == OutcomeCompleted
    ensures var o := r.observations;
      && o.assetReference.Some? && o.assetTarget.Some? && o.benchmarkReference.Some? && o.benchmarkTarget.Some?
      && r.assetReturn.Some? && r.benchmarkReturn.Some? && r.relativeReturn.Some?
      && var a0, a1 := o.assetReference.value.close, o.assetTarget.value.close;
         var b0, b1 := o.benchmarkReference.value.close, o.benchmarkTarget.value.close;
         && r.assetReturn.value * a0 == a1 - a0
         && r.benchmarkReturn.value * b0 == b1 - b0
         && r.relativeReturn.value == r.assetReturn.value - r.benchmarkReturn.value
         && (r.relativeReturn.value > 0.0 <==> a1 * b0 > b1 * a0)
         && (r.relativeReturn.value == 0.0 <==> a1 * b0 == b1 * a0)
  {
    var o := r.observations;
    assert r.ReturnsValid();
    var a0: real, a1: real := o.assetReference.value.close, o.assetTarget.value.close;
    var b0: real, b1: real := o.benchmarkReference.value.close, o.benchmarkTarget.value.close;
    QuotientOf(a0, a1);
    QuotientOf(b0, b1);
    ExceedsIff((a1 - a0) / a0, a0, a1, (b1 - b0) / b0, b0, b1);
  }

  /** An evaluation has returns exactly when all four bars are there, and then they are those of the closes. */
  lemma ReturnsOfCloses(plan: Plan, o: Observations, attempts: seq<Attempt>, evaluatedAt: Instant, appendedAt: Instant)
    requires Evaluate(plan, o, attempts, evaluatedAt, appendedAt).Ok?
    ensures var r := Evaluate(plan, o, attempts, evaluatedAt, appendedAt).value;
      if o.assetReference.None? || o.assetTarget.None? || o.benchmarkReference.None? || o.benchmarkTarget.None? then
        && r.status == OutcomeUnavailable
        && r.assetReturn.None? && r.benchmarkReturn.None? && r.relativeReturn.None?
      else
        var a0, a1 := o.assetReference.value.close, o.assetTarget.value.close;
        var b0, b1 := o.benchmarkReference.value.close, o.benchmarkTarget.value.close;
        && r.status == OutcomeCompleted && r.observations == o
        && r.assetReturn.Some? && r.benchmarkReturn.Some? && r.relativeReturn.Some?
        && r.assetReturn.value * a0 == a1 - a0
        && r.benchmarkReturn.value * b0 == b1 - b0
        && r.relativeReturn.value == r.assetReturn.value - r.benchmarkReturn.value
        && (r.relativeReturn.value > 0.0 <==> a1 * b0 > b1 * a0)
        && (r.relativeReturn.value == 0.0 <==> a1 * b0 == b1 * a0)
  {
    if o.Complete() { CompletedReturns(Evaluate(plan, o, attempts, evaluatedAt, appendedAt).value); }
  }

  /** An evaluation with missing bars names them, each in its place. */
  lemma LimitationNamesMissing(plan: Plan, o: Observations, attempts: seq<Attempt>, evaluatedAt: Instant,
                               appendedAt: Instant)
    requires Evaluate(plan, o, attempts, evaluatedAt, appendedAt).Ok?
    ensures var r := Evaluate(plan, o, attempts, evaluatedAt, appendedAt).value;
      if r.status.OutcomeCompleted? then r.limitations == []
      else
        && |r.limitations| == 1
        && (AssetReference in r.limitations[0].slots <==> o.assetReference.None?)
        && (AssetTarget in r.limitations[0].slots <==> o.assetTarget.None?)
        && (BenchmarkReference in r.limitations[0].slots <==> o.benchmarkReference.None?)
        && (BenchmarkTarget in r.limitations[0].slots <==> o.benchmarkTarget.None?)
  {
  }

  // ----- the conditions spelled out -----

  /** The bar belongs to the slot and was retrieved by the evaluation. */
  predicate FitsSlot(slot: Option<Bar>, listing: Listing, date: Day, currency: string, at: Instant) {
    slot.Some? ==>
      && slot.value.listing.symbol == listing.symbol && slot.value.listing.mic == listing.mic
      && slot.value.sessionDate == date && slot.value.currency == currency && slot.value.retrievedAt <= at
  }

  lemma SlotsFitIff(plan: Plan, o: Observations, at: Instant)
    ensures Guards(plan, o).None? && RetrievedBy(o, at) <==>
      && FitsSlot(o.assetReference, plan.asset, plan.referenceDate, plan.currency, at)
      && FitsSlot(o.assetTarget, plan.asset, plan.targetDate, plan.currency, at)
      && FitsSlot(o.benchmarkReference, plan.benchmark, plan.referenceDate, plan.currency, at)
      && FitsSlot(o.benchmarkTarget, plan.benchmark, plan.targetDate, plan.currency, at)
  {
  }

  /** One receipt is a record of the plan that ended by the evaluation. */
  predicate RecordsPlan(plan: Plan, a: Attempt, at: Instant) {
    && a.publicationId == plan.publicationId && a.horizon == plan.horizon
    && 1 <= a.number <= 6 && a.startedAt <= a.completedAt <= at
    && |a.responseHashes| <= 2 && 0 <= a.responseRows <= 10_000
    && (a.status == Succeeded <==> a.errorCode == None)
  }

  /** Two receipts are distinct and numbered in their order. */
  predicate Precedes(a: Attempt, b: Attempt) { a.attemptId != b.attemptId && a.number < b.number }

  lemma AttemptsInScopeIff(outcome: Outcome, i: int)
    requires 0 <= i < |outcome.attempts|
    ensures outcome.AttemptInScope(i) <==> RecordsPlan(outcome.plan, outcome.attempts[i], outcome.evaluatedAt)
  {
  }

  lemma AttemptsFitIff(outcome: Outcome)
    ensures outcome.AttemptsValid() <==>
      && 1 <= |outcome.attempts| <= 6
      && (forall i | 0 <= i < |outcome.attempts| :: RecordsPlan(outcome.plan, outcome.attempts[i], outcome.evaluatedAt))
      && (forall i, j | 0 <= i < j < |outcome.attempts| :: Precedes(outcome.attempts[i], outcome.attempts[j]))
      && outcome.attempts[|outcome.attempts| - 1].status
         == (if outcome.status == OutcomeCompleted then Succeeded else TerminalFailure)
  {
    var attempts := outcome.attempts;
    forall i | 0 <= i < |attempts|
      ensures outcome.AttemptInScope(i) <==> RecordsPlan(outcome.plan, attempts[i], outcome.evaluatedAt)
    {
      AttemptsInScopeIff(outcome, i);
    }
    assert forall i, j | 0 <= i < j < |attempts| :: outcome.AttemptsOrdered(i, j) <==> Precedes(attempts[i], attempts[j]);
  }

  lemma PlanValidIff(plan: Plan)
    ensures plan.Valid() <==>
      && (plan.asset.symbol != plan.benchmark.symbol || plan.asset.mic != plan.benchmark.mic)
      && plan.publishedAt <= plan.enrolledAt && plan.publishedAt <= plan.referenceCloseAt
      && plan.referenceDate < plan.targetDate && plan.referenceCloseAt < plan.targetCloseAt
      && (plan.origin == GenuineForward <==> plan.enrolledAt < plan.targetCloseAt)
  {
  }

  predicate SlotsDiffer(slots: seq<Option<Bar>>) {
    forall i, j | 0 <= i < j < |slots| :: slots[i].Some? && slots[j].Some?
      ==> slots[i].value.contentHash != slots[j].value.contentHash
  }

  lemma {:induction false} PresentComesFromSlots(slots: seq<Option<Bar>>)
    ensures forall bar | bar in Present(slots) :: Some(bar) in slots
  {
    if |slots| != 0 { PresentComesFromSlots(slots[1..]); }
  }

  lemma {:induction false} DifferentSlotsHaveNoDuplicates(slots: seq<Option<Bar>>)
    requires SlotsDiffer(slots)
    ensures NoDuplicates(HashesOf(Present(slots)))
  {
    if |slots| != 0 {
      var rest := Present(slots[1..]);
      DifferentSlotsHaveNoDuplicates(slots[1..]);
      PresentComesFromSlots(slots[1..]);
      if slots[0].Some? {
        var hashes := HashesOf(rest);
        forall i | 0 <= i < |hashes| ensures hashes[i] != slots[0].value.contentHash {
          assert rest[i] in rest;
          var j :| 0 <= j < |slots[1..]| && slots[1..][j] == Some(rest[i]);
          assert slots[j + 1] == Some(rest[i]);
        }
        assert HashesOf(Present(slots)) == [slots[0].value.contentHash] + hashes;
      } else {
        assert Present(slots) == rest;
      }
    }
  }

  lemma {:induction false} SlotsArePresent(slots: seq<Option<Bar>>)
    ensures forall i | 0 <= i < |slots| :: slots[i].Some? ==> slots[i].value in Present(slots)
  {
    if |slots| != 0 {
      SlotsArePresent(slots[1..]);
      forall i | 0 <= i < |slots| && slots[i].Some? ensures slots[i].value in Present(slots) {
        if i > 0 { assert slots[1..][i - 1] == slots[i]; }
      }
    }
  }

  /** Prefixing a bar that repeats a hash of the rest leaves a duplicate. */
  lemma FirstDiffers(bar: Bar, rest: seq<Bar>, other: Bar)
    requires NoDuplicates(HashesOf([bar] + rest)) && other in rest
    ensures bar.contentHash != other.contentHash
  {
    var m :| 0 <= m < |rest| && rest[m] == other;
    var hashes := HashesOf([bar] + rest);
    assert ([bar] + rest)[m + 1] == other;
    assert hashes[0] == bar.contentHash && hashes[m + 1] == other.contentHash;
  }

  lemma RestHasNoDuplicates(front: seq<Bar>, rest: seq<Bar>)
    requires NoDuplicates(HashesOf(front + rest))
    ensures NoDuplicates(HashesOf(rest))
  {
    var k := |front|;
    forall i, j | 0 <= i < j < |rest| ensures HashesOf(rest)[i] != HashesOf(rest)[j] {
      assert (front + rest)[k + i] == rest[i] && (front + rest)[k + j] == rest[j];
      assert HashesOf(front + rest)[k + i] != HashesOf(front + rest)[k + j];
    }
  }

  lemma {:induction false} NoDuplicatesMeansDifferentSlots(slots: seq<Option<Bar>>)
    requires NoDuplicates(HashesOf(Present(slots)))
    ensures SlotsDiffer(slots)
  {
    if |slots| != 0 {
      var rest := Present(slots[1..]);
      RestHasNoDuplicates(match slots[0] case None => [] case Some(bar) => [bar], rest);
      NoDuplicatesMeansDifferentSlots(slots[1..]);
      SlotsArePresent(slots[1..]);
      forall i, j | 0 <= i < j < |slots| && slots[i].Some? && slots[j].Some?
        ensures slots[i].value.contentHash != slots[j].value.contentHash
      {
        assert slots[1..][j - 1] == slots[j];
        if i > 0 {
          assert slots[1..][i - 1] == slots[i];
        } else {
          FirstDiffers(slots[0].value, rest, slots[j].value);
        }
      }
    }
  }

  lemma DistinctHashesIff(slots: seq<Option<Bar>>)
    ensures NoDuplicates(HashesOf(Present(slots))) <==> SlotsDiffer(slots)
  {
    if SlotsDiffer(slots) { DifferentSlotsHaveNoDuplicates(slots); }
    if NoDuplicates(HashesOf(Present(slots))) { NoDuplicatesMeansDifferentSlots(slots); }
  }

  /** The whole condition of an evaluation, field by field: what the evaluator's guards and the outcome's
      validator come to when they run one after the other. */
  lemma EvaluateAcceptsIff(plan: Plan, o: Observations, attempts: seq<Attempt>, evaluatedAt: Instant, appendedAt: Instant)
    ensures Evaluate(plan, o, attempts, evaluatedAt, appendedAt).Ok?
      <==> && (plan.asset.symbol != plan.benchmark.symbol || plan.asset.mic != plan.benchmark.mic)
           && plan.publishedAt <= plan.enrolledAt && plan.publishedAt <= plan.referenceCloseAt
           && plan.referenceDate < plan.targetDate && plan.referenceCloseAt < plan.targetCloseAt
           && (plan.origin == GenuineForward <==> plan.enrolledAt < plan.targetCloseAt)
           && plan.targetCloseAt <= evaluatedAt <= appendedAt
           && FitsSlot(o.assetReference, plan.asset, plan.referenceDate, plan.currency, evaluatedAt)
           && FitsSlot(o.assetTarget, plan.asset, plan.targetDate, plan.currency, evaluatedAt)
           && FitsSlot(o.benchmarkReference, plan.benchmark, plan.referenceDate, plan.currency, evaluatedAt)
           && FitsSlot(o.benchmarkTarget, plan.benchmark, plan.targetDate, plan.currency, evaluatedAt)
           && SlotsDiffer([o.assetReference, o.assetTarget, o.benchmarkReference, o.benchmarkTarget])
           && 1 <= |attempts| <= 6
           && (forall i | 0 <= i < |attempts| :: RecordsPlan(plan, attempts[i], evaluatedAt))
           && (forall i, j | 0 <= i < j < |attempts| :: Precedes(attempts[i], attempts[j]))
           && attempts[|attempts| - 1].status
              == (if o.assetReference.Some? && o.assetTarget.Some? && o.benchmarkReference.Some? && o.benchmarkTarget.Some?
                  then Succeeded else TerminalFailure)
  {
    EvaluateSucceedsIff(plan, o, attempts, evaluatedAt, appendedAt);
    PlanValidIff(plan);
    SlotsFitIff(plan, o, evaluatedAt);
    DistinctHashesIff(o.Slots());
    AttemptsFitIff(Draft(plan, o, attempts, evaluatedAt, appendedAt));
  }

  // ----- the observation hashes -----

  /** An accepted outcome lists the content hashes of its bars in strictly ascending order, and no others. */
  lemma HashesAscend(plan: Plan, o: Observations, attempts: seq<Attempt>, evaluatedAt: Instant, appendedAt: Instant)
    requires Evaluate(plan, o, attempts, evaluatedAt, appendedAt).Ok?
    ensures var hashes := Evaluate(plan, o, attempts, evaluatedAt, appendedAt).value.observationHashes;
      var slots := [o.assetReference, o.assetTarget, o.benchmarkReference, o.benchmarkTarget];
      && (forall i, j | 0 <= i < j < |hashes| :: hashes[i] < hashes[j])
      && (forall h :: h in hashes <==> exists bar :: Some(bar) in slots && bar.contentHash == h)
  {
    var listed := HashesOf(Present(o.Slots()));
    var hashes := Sort(listed, HashLeq);
    var outcome := Evaluate(plan, o, attempts, evaluatedAt, appendedAt).value;
    assert outcome.observationHashes == hashes && NoDuplicates(hashes) by { assert outcome.HashesValid(); }
    SortSorts(listed, HashLeq);
    forall i, j | 0 <= i < j < |hashes| ensures hashes[i] < hashes[j] { assert HashLeq(hashes[i], hashes[j]); }
    MembersOfMultiset(listed, hashes);
    forall h ensures h in hashes <==> exists bar :: Some(bar) in o.Slots() && bar.contentHash == h {
      HashOfSlot(o.Slots(), h);
    }
  }

  lemma HashOfSlot(slots: seq<Option<Bar>>, h: Hash)
    ensures h in HashesOf(Present(slots)) <==> exists bar :: Some(bar) in slots && bar.contentHash == h
  {
    var bars := Present(slots);
    PresentComesFromSlots(slots);
    SlotsArePresent(slots);
    if h in HashesOf(bars) {
      var i :| 0 <= i < |bars| && HashesOf(bars)[i] == h;
      assert bars[i] in bars && bars[i].contentHash == h;
    }
    if exists bar :: Some(bar) in slots && bar.contentHash == h {
      var bar :| Some(bar) in slots && bar.contentHash == h;
      var k :| 0 <= k < |slots| && slots[k] == Some(bar);
      var i :| 0 <= i < |bars| && bars[i] == bar;
      assert HashesOf(bars)[i] == h;
    }
  }
}
