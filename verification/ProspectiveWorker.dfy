/** What one worker does with a claimed job, as functions of the claim and of everything it reads
    from outside: provider replies, its clock, a fresh UUID. */
module ProspectiveWorker {
  import opened Calendar
  import opened Outcomes
  import opened Ordering
  import opened ProspectiveContracts
  import opened ProspectiveEvaluator
  import opened ProspectiveStore

  datatype Reply =
    | Bars(batch: BarBatch)
    | HttpError(statusCode: int)
    | TransportError
    | ResponseError

  const RETRYABLE_STATUS_CODES := {429, 500, 502, 503, 504}

  /** Clock readings in the order they are taken, the two provider replies and the fresh receipt id.
      Nothing is said about the readings: a wall clock may be set back at any time. */
  datatype Work = Work(
    attemptId: nat,
    startedAt: Instant,
    assetReply: Reply,
    benchmarkReply: Reply,
    observedAt: Instant,
    finishedAt: Instant)

  datatype AbortReason = RequestInvalid | ReceiptInvalid

  datatype Decision =
    | Abort(reason: AbortReason)
    | Retry(receipt: Attempt, nextAttemptAt: Instant)
    | Finish(receipt: Attempt, observations: Observations)

  function AssetRequest(plan: Plan): BarRequest {
    BarRequest(plan.asset, plan.referenceDate, plan.targetDate, plan.currency)
  }

  function BenchmarkRequest(plan: Plan): BarRequest {
    BarRequest(plan.benchmark, plan.referenceDate, plan.targetDate, plan.currency)
  }

  /** Both bar requests span the plan's sessions, at most 90 days. */
  predicate WindowFits(plan: Plan) { AssetRequest(plan).Valid() && BenchmarkRequest(plan).Valid() }

  predicate Retryable(reply: Reply)
    requires !reply.Bars?
  {
    !reply.HttpError? || reply.statusCode in RETRYABLE_STATUS_CODES
  }

  function CodeOf(reply: Reply): ErrorCode
    requires !reply.Bars?
  {
    match reply
    case HttpError(_) => HttpFailure
    case TransportError => TransportFailure
    case ResponseError => ResponseFailure
  }

  /** The first bar of the session, if any. */
  function BarOn(bars: seq<Bar>, date: Day): Option<Bar> {
    if |bars| == 0 then None
    else if bars[0].sessionDate == date then Some(bars[0])
    else BarOn(bars[1..], date)
  }

  function Observe(plan: Plan, asset: BarBatch, benchmark: BarBatch): Observations {
    Observations(BarOn(asset.bars, plan.referenceDate), BarOn(asset.bars, plan.targetDate),
                 BarOn(benchmark.bars, plan.referenceDate), BarOn(benchmark.bars, plan.targetDate))
  }

  /** `min(86_400, 300 * 2 ** (number - 1))` seconds after a failed attempt. */
  function Power2(n: nat): nat { if n == 0 then 1 else 2 * Power2(n - 1) }

  function Backoff(number: int): Instant
    requires 1 <= number
  {
    (if 300 * Power2(number - 1) < 86_400 then 300 * Power2(number - 1) else 86_400) * SECOND
  }

  function Fail(claim: Claim, work: Work, code: ErrorCode, retryable: bool, o: Observations,
                hashes: seq<Hash>, rows: int): Decision
    requires 1 <= claim.number
  {
    var terminal := !retryable || claim.number >= 6;
    var receipt := Attempt(work.attemptId, claim.plan.publicationId, claim.plan.horizon, claim.number,
                           work.startedAt, work.finishedAt,
                           if terminal then TerminalFailure else RetryableFailure, hashes, rows, Some(code));
    if !receipt.Valid() then Abort(ReceiptInvalid)
    else if terminal then Finish(receipt, o)
    else Retry(receipt, work.finishedAt + Backoff(claim.number))
  }

  /** All four bars are there. */
  function Succeed(claim: Claim, work: Work, o: Observations, hashes: seq<Hash>, rows: int): Decision {
    var receipt := Attempt(work.attemptId, claim.plan.publicationId, claim.plan.horizon, claim.number,
                           work.startedAt, work.observedAt, Succeeded, hashes, rows, None);
    if receipt.Valid() then Finish(receipt, o) else Abort(ReceiptInvalid)
  }

  /** The receipt a worker builds for a claim and what it does with it. */
  function Decide(claim: Claim, work: Work): Decision
    requires 1 <= claim.number
  {
    if !WindowFits(claim.plan) then Abort(RequestInvalid)
    else if !work.assetReply.Bars? then
      Fail(claim, work, CodeOf(work.assetReply), Retryable(work.assetReply), NO_OBSERVATIONS, [], 0)
    else
      var asset := work.assetReply.batch;
      if !work.benchmarkReply.Bars? then
        Fail(claim, work, CodeOf(work.benchmarkReply), Retryable(work.benchmarkReply), NO_OBSERVATIONS,
             [asset.responseHash], |asset.bars|)
      else
        var benchmark := work.benchmarkReply.batch;
        var o := Observe(claim.plan, asset, benchmark);
        var hashes := [asset.responseHash, benchmark.responseHash];
        var rows := |asset.bars| + |benchmark.bars|;
        if !o.Complete() then Fail(claim, work, ObservationMissing, true, o, hashes, rows)
        else Succeed(claim, work, o, hashes, rows)
  }

  predicate AnswersRequest(batch: BarBatch, request: BarRequest) { batch.Valid() && batch.request == request }

  /** What a provider owes a worker: batches that answer the request and pass their validator. */
  predicate Answered(claim: Claim, work: Work) {
    && (work.assetReply.Bars? ==> AnswersRequest(work.assetReply.batch, AssetRequest(claim.plan)))
    && (work.benchmarkReply.Bars? ==> AnswersRequest(work.benchmarkReply.batch, BenchmarkRequest(claim.plan)))
  }

  predicate RetrievedInTime(reply: Reply, at: Instant) { reply.Bars? ==> reply.batch.retrievedAt <= at }

  /** Readings of clocks that never ran backwards between claiming and finishing. */
  predicate OrderedClocks(claim: Claim, work: Work) {
    && claim.claimedAt <= work.startedAt <= work.observedAt <= work.finishedAt
    && RetrievedInTime(work.assetReply, work.observedAt) && RetrievedInTime(work.benchmarkReply, work.observedAt)
  }

  /** The outcome the worker hands to the store, from the ledger it read beforehand. */
  function Conclude(claim: Claim, receipt: Attempt, o: Observations, ledger: seq<Attempt>):
    Result<Outcome, EvaluationError>
  {
    Evaluate(claim.plan, o, ledger + [receipt], receipt.completedAt, receipt.completedAt)
  }

  // ----- facts about one worker -----

  lemma {:induction false} BarOnIsFromBatch(bars: seq<Bar>, date: Day)
    ensures BarOn(bars, date).Some? ==> BarOn(bars, date).value in bars && BarOn(bars, date).value.sessionDate == date
    ensures BarOn(bars, date).None? ==> forall bar | bar in bars :: bar.sessionDate != date
  {
    if |bars| != 0 && bars[0].sessionDate != date { BarOnIsFromBatch(bars[1..], date); }
  }

  /** Sessions that are sorted, unique and inside a window are no more than the window has days. */
  lemma {:induction false} BatchIsSmall(bars: seq<Bar>, low: Day, high: Day)
    requires forall i | 0 <= i < |bars| :: low <= bars[i].sessionDate <= high
    requires forall i, j | 0 <= i < j < |bars| :: bars[i].sessionDate < bars[j].sessionDate
    requires low <= high + 1
    ensures |bars| <= high - low + 1
  {
    if |bars| != 0 {
      var last := bars[|bars| - 1].sessionDate;
      BatchIsSmall(bars[..|bars| - 1], low, last - 1);
    }
  }

  lemma ObservedBarsFit(plan: Plan, asset: BarBatch, benchmark: BarBatch)
    requires AnswersRequest(asset, AssetRequest(plan)) && AnswersRequest(benchmark, BenchmarkRequest(plan))
    ensures Guards(plan, Observe(plan, asset, benchmark)).None?
    ensures forall at :: asset.retrievedAt <= at && benchmark.retrievedAt <= at
              ==> RetrievedBy(Observe(plan, asset, benchmark), at)
  {
    BarOnIsFromBatch(asset.bars, plan.referenceDate);
    BarOnIsFromBatch(asset.bars, plan.targetDate);
    BarOnIsFromBatch(benchmark.bars, plan.referenceDate);
    BarOnIsFromBatch(benchmark.bars, plan.targetDate);
  }

  predicate ReceiptFor(claim: Claim, receipt: Attempt) {
    && receipt.Valid()
    && receipt.number == claim.number
    && receipt.publicationId == claim.plan.publicationId
    && receipt.horizon == claim.plan.horizon
  }

  /** Whatever the provider and the clock do, a receipt that comes to be is a valid record of its
      claim, with the status its observations call for and the backoff its number calls for. */
  lemma DecisionIsSound(claim: Claim, work: Work)
    requires 1 <= claim.number
    ensures var d := Decide(claim, work);
      && (!d.Abort? ==>
            && ReceiptFor(claim, d.receipt) && d.receipt.attemptId == work.attemptId
            && d.receipt.startedAt == work.startedAt && WindowFits(claim.plan))
      && (d.Retry? ==> d.receipt.status.RetryableFailure? && claim.number <= 5
                       && d.nextAttemptAt == d.receipt.completedAt + Backoff(claim.number))
      && (d.Finish? ==> d.receipt.status == if d.observations.Complete() then Succeeded else TerminalFailure)
  {
  }

  /** The last reading of the clock a worker takes for its receipt. */
  function CompletedAt(claim: Claim, work: Work): Instant {
    if work.assetReply.Bars? && work.benchmarkReply.Bars?
       && Observe(claim.plan, work.assetReply.batch, work.benchmarkReply.batch).Complete()
    then work.observedAt else work.finishedAt
  }

  predicate FewRows(reply: Reply) { reply.Bars? ==> |reply.batch.bars| <= 91 }

  lemma AnswersAreSmall(claim: Claim, work: Work)
    requires Answered(claim, work)
    ensures FewRows(work.assetReply) && FewRows(work.benchmarkReply)
  {
    if work.assetReply.Bars? {
      var asset := work.assetReply.batch;
      BatchIsSmall(asset.bars, asset.request.startDate, asset.request.endDate);
    }
    if work.benchmarkReply.Bars? {
      var benchmark := work.benchmarkReply.batch;
      BatchIsSmall(benchmark.bars, benchmark.request.startDate, benchmark.request.endDate);
    }
  }

  /** A claim ends without a result exactly when the plan does not fit one request, or when the
      worker's clock went back behind its own start. */
  lemma AbortIff(claim: Claim, work: Work)
    requires 1 <= claim.number <= 6 && Answered(claim, work)
    ensures Decide(claim, work).Abort? <==> !WindowFits(claim.plan) || CompletedAt(claim, work) < work.startedAt
  {
    AnswersAreSmall(claim, work);
  }

  lemma FinishedObservations(claim: Claim, work: Work)
    requires 1 <= claim.number && Decide(claim, work).Finish?
    ensures Decide(claim, work).observations
         == if work.assetReply.Bars? && work.benchmarkReply.Bars?
            then Observe(claim.plan, work.assetReply.batch, work.benchmarkReply.batch)
            else NO_OBSERVATIONS
  {
  }

  /** The observations of a finished claim belong to the slots of its plan, and were retrieved in time if
      the replies were. */
  lemma FinishedBarsFit(claim: Claim, work: Work)
    requires 1 <= claim.number && Answered(claim, work) && Decide(claim, work).Finish?
    ensures var d := Decide(claim, work); var at := CompletedAt(claim, work);
      && d.receipt.completedAt == at && Guards(claim.plan, d.observations).None?
      && (RetrievedInTime(work.assetReply, at) && RetrievedInTime(work.benchmarkReply, at) ==> RetrievedBy(d.observations, at))
  {
    if work.assetReply.Bars? && work.benchmarkReply.Bars? {
      ObservedBarsFit(claim.plan, work.assetReply.batch, work.benchmarkReply.batch);
    }
  }

  /** The one-day cap of the backoff is never reached below the attempt ceiling. */
  lemma BackoffDoubles(number: int)
    requires 1 <= number <= 5
    ensures Backoff(number) == 300 * Power2(number - 1) * SECOND
    ensures number < 5 ==> Backoff(number + 1) == 2 * Backoff(number)
    ensures Backoff(number) >= 300 * SECOND
  {
    assert Power2(0) == 1 && Power2(1) == 2 && Power2(2) == 4 && Power2(3) == 8 && Power2(4) == 16;
  }

  // ----- the decision in terms of the replies -----

  /** The batch has a bar of the session. */
  ghost predicate Covers(batch: BarBatch, date: Day) {
    exists i :: 0 <= i < |batch.bars| && batch.bars[i].sessionDate == date
  }

  ghost predicate AllFourBars(plan: Plan, asset: BarBatch, benchmark: BarBatch) {
    && Covers(asset, plan.referenceDate) && Covers(asset, plan.targetDate)
    && Covers(benchmark, plan.referenceDate) && Covers(benchmark, plan.targetDate)
  }

  lemma ObservesIffCovered(batch: BarBatch, date: Day)
    ensures BarOn(batch.bars, date).Some? <==> Covers(batch, date)
  {
    BarOnIsFromBatch(batch.bars, date);
    if Covers(batch, date) {
      var i :| 0 <= i < |batch.bars| && batch.bars[i].sessionDate == date;
      assert batch.bars[i] in batch.bars;
    }
  }

  lemma CompleteIffCovered(plan: Plan, asset: BarBatch, benchmark: BarBatch)
    ensures Observe(plan, asset, benchmark).Complete() <==> AllFourBars(plan, asset, benchmark)
  {
    ObservesIffCovered(asset, plan.referenceDate);
    ObservesIffCovered(asset, plan.targetDate);
    ObservesIffCovered(benchmark, plan.referenceDate);
    ObservesIffCovered(benchmark, plan.targetDate);
  }

  /** Which claims are tried again, in terms of the two replies: up to the fifth attempt, and when the
      first failing reply is a transport error, an unusable response or one of five HTTP statuses, or
      when both replies have bars and one of the four is missing. */
  lemma RetryIff(claim: Claim, work: Work)
    requires 1 <= claim.number <= 6 && !Decide(claim, work).Abort?
    ensures Decide(claim, work).Retry? <==>
      && claim.number <= 5
      && match work.assetReply
         case HttpError(status) => status in {429, 500, 502, 503, 504}
         case TransportError => true
         case ResponseError => true
         case Bars(asset) =>
           match work.benchmarkReply
           case HttpError(status) => status in {429, 500, 502, 503, 504}
           case TransportError => true
           case ResponseError => true
           case Bars(benchmark) => !AllFourBars(claim.plan, asset, benchmark)
  {
    if work.assetReply.Bars? && work.benchmarkReply.Bars? {
      CompleteIffCovered(claim.plan, work.assetReply.batch, work.benchmarkReply.batch);
    }
  }

  /** Which claims end their job without an outcome's data: a first failing reply with any other HTTP
      status on any attempt, and every failure of the sixth attempt. */
  lemma TerminalIff(claim: Claim, work: Work)
    requires 1 <= claim.number <= 6 && !Decide(claim, work).Abort?
    ensures Decide(claim, work).Finish? && Decide(claim, work).receipt.status.TerminalFailure? <==>
      match work.assetReply
      case HttpError(status) => claim.number == 6 || status !in {429, 500, 502, 503, 504}
      case TransportError => claim.number == 6
      case ResponseError => claim.number == 6
      case Bars(asset) =>
        match work.benchmarkReply
        case HttpError(status) => claim.number == 6 || status !in {429, 500, 502, 503, 504}
        case TransportError => claim.number == 6
        case ResponseError => claim.number == 6
        case Bars(benchmark) => claim.number == 6 && !AllFourBars(claim.plan, asset, benchmark)
  {
    if work.assetReply.Bars? && work.benchmarkReply.Bars? {
      CompleteIffCovered(claim.plan, work.assetReply.batch, work.benchmarkReply.batch);
    }
  }

  /** Which claims succeed: those whose two replies have all four bars. */
  lemma SuccessIff(claim: Claim, work: Work)
    requires 1 <= claim.number <= 6 && !Decide(claim, work).Abort?
    ensures Decide(claim, work).Finish? && Decide(claim, work).receipt.status.Succeeded? <==>
      && work.assetReply.Bars? && work.benchmarkReply.Bars?
      && AllFourBars(claim.plan, work.assetReply.batch, work.benchmarkReply.batch)
  {
    if work.assetReply.Bars? && work.benchmarkReply.Bars? {
      CompleteIffCovered(claim.plan, work.assetReply.batch, work.benchmarkReply.batch);
    }
  }

  /** The slot holds a bar of the session exactly when the batch has one, and then one of the batch. */
  ghost predicate KeptFrom(slot: Option<Bar>, batch: BarBatch, date: Day) {
    && (slot.Some? <==> Covers(batch, date))
    && (slot.Some? ==> slot.value in batch.bars && slot.value.sessionDate == date)
  }

  /** What a finished claim keeps: each of the four bars that its two batches have, and nothing if a
      reply failed. */
  lemma KeptBars(claim: Claim, work: Work)
    requires 1 <= claim.number && Decide(claim, work).Finish?
    ensures var o := Decide(claim, work).observations;
      if work.assetReply.Bars? && work.benchmarkReply.Bars? then
        && KeptFrom(o.assetReference, work.assetReply.batch, claim.plan.referenceDate)
        && KeptFrom(o.assetTarget, work.assetReply.batch, claim.plan.targetDate)
        && KeptFrom(o.benchmarkReference, work.benchmarkReply.batch, claim.plan.referenceDate)
        && KeptFrom(o.benchmarkTarget, work.benchmarkReply.batch, claim.plan.targetDate)
      else
        o.assetReference.None? && o.assetTarget.None? && o.benchmarkReference.None? && o.benchmarkTarget.None?
  {
    FinishedObservations(claim, work);
    if work.assetReply.Bars? && work.benchmarkReply.Bars? {
      var asset, benchmark := work.assetReply.batch, work.benchmarkReply.batch;
      KeptBar(asset, claim.plan.referenceDate);
      KeptBar(asset, claim.plan.targetDate);
      KeptBar(benchmark, claim.plan.referenceDate);
      KeptBar(benchmark, claim.plan.targetDate);
    }
  }

  lemma KeptBar(batch: BarBatch, date: Day)
    ensures KeptFrom(BarOn(batch.bars, date), batch, date)
  {
    ObservesIffCovered(batch, date);
    BarOnIsFromBatch(batch.bars, date);
  }

  /** What a receipt records of the replies: the error of the first failing one, the hashes and the rows
      of the batches that came before it, and the last clock reading. */
  lemma ReceiptRecordsReplies(claim: Claim, work: Work)
    requires 1 <= claim.number <= 6 && !Decide(claim, work).Abort?
    ensures var receipt := Decide(claim, work).receipt;
      match work.assetReply
      case HttpError(_) => receipt.errorCode == Some(HttpFailure) && receipt.responseHashes == [] && receipt.responseRows == 0
      case TransportError => receipt.errorCode == Some(TransportFailure) && receipt.responseHashes == [] && receipt.responseRows == 0
      case ResponseError => receipt.errorCode == Some(ResponseFailure) && receipt.responseHashes == [] && receipt.responseRows == 0
      case Bars(asset) =>
        match work.benchmarkReply
        case Bars(benchmark) =>
          && receipt.errorCode == (if AllFourBars(claim.plan, asset, benchmark) then None else Some(ObservationMissing))
          && receipt.responseHashes == [asset.responseHash, benchmark.responseHash]
          && receipt.responseRows == |asset.bars| + |benchmark.bars|
        case HttpError(_) =>
          receipt.errorCode == Some(HttpFailure) && receipt.responseHashes == [asset.responseHash] && receipt.responseRows == |asset.bars|
        case TransportError =>
          receipt.errorCode == Some(TransportFailure) && receipt.responseHashes == [asset.responseHash] && receipt.responseRows == |asset.bars|
        case ResponseError =>
          receipt.errorCode == Some(ResponseFailure) && receipt.responseHashes == [asset.responseHash] && receipt.responseRows == |asset.bars|
    ensures var receipt := Decide(claim, work).receipt;
      && receipt.startedAt == work.startedAt
      && receipt.completedAt == if receipt.errorCode.None? then work.observedAt else work.finishedAt
  {
    if work.assetReply.Bars? && work.benchmarkReply.Bars? {
      CompleteIffCovered(claim.plan, work.assetReply.batch, work.benchmarkReply.batch);
    }
  }

  /** The rest a retry asks for, in microseconds: five, ten, twenty, forty and eighty minutes. */
  lemma RetryRests(claim: Claim, work: Work)
    requires 1 <= claim.number && Decide(claim, work).Retry?
    ensures var d := Decide(claim, work);
      1 <= claim.number <= 5
      && d.nextAttemptAt - d.receipt.completedAt == [5, 10, 20, 40, 80][claim.number - 1] * 60_000_000
  {
    DecisionIsSound(claim, work);
    BackoffDoubles(claim.number);
    assert Power2(0) == 1 && Power2(1) == 2 && Power2(2) == 4 && Power2(3) == 8 && Power2(4) == 16;
  }
}
