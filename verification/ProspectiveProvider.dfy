/** The market-data adapter: how a response becomes a batch of bars, and why the bars of one outcome
    never share a content hash. Digests are functions given from outside; of them only this is
    assumed: no collision of two bodies about different listings, nor of two rows of different sessions
    or different responses. */
module ProspectiveProvider {
  import opened Calendar
  import opened Codes
  import opened Outcomes
  import opened Ordering
  import opened ProspectiveContracts
  import opened ProspectiveEvaluator
  import opened ProspectiveStore
  import opened ProspectiveWorker
  import opened ProspectiveProtocol
  import opened ProspectiveGuarantees
  import opened ProspectiveTiming
  import opened ProspectiveProgress

  /** One row of a response. `readable` says that it has exactly the six fields and they parse;
      `text` is whatever else distinguishes its canonical encoding. */
  datatype Row = Row(readable: bool, session: Day, open: real, high: real, low: real, close: real, volume: int, text: nat)
  {
    /** The bar's field constraints and validator. */
    predicate Valid() {
      && readable && 0.0 < low <= open <= high && low <= close <= high && 0 <= volume
    }
  }

  /** A response body that is a JSON object with an object of metadata; symbol, market and currency are
      in upper case, and `text` is whatever else distinguishes the bytes. */
  datatype Body = Body(statusOk: bool, symbol: string, mic: string, currency: string, daily: bool,
                       values: Option<seq<Row>>, text: nat)

  datatype HttpResult = Unreachable | Oversized | Response(statusCode: int, body: Option<Body>)

  datatype Digests = Digests(body: Body -> Hash, row: (Hash, Row) -> Hash)
  {
    ghost predicate Separates() {
      && (forall a, b :: body(a) == body(b) ==> a.symbol == b.symbol && a.mic == b.mic)
      && (forall g, h, a, b :: row(g, a) == row(h, b) ==> g == h && a.session == b.session)
    }
  }

  /** Digests that code a body's listing, and a row's response and session. */
  function SampleDigests(): Digests {
    Digests((body: Body) => Pair(Text(body.symbol), Text(body.mic)), (hash: Hash, row: Row) => Pair(hash, Signed(row.session)))
  }

  /** What is assumed of digests can be met. */
  lemma SomeDigestsSeparate()
    ensures SampleDigests().Separates()
  {
    var digests := SampleDigests();
    forall a, b | digests.body(a) == digests.body(b) ensures a.symbol == b.symbol && a.mic == b.mic {
      PairTellsApart(Text(a.symbol), Text(a.mic), Text(b.symbol), Text(b.mic));
      TextTellsApart(a.symbol, b.symbol);
      TextTellsApart(a.mic, b.mic);
    }
    forall g, h, a, b | digests.row(g, a) == digests.row(h, b) ensures g == h && a.session == b.session {
      PairTellsApart(g, Signed(a.session), h, Signed(b.session));
    }
  }

  const MAXIMUM_VALUES: nat := 10_000

  /** The market codes the provider may answer with for a requested one. */
  predicate AnsweredAs(mic: string, answer: string) {
    || (mic == "XNAS" && answer in {"XNAS", "XNGS", "XNMS", "XNCM"})
    || (mic == "XNYS" && answer == "XNYS")
    || (mic == "ARCX" && answer == "ARCX")
    || (mic == "XASE" && answer == "XASE")
  }

  predicate Identifies(body: Body, request: BarRequest) {
    && body.symbol == request.listing.symbol && AnsweredAs(request.listing.mic, body.mic)
    && body.currency == request.currency && body.daily
  }

  function ParseBar(row: Row, request: BarRequest, responseHash: Hash, at: Instant, digests: Digests): Option<Bar> {
    if !row.Valid() then None
    else Some(Bar(request.listing, row.session, row.close, request.currency, digests.row(responseHash, row), at))
  }

  /** All rows, or nothing if one of them is refused. */
  function ParseBars(rows: seq<Row>, request: BarRequest, responseHash: Hash, at: Instant, digests: Digests):
    (bars: Option<seq<Bar>>)
    ensures bars.Some? ==> |bars.value| == |rows|
    ensures bars.Some? ==> forall i | 0 <= i < |rows| ::
      ParseBar(rows[i], request, responseHash, at, digests) == Some(bars.value[i])
  {
    if rows == [] then Some([])
    else
      match ParseBar(rows[0], request, responseHash, at, digests)
      case None => None
      case Some(bar) =>
        match ParseBars(rows[1..], request, responseHash, at, digests)
        case None => None
        case Some(rest) => Some([bar] + rest)
  }

  function ReadBody(body: Body, request: BarRequest, at: Instant, digests: Digests): Reply {
    if !body.statusOk || !Identifies(body, request) then ResponseError
    else if body.values.None? || |body.values.value| > MAXIMUM_VALUES then ResponseError
    else
      match ParseBars(body.values.value, request, digests.body(body), at, digests)
      case None => ResponseError
      case Some(bars) =>
        var batch := BarBatch(request, bars, digests.body(body), at);
        if batch.Valid() then Bars(batch) else ResponseError
  }

  /** What the adapter makes of one HTTP exchange. */
  function GetDailyBars(request: BarRequest, result: HttpResult, at: Instant, digests: Digests): (reply: Reply)
    ensures reply.Bars? ==> AnswersRequest(reply.batch, request) && reply.batch.retrievedAt == at
  {
    match result
    case Unreachable => TransportError
    case Oversized => ResponseError
    case Response(statusCode, body) =>
      if statusCode != 200 then HttpError(statusCode)
      else if body.None? then ResponseError
      else ReadBody(body.value, request, at, digests)
  }

  // ----- which exchanges bring bars -----

  /** A row of the window whose prices are positive and lie between its low and its high. */
  predicate UsableRow(row: Row, request: BarRequest) {
    && row.readable && request.startDate <= row.session <= request.endDate
    && row.low > 0.0 && row.volume >= 0
    && row.low <= row.open && row.low <= row.close && row.open <= row.high && row.close <= row.high
  }

  predicate Ascends(rows: seq<Row>) { forall i, j | 0 <= i < j < |rows| :: rows[i].session < rows[j].session }

  predicate MeetsRequest(body: Body, request: BarRequest) {
    && body.statusOk && body.daily && body.symbol == request.listing.symbol && body.currency == request.currency
    && (|| (body.mic == request.listing.mic && request.listing.mic in {"XNAS", "XNYS", "ARCX", "XASE"})
        || (request.listing.mic == "XNAS" && body.mic in {"XNGS", "XNMS", "XNCM"}))
    && body.values.Some? && |body.values.value| <= 10_000
    && (forall i | 0 <= i < |body.values.value| :: UsableRow(body.values.value[i], request))
    && Ascends(body.values.value)
  }

  lemma {:induction false} ParsesIffRowsValid(rows: seq<Row>, request: BarRequest, responseHash: Hash, at: Instant, digests: Digests)
    ensures ParseBars(rows, request, responseHash, at, digests).Some? <==> forall i | 0 <= i < |rows| :: rows[i].Valid()
  {
    if rows != [] {
      ParsesIffRowsValid(rows[1..], request, responseHash, at, digests);
      if forall i | 0 <= i < |rows[1..]| :: rows[1..][i].Valid() {
        assert forall i | 1 <= i < |rows| :: rows[i] == rows[1..][i - 1];
      }
    }
  }

  /** The bar is the row's, as the request names it. */
  predicate BarOf(bar: Bar, row: Row, request: BarRequest, responseHash: Hash, at: Instant, digests: Digests) {
    && bar.listing == request.listing && bar.currency == request.currency && bar.retrievedAt == at
    && bar.sessionDate == row.session && bar.close == row.close && bar.contentHash == digests.row(responseHash, row)
  }

  lemma BatchValidIff(rows: seq<Row>, bars: seq<Bar>, request: BarRequest, hash: Hash, at: Instant, digests: Digests)
    requires |bars| == |rows| && forall i | 0 <= i < |rows| :: BarOf(bars[i], rows[i], request, hash, at, digests)
    ensures BarBatch(request, bars, hash, at).Valid()
       <==> && request.Valid() && Ascends(rows)
            && forall i | 0 <= i < |rows| :: request.startDate <= rows[i].session <= request.endDate
  {
    assert forall i | 0 <= i < |rows| :: bars[i].sessionDate == rows[i].session;
  }

  /** Which exchanges bring bars: exactly the answers about the requested listing, currency and market
      whose rows are all usable and ascend; a bar for each row then carries the row's close. Only an
      exchange that did not take place is a transport error, only another status than 200 an HTTP error. */
  lemma BarsIff(request: BarRequest, result: HttpResult, at: Instant, digests: Digests)
    requires request.startDate <= request.endDate <= request.startDate + 90
    ensures var reply := GetDailyBars(request, result, at, digests);
      && (reply.Bars? <==> && result.Response? && result.statusCode == 200 && result.body.Some?
                           && MeetsRequest(result.body.value, request))
      && (reply.TransportError? <==> result.Unreachable?)
      && (reply.HttpError? <==> result.Response? && result.statusCode != 200)
      && (reply.HttpError? ==> reply.statusCode == result.statusCode)
  {
    if result.Response? && result.statusCode == 200 && result.body.Some? {
      var body := result.body.value;
      if body.values.Some? { ReadsRows(body, request, at, digests); }
      AnswersMarket(request.listing.mic, body.mic);
    }
  }

  lemma AnswersMarket(mic: string, answer: string)
    ensures AnsweredAs(mic, answer) <==>
      || (answer == mic && mic in {"XNAS", "XNYS", "ARCX", "XASE"})
      || (mic == "XNAS" && answer in {"XNGS", "XNMS", "XNCM"})
  {
  }

  lemma ReadsRows(body: Body, request: BarRequest, at: Instant, digests: Digests)
    requires body.values.Some? && request.Valid()
    ensures var rows := body.values.value;
      ReadBody(body, request, at, digests).Bars? <==>
        && body.statusOk && Identifies(body, request) && |rows| <= 10_000
        && (forall i | 0 <= i < |rows| :: UsableRow(rows[i], request)) && Ascends(rows)
  {
    var rows := body.values.value;
    ParsesIffRowsValid(rows, request, digests.body(body), at, digests);
    var parsed := ParseBars(rows, request, digests.body(body), at, digests);
    if parsed.Some? {
      forall i | 0 <= i < |rows| ensures BarOf(parsed.value[i], rows[i], request, digests.body(body), at, digests) {
        assert ParseBar(rows[i], request, digests.body(body), at, digests) == Some(parsed.value[i]);
      }
      BatchValidIff(rows, parsed.value, request, digests.body(body), at, digests);
      assert forall i | 0 <= i < |rows| :: rows[i].Valid();
      assert forall i | 0 <= i < |rows| ::
        UsableRow(rows[i], request) <==> request.startDate <= rows[i].session <= request.endDate;
    } else {
      var i :| 0 <= i < |rows| && !rows[i].Valid();
      assert !UsableRow(rows[i], request);
    }
  }

  /** A batch has one bar for each row of the answer, with the row's session and close. */
  lemma BarsAreRows(request: BarRequest, result: HttpResult, at: Instant, digests: Digests)
    requires GetDailyBars(request, result, at, digests).Bars?
    ensures result.Response? && result.body.Some? && result.body.value.values.Some?
    ensures var batch, rows := GetDailyBars(request, result, at, digests).batch, result.body.value.values.value;
      && batch.request == request && batch.retrievedAt == at && batch.responseHash == digests.body(result.body.value)
      && |batch.bars| == |rows|
      && forall i | 0 <= i < |rows| ::
           BarOf(batch.bars[i], rows[i], request, batch.responseHash, at, digests)
  {
    var body := result.body.value;
    var rows := body.values.value;
    var batch := GetDailyBars(request, result, at, digests).batch;
    forall i | 0 <= i < |rows| ensures BarOf(batch.bars[i], rows[i], request, batch.responseHash, at, digests) {
      assert ParseBar(rows[i], request, digests.body(body), at, digests) == Some(batch.bars[i]);
    }
  }

  /** The reply comes from some HTTP exchange. */
  ghost predicate Provided(request: BarRequest, reply: Reply, digests: Digests) {
    exists result, at :: reply == GetDailyBars(request, result, at, digests)
  }

  ghost predicate FromProvider(claim: Claim, work: Work, digests: Digests) {
    && Provided(AssetRequest(claim.plan), work.assetReply, digests)
    && Provided(BenchmarkRequest(claim.plan), work.benchmarkReply, digests)
  }

  // ----- content hashes -----

  /** The bar was parsed from a row of the response. */
  ghost predicate ParsedFrom(bar: Bar, responseHash: Hash, digests: Digests) {
    exists row: Row :: row.session == bar.sessionDate && bar.contentHash == digests.row(responseHash, row)
  }

  lemma BatchIsParsed(request: BarRequest, result: HttpResult, at: Instant, digests: Digests)
    requires GetDailyBars(request, result, at, digests).Bars?
    ensures var batch := GetDailyBars(request, result, at, digests).batch;
      && result.Response? && result.body.Some? && Identifies(result.body.value, request)
      && batch.responseHash == digests.body(result.body.value)
      && forall bar | bar in batch.bars :: ParsedFrom(bar, batch.responseHash, digests)
  {
    var body := result.body.value;
    var batch := GetDailyBars(request, result, at, digests).batch;
    forall bar | bar in batch.bars ensures ParsedFrom(bar, batch.responseHash, digests) {
      var i :| 0 <= i < |batch.bars| && batch.bars[i] == bar;
      assert ParseBar(body.values.value[i], request, digests.body(body), at, digests) == Some(bar);
    }
  }

  /** The accepted market codes do not overlap, so one answer identifies the requested market. */
  lemma AnswerIdentifiesMarket(a: string, b: string, answer: string)
    requires AnsweredAs(a, answer) && AnsweredAs(b, answer)
    ensures a == b
  {
  }

  /** Bars of different sessions, or of different responses, have different content hashes. */
  lemma HashesDiffer(a: Bar, g: Hash, b: Bar, h: Hash, digests: Digests)
    requires digests.Separates() && ParsedFrom(a, g, digests) && ParsedFrom(b, h, digests)
    requires g != h || a.sessionDate != b.sessionDate
    ensures a.contentHash != b.contentHash
  {
  }

  /** Whatever the provider answers, the bars a worker keeps for one plan have distinct content hashes. */
  lemma ProviderBarsDiffer(plan: Plan, asset: HttpResult, assetAt: Instant, benchmark: HttpResult, benchmarkAt: Instant,
                           digests: Digests)
    requires plan.Valid() && digests.Separates()
    requires GetDailyBars(AssetRequest(plan), asset, assetAt, digests).Bars?
    requires GetDailyBars(BenchmarkRequest(plan), benchmark, benchmarkAt, digests).Bars?
    ensures var o := Observe(plan, GetDailyBars(AssetRequest(plan), asset, assetAt, digests).batch,
                             GetDailyBars(BenchmarkRequest(plan), benchmark, benchmarkAt, digests).batch);
      NoDuplicates(HashesOf(Present(o.Slots())))
  {
    var a := GetDailyBars(AssetRequest(plan), asset, assetAt, digests).batch;
    var b := GetDailyBars(BenchmarkRequest(plan), benchmark, benchmarkAt, digests).batch;
    BatchIsParsed(AssetRequest(plan), asset, assetAt, digests);
    BatchIsParsed(BenchmarkRequest(plan), benchmark, benchmarkAt, digests);
    if a.responseHash == b.responseHash {
      AnswerIdentifiesMarket(plan.asset.mic, plan.benchmark.mic, asset.body.value.mic);
      assert false;
    }
    ObservedSlotsDiffer(plan, a, b, digests);
    DifferentSlotsHaveNoDuplicates(Observe(plan, a, b).Slots());
  }

  lemma ObservedSlotsDiffer(plan: Plan, a: BarBatch, b: BarBatch, digests: Digests)
    requires digests.Separates() && a.responseHash != b.responseHash && plan.referenceDate != plan.targetDate
    requires forall bar | bar in a.bars :: ParsedFrom(bar, a.responseHash, digests)
    requires forall bar | bar in b.bars :: ParsedFrom(bar, b.responseHash, digests)
    ensures SlotsDiffer(Observe(plan, a, b).Slots())
  {
    BarOnIsFromBatch(a.bars, plan.referenceDate);
    BarOnIsFromBatch(a.bars, plan.targetDate);
    BarOnIsFromBatch(b.bars, plan.referenceDate);
    BarOnIsFromBatch(b.bars, plan.targetDate);
    var slots := Observe(plan, a, b).Slots();
    var responses := [a.responseHash, a.responseHash, b.responseHash, b.responseHash];
    forall i, j | 0 <= i < j < 4 && slots[i].Some? && slots[j].Some?
      ensures slots[i].value.contentHash != slots[j].value.contentHash
    {
      HashesDiffer(slots[i].value, responses[i], slots[j].value, responses[j], digests);
    }
  }

  lemma ProvidedBarsDiffer(plan: Plan, asset: Reply, benchmark: Reply, digests: Digests)
    requires plan.Valid() && digests.Separates() && asset.Bars? && benchmark.Bars?
    requires Provided(AssetRequest(plan), asset, digests) && Provided(BenchmarkRequest(plan), benchmark, digests)
    ensures NoDuplicates(HashesOf(Present(Observe(plan, asset.batch, benchmark.batch).Slots())))
  {
    var a, assetAt :| asset == GetDailyBars(AssetRequest(plan), a, assetAt, digests);
    var b, benchmarkAt :| benchmark == GetDailyBars(BenchmarkRequest(plan), b, benchmarkAt, digests);
    ProviderBarsDiffer(plan, a, assetAt, b, benchmarkAt, digests);
  }

  lemma ProviderAnswers(claim: Claim, work: Work, digests: Digests)
    requires FromProvider(claim, work, digests)
    ensures Answered(claim, work)
  {
  }

  /** Whatever a finished claim keeps of this provider's answers has distinct content hashes. */
  lemma ProviderObservationsDiffer(claim: Claim, work: Work, digests: Digests)
    requires 1 <= claim.number && claim.plan.Valid() && digests.Separates()
    requires FromProvider(claim, work, digests) && Decide(claim, work).Finish?
    ensures NoDuplicates(HashesOf(Present(Decide(claim, work).observations.Slots())))
  {
    FinishedObservations(claim, work);
    if work.assetReply.Bars? && work.benchmarkReply.Bars? {
      ProvidedBarsDiffer(claim.plan, work.assetReply, work.benchmarkReply, digests);
    } else {
      assert Present(NO_OBSERVATIONS.Slots()) == [];
    }
  }

  /** So with this provider the outcome of an unraced attempt that ends in time is always accepted:
      whatever the provider answers and however many attempts came before. */
  lemma ProviderOutcomeIsAccepted(s: System, claim: Claim, work: Work, digests: Digests)
    requires Inv(s) && IdInv(s) && digests.Separates()
    requires Working(s, claim, work) && Fence(s.tables, claim.planId, claim.number)
    requires FromProvider(claim, work, digests) && EndsInTime(s.tables, claim, work) && Decide(claim, work).Finish?
    ensures Submitted(s, claim, work).Ok?
  {
    assert claim.plan.Valid() by { assert ClaimInv(s.tables, claim) && EntryInv(s.tables, claim.planId); }
    ProviderAnswers(claim, work, digests);
    ProviderObservationsDiffer(claim, work, digests);
    TimelyOutcomeIff(s, claim, work);
  }
}
