# Verification models for the market-intelligence service

Dafny models of the service's stateful and arithmetic cores, with the properties those cores are relied on
for. `dafny verify dfyconfig.toml` checks everything.

| file | what it models |
|---|---|
| `ProspectiveContracts`, `ProspectiveStore`, `ProspectiveWorker` | the records and validators of the prospective-outcome job protocol, its store as an object, and one worker's decisions |
| `ProspectiveProtocol`, `ProspectiveGuarantees`, `ProspectiveTiming` | the protocol over all interleavings: workers that crash, are slow, hold an expired claim or have their clock set back; safety over whole runs, and what depends on the clocks |
| `ProspectiveProvider`, `ProspectiveProgress`, `ProspectiveRuns` | the market-data adapter's batches; what an unraced worker achieves and which jobs can be finished; the worker object as a piece of a protocol run |
| `WilsonInterval`, `OutcomeScience`, `ScienceReport` | the three Wilson intervals; strata, report, population and snapshot of the outcome science, and what their numbers count |
| `RateLimiters`, `DiscordDelivery` | the rolling-window limiter with its pruned deque, the webhook limiter, at-most-once delivery |
| `PredictionLedger` | the append-only hash chain |
| `Indicators`, `IndicatorMeaning` | moving averages, RSI, MACD, true range, beta, drawdown, range position |
| `FilingChange`, `FilingReceipts` | first differences, centred excerpts, comparison and selection of changed sections, and what a receipt states of the two filings |
| `MasterIndex` | grouping of a daily index by accession, shared by the financing and the accounting source |
| `Contradictions`, `Convergence`, `ContradictionVerdicts`, `ConvergenceVerdicts` | deterministic claim checks, the service that persists them, the three producers, and the verdicts from fact values or filing fields to the receipt |
| `EventNovelty`, `EventVerdicts` | novelty of a disclosure against its priors |
| `Calendar`, `Codes`, `Ordering`, `RealArithmetic` | instants and dates, codes of values as numbers, sorting, permutation and ordered-field facts the others use |

Conventions. Each store transaction is one atomic step: an error leaves the tables as they were. Instants are
whole microseconds, dates are day numbers, monotonic clock readings and decimals are reals. Hashes and derived
identifiers are ideal: equal exactly for equal inputs, and identifiers drawn at random are parameters that
have not been issued before. Where a digest or an order of identifiers is a function given from outside, an
example meets what is assumed of it (`SomeDigestsSeparate`, `IdealDigestQualifies`, `SomeRankIdentifies`,
`SomeKindsApart`). A square root is a parameter that is non-negative and squares to its argument. The
science's rate-and-interval function is a parameter too, so its results hold for any such function; the code's
own is `WilsonEstimate`. Error messages are enumerations, and optional or failing results are `Option` and
`Result` values. Record validators are predicates, and building a record is a check that can fail.

Where the code does less, or something else, than its documentation suggests, the model follows the code:

* Workers read a wall clock that may be set back. Counting, fencing and the rest before each claim hold
  whatever it shows. The attempts themselves are spaced by the backoff exactly when every worker that committed
  one started rested (`LedgerIsSpacedIff`; broken in `SetBackClockBreaksSpacing`, and by how much a clock may be
  set back in `SetBackToleranceIff`). Later claims respect the target close and every earlier result exactly
  when every committed failure ended late enough (`LaterClaimsRespectBackoffIff`, `RetryKeepsTwelveHoursIff`;
  broken in `SetBackClockBreaksTwelveHours`).
* The store takes any valid plan, and one whose sessions span more than 90 days can never finish, because
  every bar request for it is refused (`UnfinishedCanFinishIff`, `WidePlanIsStranded`). The session planner
  makes no such plan (`PlannedJobCanComplete`).
* A one-sided filing excerpt is cut at 600 characters without trimming, while its record strips its texts; a
  blank just before the cut makes the comparison fail (`OneSidedExcerptIff`, `BlankAtTheCutFails`).
* An XBRL pair is requested for a period that may end after the cutoff, and the service then refuses it
  (`XbrlProducerAgrees`, `EarlyPeriodIsRefused`); the same holds for the dates of ownership filings
  (`SectionSixteenAgrees`, `EarlyFilingIsRefused`).
* Numeric facts of an event are compared as written, so a numerically unchanged redisclosure is a material
  update exactly when an amount is written to another number of decimal places (`RestatementIsRecapIff`,
  `TwentyBillionAgain`).

The outcome's validator refuses repeated content hashes (`UnracedOutcomeIff`); with the market-data adapter
that never happens as long as its digests do not collide (`ProviderBarsDiffer`, `SomeDigestsSeparate`).

## Model

| member | source | states |
|---|---|---|
| ProspectiveEvaluator.EvaluateSucceedsIff | src/kalki_market_intelligence/prospective/engine.py:20-84 | evaluation succeeds exactly for a valid plan, times in order, bars that fit their slots, were retrieved in time and have distinct content hashes, and attempts that pass the outcome's attempt checks |
| ProspectiveEvaluator.EvaluateAcceptsIff | src/kalki_market_intelligence/prospective/contracts.py:241-355 | the whole condition of an evaluation in the fields of plan, bars and attempts: what the guards and the validator come to when they run one after the other |
| ProspectiveEvaluator.ReturnsOfCloses | src/kalki_market_intelligence/prospective/engine.py:62-84 | an evaluation has returns exactly when all four bars are there; each return times its reference close is the rise of the close, and the relative return is positive exactly when the asset rose by the larger factor |
| ProspectiveEvaluator.CompletedReturns | src/kalki_market_intelligence/prospective/contracts.py:316-342 | the same of every valid completed outcome |
| ProspectiveEvaluator.LimitationNamesMissing | src/kalki_market_intelligence/prospective/engine.py:135-145 | the one limitation of an unavailable outcome names exactly the missing bars |
| ProspectiveEvaluator.HashesAscend | src/kalki_market_intelligence/prospective/contracts.py:348-355 | an accepted outcome lists the content hashes of its bars, strictly ascending |
| ProspectiveStore.OutcomeStore.EnrollPlan | src/kalki_market_intelligence/prospective/store.py:33-94 | the new tables; an already planned publication and horizon changes nothing |
| ProspectiveStore.OutcomeStore.ClaimDue | src/kalki_market_intelligence/prospective/store.py:125-159 | claims the first due unlocked job in claim order, and returns nothing only when every due job is locked |
| ProspectiveStore.OutcomeStore.Retry | src/kalki_market_intelligence/prospective/store.py:161-207 | the new tables under the `attempts = n - 1` fence, or no change at all |
| ProspectiveStore.OutcomeStore.Attempts | src/kalki_market_intelligence/prospective/store.py:209-218 | the plan's rows in number order |
| ProspectiveStore.OutcomeStore.Complete | src/kalki_market_intelligence/prospective/store.py:220-312 | receipt, outcome and terminal status together, or no change at all |
| ProspectiveStore.OutcomeStore.Requeue | src/kalki_market_intelligence/prospective/store.py:314-328 | exactly the expired claims go back to waiting with their counter unchanged; their number is returned |
| ProspectiveWorker.DecisionIsSound | src/kalki_market_intelligence/prospective/worker.py:124-236 | whatever provider and clock do, a receipt that comes to be is a valid record of its claim, with the status its observations and the next attempt time its number call for |
| ProspectiveWorker.RetryIff | src/kalki_market_intelligence/prospective/worker.py:124-221 | a claim is tried again exactly up to the fifth attempt and when the first failing reply is a transport error, an unusable response or HTTP 429, 500, 502, 503 or 504, or when both replies have bars and one of the four is missing |
| ProspectiveWorker.TerminalIff | src/kalki_market_intelligence/prospective/worker.py:126-236 | a claim ends its job as a failure exactly on any other HTTP status, or on any failure of the sixth attempt |
| ProspectiveWorker.SuccessIff | src/kalki_market_intelligence/prospective/worker.py:143-184 | a claim succeeds exactly when its two replies have all four bars |
| ProspectiveWorker.KeptBars | src/kalki_market_intelligence/prospective/worker.py:268-282 | a finished claim keeps each of the four bars that its batches have, from the right batch and session, and none after a failed reply |
| ProspectiveWorker.ReceiptRecordsReplies | src/kalki_market_intelligence/prospective/worker.py:126-207 | a receipt records the error of the first failing reply, the hashes and row counts of the batches before it, and the right clock readings |
| ProspectiveWorker.RetryRests | src/kalki_market_intelligence/prospective/worker.py:213-221 | a retry asks for 5, 10, 20, 40 or 80 minutes of rest after attempts 1 to 5 |
| ProspectiveWorker.AbortIff | src/kalki_market_intelligence/prospective/contracts.py:208-214 | a claim ends without a result exactly when its sessions do not fit one request or the worker's clock went back behind its own start |
| ProspectiveWorker.BatchIsSmall | src/kalki_market_intelligence/prospective/contracts.py:163-186 | a batch that answers a request has no more bars than the request has days |
| ProspectiveWorker.BackoffDoubles | src/kalki_market_intelligence/prospective/worker.py:213-221 | the delay after failure k is 300 * 2^(k-1) seconds; the one-day cap is never reached |
| ProspectiveProtocol.StepKeepsInv | src/kalki_market_intelligence/prospective/store.py:125-328 | the protocol invariant survives every step, whoever takes it, however late, and whatever its clock shows |
| ProspectiveProtocol.Reachable | src/kalki_market_intelligence/prospective/store.py:125-328 | every state any interleaving reaches satisfies the invariant |
| ProspectiveProtocol.FenceMeansFreshRead | src/kalki_market_intelligence/prospective/store.py:209-218 | a commit that passes the fence read exactly the ledger it commits on top of, although the read was outside its transaction |
| ProspectiveProtocol.LedgerIsOrdered | src/kalki_market_intelligence/prospective/store.py:209-218 | insertion order and number order of a ledger agree |
| ProspectiveGuarantees.CounterIsLedgerLength | src/kalki_market_intelligence/prospective/store.py:161-207 | on every run `attempts` is the ledger length and the rows are numbered 1, 2, 3, ... |
| ProspectiveGuarantees.OneResultPerNumber | src/kalki_market_intelligence/prospective/store.py:190-207 | at most one result per plan and attempt number, however many holders the number had |
| ProspectiveGuarantees.OneOutcomePerPlan | src/kalki_market_intelligence/prospective/store.py:296-312 | at most one outcome per plan, and one exactly when the job is terminal |
| ProspectiveGuarantees.OutcomeEmbedsLedger | src/kalki_market_intelligence/prospective/worker.py:176-184 | every stored outcome is valid and embeds the plan's whole persisted ledger in order |
| ProspectiveGuarantees.GuardsNeverBlock | src/kalki_market_intelligence/prospective/store.py:132-153 | an unfinished job has at most 5 attempts, so the `attempts < 6` guards never block; claimed numbers are 1 to 6 |
| ProspectiveGuarantees.CounterMovesWithResults | src/kalki_market_intelligence/prospective/store.py:169-207 | every step leaves a job's counter alone or commits one result for it and adds one |
| ProspectiveGuarantees.TerminalIsAbsorbing | src/kalki_market_intelligence/prospective/store.py:296-328 | a finished job and its ledger never change again |
| ProspectiveGuarantees.ClaimsRespectBackoff | src/kalki_market_intelligence/prospective/store.py:82-92 | with any clocks: no job is claimable before 12 hours after its target close while it has no result, nor before 300 * 2^(k-1) seconds after its latest result k, even across requeues |
| ProspectiveGuarantees.ClaimsWereRested | src/kalki_market_intelligence/prospective/store.py:132-159 | with any clocks: the same held of every claim that was ever handed out |
| ProspectiveTiming.LaterClaimsRespectBackoffIff | src/kalki_market_intelligence/prospective/store.py:82-92 | throughout a run, with any clocks: the job is never claimable before 12 hours after its target close or before the rest after any earlier result, exactly when every worker that committed a retryable failure asked for a next attempt no earlier than that |
| ProspectiveTiming.LaterClaimsRespectBackoff | src/kalki_market_intelligence/prospective/store.py:132-140 | that is so in particular when the workers started rested |
| ProspectiveTiming.StepSpacedIff | src/kalki_market_intelligence/prospective/store.py:161-207 | for both kinds of result: a step leaves a plan's attempts spaced exactly when they were and the worker whose result it commits, if any, read its start at or after the rest its job was waiting for |
| ProspectiveTiming.LedgerIsSpacedIff | src/kalki_market_intelligence/prospective/worker.py:213-221 | over any run, races and clocks included: a plan's persisted attempts are spaced by the backoff exactly when every worker that committed one started rested |
| ProspectiveTiming.OrderedStartsAreRested | src/kalki_market_intelligence/prospective/worker.py:124-125 | workers that never start before their own claim always start rested |
| ProspectiveTiming.SetBackToleranceIff | src/kalki_market_intelligence/prospective/worker.py:124-125 | every retry that starts at most d before its claim keeps the spacing exactly when the claim had rested at least d longer than it had to |
| ProspectiveTiming.RetryKeepsTwelveHoursIff | src/kalki_market_intelligence/prospective/store.py:190-207 | a committed retry keeps the job from being claimed before 12 hours after the target close exactly when the worker's clock was late enough when it finished |
| ProspectiveTiming.TwelveHoursCanBreak | src/kalki_market_intelligence/prospective/store.py:82-92 | a run on a concrete plan whose job is due before twelve hours after its target close |
| ProspectiveTiming.SetBackClockBreaksSpacing | src/kalki_market_intelligence/prospective/worker.py:124-125 | on every plan, a five-event run in which a set-back clock lets the second attempt start before the first one ended |
| ProspectiveTiming.SpacingCanBreak | src/kalki_market_intelligence/prospective/worker.py:124-125 | such a run on a concrete plan |
| ProspectiveTiming.SetBackClockBreaksTwelveHours | src/kalki_market_intelligence/prospective/worker.py:124-125 | on every plan, a clock set back after the claim makes the job claimable five minutes after its target close |
| ProspectiveProgress.UnracedOutcomeIff | src/kalki_market_intelligence/prospective/contracts.py:241-355 | with any clocks: an unraced worker's outcome is accepted exactly when its attempt ends after the target close, every retrieval and every earlier attempt, and the content hashes are distinct |
| ProspectiveProgress.TimelyOutcomeIff | src/kalki_market_intelligence/prospective/contracts.py:241-355 | for an attempt that ends in time, exactly when the content hashes are distinct |
| ProspectiveProgress.OrderedOutcomeIff | src/kalki_market_intelligence/prospective/contracts.py:241-355 | clocks that never ran backwards, after attempts that started rested, are in time |
| ProspectiveProvider.GetDailyBars | src/kalki_market_intelligence/prospective/provider.py:227-288 | whatever the exchange brings, a batch that is returned answers the request and passes its validator |
| ProspectiveProvider.BarsIff | src/kalki_market_intelligence/prospective/provider.py:227-288 | an exchange brings bars exactly when its answer is about the requested listing, market, currency and interval and all its rows are usable, inside the window and ascending; which exchanges are transport, HTTP or response errors |
| ProspectiveProvider.BarsAreRows | src/kalki_market_intelligence/prospective/provider.py:305-344 | a batch has one bar per row of the answer, with its session and close, the requested listing and the row digest |
| ProspectiveProvider.ProviderBarsDiffer | src/kalki_market_intelligence/prospective/provider.py:305-344 | the bars kept for one plan have distinct content hashes, for any digests that collide neither on bodies about different listings nor on rows of different sessions or responses |
| ProspectiveProvider.SomeDigestsSeparate | src/kalki_market_intelligence/prospective/provider.py:323-324 | such digests exist |
| ProspectiveProvider.ProviderOutcomeIsAccepted | src/kalki_market_intelligence/prospective/worker.py:176-236 | with this adapter the outcome of an unraced attempt that ends in time is always accepted |
| ProspectiveProgress.UnracedRetryIsStored | src/kalki_market_intelligence/prospective/worker.py:212-221 | an unraced retry is never refused |
| ProspectiveProgress.UnracedOutcomeIsStored | src/kalki_market_intelligence/prospective/worker.py:176-236 | an accepted unraced outcome is always stored, and is completed exactly when all four bars are present |
| ProspectiveProgress.UnfinishedCanFinishIff | src/kalki_market_intelligence/prospective/store.py:125-328 | from every reachable state an unfinished job can still be completed exactly when its sessions span at most 90 days; a wider one can never reach any terminal state |
| ProspectiveProgress.PlannedJobCanComplete | src/kalki_market_intelligence/prospective/calendar.py:41-52 | when all plans come from the session planner, every unfinished job can still be completed |
| ProspectiveProgress.WidePlanIsStranded | src/kalki_market_intelligence/prospective/store.py:33-94 | a plan of 91 days that the store was handed is unfinished after every run |
| ProspectiveRuns.ProcessIsARun | src/kalki_market_intelligence/prospective/worker.py:124-236 | processing a claim is what the protocol's own events do |
| ProspectiveRuns.ErrorMeansNoResult | src/kalki_market_intelligence/prospective/worker.py:124-236 | processing either raises and changes no table, or passes the fence and adds its one numbered result |
| ProspectiveRuns.UnracedProcessingSucceeds | src/kalki_market_intelligence/prospective/worker.py:124-236 | with the adapter, an unraced attempt that ends in time on a claim that fits one request never raises, whatever the provider answers |
| ProspectiveRuns.SixResultsFinish | src/kalki_market_intelligence/prospective/worker.py:186-236 | from any run, with anything happening in between: an unfinished job of at most 90 days that is claimed and processed unraced and in time `6 - attempts` more times is finished |
| ProspectiveRuns.SixResultsFinishPlanned | src/kalki_market_intelligence/prospective/calendar.py:41-52 | so is every unfinished job when all plans come from the session planner |
| ProspectiveRuns.ProspectiveOutcomeWorker.Process | src/kalki_market_intelligence/prospective/worker.py:124-184 | store and error are those of the processed claim, for every provider behaviour |
| ProspectiveRuns.ProspectiveOutcomeWorker.FinishFailure | src/kalki_market_intelligence/prospective/worker.py:186-236 | a failure is retried or made terminal as decided; the error says what refused it |
| ProspectiveRuns.ProspectiveOutcomeWorker.RunOnce | src/kalki_market_intelligence/prospective/worker.py:87-98 | one pass is exactly the run of requeue, enrollments and the claims it handled; the two counts are the new plans and the claims processed without error, and only the last claim can raise |
| WilsonInterval.IntervalIsScoreTest | src/kalki_market_intelligence/prospective/science.py:495-511 | the interval is exactly the set of rates the score test does not reject |
| WilsonInterval.ScienceIntervalIsCountTest | src/kalki_market_intelligence/prospective/science.py:495-511 | from the counts alone: there is an interval exactly with observations, and x is inside exactly when (n x - f)^2 <= z^2 n x (1 - x) for z = 1.959963984540054 |
| WilsonInterval.BoundsAndRate | src/kalki_market_intelligence/prospective/science.py:495-511 | 0 <= lower <= f/n <= upper <= 1 |
| WilsonInterval.ClampsChangeNothing | src/kalki_market_intelligence/backtesting/engine.py:33-47 | the clamped and unclamped forms agree |
| WilsonInterval.Mirror | src/kalki_market_intelligence/prospective/science.py:495-511 | the intervals of f and n - f mirror each other in 1/2 |
| WilsonInterval.BoundsMonotone | src/kalki_market_intelligence/prospective/science.py:495-511 | both bounds are monotone in the favourable count |
| WilsonInterval.WiderWithLargerZ | src/kalki_market_intelligence/predictions/calibration.py:36-46 | a larger z gives a wider interval, so the calibration interval contains the science one |
| WilsonInterval.CalibrationIsValid | src/kalki_market_intelligence/predictions/calibration.py:22-48 | a calibration report is valid and its clamps change nothing; it fails exactly on counts out of order |
| WilsonInterval.CalibrationStates | src/kalki_market_intelligence/predictions/calibration.py:22-48 | a calibration report carries its counts, a rate that times the sample gives the positives, and is descriptive exactly from 30 on |
| WilsonInterval.CalibrationIntervalIsCountTest | src/kalki_market_intelligence/predictions/calibration.py:36-46 | its interval is that of the test on the counts at z = 1.96 |
| OutcomeScience.ReportBuiltIffAccepted | src/kalki_market_intelligence/prospective/science.py:523-712 | building fails exactly when an admission guard refuses the cases; stratum and report validators never reject |
| OutcomeScience.TotalsReconcile | src/kalki_market_intelligence/prospective/science.py:406-447 | the strata of an origin add up to that origin's own counts, field by field |
| OutcomeScience.StrataPartitionCases | src/kalki_market_intelligence/prospective/science.py:565-587 | every case has its one stratum, no stratum is empty, together they hold all cases |
| OutcomeScience.ReportIgnoresOrder | src/kalki_market_intelligence/prospective/science.py:514-589 | the report, errors included, is the same for every arrangement of the cases |
| OutcomeScience.ReconstructedNeverAffectsForward | src/kalki_market_intelligence/prospective/science.py:589-640 | forward strata, counts and disposition are those of the report on the forward cases alone |
| OutcomeScience.WilsonBracketsRates | src/kalki_market_intelligence/prospective/science.py:495-511 | the code's own estimate puts the rate of any completed cases inside its interval, inside [0, 1] |
| OutcomeScience.ForwardStatisticsBracket | src/kalki_market_intelligence/prospective/science.py:600-607 | with such an estimate a forward stratum with completed cases has a rate inside its interval; any other stratum has neither |
| OutcomeScience.InconclusiveIff | src/kalki_market_intelligence/prospective/science.py:450-458 | the report is inconclusive exactly when one single forward stratum has 30 completed cases |
| OutcomeScience.PowerSampleIs194 | src/kalki_market_intelligence/prospective/science.py:480-492 | the registered design's sample requirement rounds up to 194 |
| OutcomeScience.Group | src/kalki_market_intelligence/prospective/science.py:565-586 | the grouping dictionary holds each key's cases in order |
| OutcomeScience.BuildStrata | src/kalki_market_intelligence/prospective/science.py:588-649 | the loop over the sorted keys builds the specified strata |
| OutcomeScience.Build | src/kalki_market_intelligence/prospective/science.py:523-712 | the building loops return the specified report or error |
| ScienceReport.ReportCountsCases | src/kalki_market_intelligence/prospective/science.py:565-712 | every number of a built report counts cases: all, those of one origin, or those with all eight dimensions of a stratum; favorable exactly where the asset closes rose by the larger factor, adverse where a completed case did not |
| ScienceReport.StrataConclude | src/kalki_market_intelligence/prospective/science.py:596-617 | what every stratum of a built report concludes from its counts: its statistics, power from 194 on, assessment from 30 on, nothing for reconstructed ones |
| ScienceReport.ReportBuiltIff | src/kalki_market_intelligence/prospective/science.py:533-563 | a report is built exactly from the lock instant on, from cases with own outcomes and plans, all appended by then, enrolled after the lock if forward, and measured against SPY on ARCX |
| ScienceReport.KeyLeqIff | src/kalki_market_intelligence/prospective/science.py:586 | strata are listed by horizon 1, 20, 5, then forward before reconstructed, then by schema, ruleset, class, model, digest and prompt |
| SciencePopulation.EnrollIff | src/kalki_market_intelligence/prospective/science_store.py:78-121 | the loop succeeds exactly when every row is sound and no plan comes twice |
| SciencePopulation.PopulationIff | src/kalki_market_intelligence/prospective/science_store.py:70-129 | plans = terminal + not due + overdue, each counted by its own condition; exactly when a population is built |
| SciencePopulation.Collect | src/kalki_market_intelligence/prospective/science_store.py:70-129 | the counting loop returns the specified population or error |
| PopulationReport.PopulationCountsRows | src/kalki_market_intelligence/prospective/science_store.py:70-129 | which populations are built, and each of their numbers as a count of rows, in the fields of the rows alone |
| PopulationReport.PopulationCasesAreRows | src/kalki_market_intelligence/prospective/science_store.py:94-121 | the cases are exactly those of the terminal rows, with the lineage of their publications field by field |
| SciencePopulation.SnapshotIff | src/kalki_market_intelligence/prospective/science.py:715-727 | a valid population discharges the report's checks on duplicates and future outcomes; exactly what can still refuse a snapshot |
| ProviderLimiter.ProviderRateLimiter.Wait | src/kalki_market_intelligence/prospective/provider.py:173-190 | terminates, appends one grant and keeps the window invariant |
| ProviderLimiter.ProviderRateLimiter.PruneOld | src/kalki_market_intelligence/prospective/provider.py:176-178 | the deque becomes exactly the in-window suffix of the grant history |
| ProviderLimiter.ReachableHistoryIsBounded | src/kalki_market_intelligence/prospective/provider.py:158-190 | at most 800 grants in any half-open day, at most 8 in any half-open minute, 7.5 seconds between any two |
| GrantHistory.WindowHoldsAtMost | src/kalki_market_intelligence/prospective/provider.py:176-190 | a history spread by a width over `count` places has at most `count` grants in any window of that width |
| WebhookLimiter.DiscordRateLimiter.Wait | src/kalki_market_intelligence/notifications/discord.py:134-141 | one request is let through, no earlier than every spacing and deferral allows |
| WebhookLimiter.DiscordRateLimiter.Defer | src/kalki_market_intelligence/notifications/discord.py:143-150 | a deferral outside 0 to 300 seconds is refused; an accepted one moves the next slot |
| WebhookLimiter.DiscordRateLimiter.constructor | src/kalki_market_intelligence/notifications/discord.py:117-132 | the interval times the rate is one second |
| WebhookLimiter.AtMostTwoPerSecond | src/kalki_market_intelligence/notifications/discord.py:124-141 | whatever the rate: at most two requests in any half-open second |
| DiscordDelivery.DiscordNotifier.SendNotification | src/kalki_market_intelligence/notifications/discord.py:231-267 | the new records and suppressed keys; as many posts as grants of the limiter |
| DiscordDelivery.DiscordNotifier.Deliver | src/kalki_market_intelligence/notifications/discord.py:269-359 | the retry loop ends as specified; its final assertion is unreachable |
| DiscordDelivery.DiscordNotifier.HandleReply | src/kalki_market_intelligence/notifications/discord.py:292-366 | one reply either settles the delivery as specified or is an accepted deferral: caller and limiter then wait as long as the server asked |
| DiscordDelivery.DiscordNotifier.ApplyRateLimitHeaders | src/kalki_market_intelligence/notifications/discord.py:410-415 | a used-up quota defers the next request for as long as the server asks, and never brings it forward |
| DiscordDelivery.OnlyTheLastPostMayArrive | src/kalki_market_intelligence/notifications/discord.py:269-359 | every post but the last was explicitly refused; the last may have arrived exactly when the key is suppressed |
| DiscordDelivery.AtMostOnce | src/kalki_market_intelligence/notifications/discord.py:231-379 | over any run at most one post of a key may have arrived and at most one record says so |
| DiscordDelivery.LaterSendsAreDuplicates | src/kalki_market_intelligence/notifications/discord.py:247-259 | later sends of a suppressed key post nothing and are recorded as duplicates |
| DiscordDelivery.SendIsRecorded | src/kalki_market_intelligence/notifications/discord.py:381-408 | posts equal recorded attempts, at most three; a record is written exactly when the clock did not run backwards |
| DiscordDelivery.EveryRecordIsValid | src/kalki_market_intelligence/notifications/contracts.py:67-88 | every record of any run satisfies its predicate |
| DiscordDelivery.SendStates | src/kalki_market_intelligence/notifications/discord.py:231-379 | reply by reply: a send posts as long as the server asks for another attempt, up to the maximum; nothing when disabled or suppressed; the last reply decides whether the key is suppressed |
| DiscordDelivery.SendRecords | src/kalki_market_intelligence/notifications/discord.py:231-408 | the record of a send carries the request and the verdict on the last reply; it is dropped exactly when the clock ran backwards |
| DiscordDelivery.WaitsAsAsked | src/kalki_market_intelligence/notifications/discord.py:435-460 | the wait after a 429 is the header's number if it is finite and in [0, 300], and otherwise the body's |
| PredictionLedger.MemoryPredictionLedger.AppendPrediction | src/kalki_market_intelligence/predictions/ledger.py:40-43 | the whole new log and head, or the refusal and no change |
| PredictionLedger.MemoryPredictionLedger.AppendCorrection | src/kalki_market_intelligence/predictions/ledger.py:45-51 | the same for corrections |
| PredictionLedger.MemoryPredictionLedger.AppendOutcome | src/kalki_market_intelligence/predictions/ledger.py:53-61 | the same for outcomes |
| PredictionLedger.MemoryPredictionLedger.AppendHash | src/kalki_market_intelligence/predictions/ledger.py:85-89 | the chain grows by the digest of head and record |
| PredictionLedger.ReachableIntegrity | src/kalki_market_intelligence/predictions/ledger.py:40-61 | unique identifiers, a compatible parent for every child, one link per record |
| PredictionLedger.AppendTakenIff | src/kalki_market_intelligence/predictions/ledger.py:40-61 | a reachable ledger takes exactly the appends that break no rule: new identifiers, an existing prediction, published or due by then, under the same rule |
| PredictionLedger.EqualHeadsEqualLedgers | src/kalki_market_intelligence/predictions/ledger.py:85-89 | equal chain heads exactly for equal interleaved logs |
| PredictionLedger.EqualHeadsEqualContents | src/kalki_market_intelligence/predictions/ledger.py:76-77 | two ledger objects with equal heads hold the same records |
| PredictionLedger.PublishedHeadPinsPrefix | src/kalki_market_intelligence/predictions/ledger.py:76-89 | an earlier published head pins down everything appended before it |
| Indicators.Ema | src/kalki_market_intelligence/quantitative/algorithms.py:54-65 | the loop yields the recurrence's value at every index from period - 1 |
| Indicators.EmaWithin | src/kalki_market_intelligence/quantitative/algorithms.py:54-65 | every average lies between bounds on the values seen so far |
| Indicators.EmaOfShifted | src/kalki_market_intelligence/quantitative/algorithms.py:54-65 | moving all values by a constant moves every average by it |
| IndicatorMeaning.EmaEquations | src/kalki_market_intelligence/quantitative/algorithms.py:54-65 | without division: the first average times the period is the sum of the first values, and each step times (period + 1) is twice the distance to the value |
| Indicators.Rsi | src/kalki_market_intelligence/quantitative/algorithms.py:68-88 | the loop yields the smoothed gain/loss index at every index from period |
| Indicators.RsiRangeAndMirror | src/kalki_market_intelligence/quantitative/algorithms.py:68-88 | RSI is in [0, 100] and the negated series has 100 - RSI |
| IndicatorMeaning.RsiEquations | src/kalki_market_intelligence/quantitative/algorithms.py:68-88 | (rise + fall) RSI = 100 rise for the smoothed rises and falls, and 50 when there is neither |
| IndicatorMeaning.WilderEquations | src/kalki_market_intelligence/quantitative/algorithms.py:79-86 | the smoothed average starts at the mean and moves by 1 / period of its distance to each value |
| Indicators.Macd | src/kalki_market_intelligence/quantitative/algorithms.py:91-107 | exactly when it succeeds; outputs cover indices slow + signal - 2 to n - 1 with line, signal and difference |
| Indicators.LineFrom | src/kalki_market_intelligence/quantitative/algorithms.py:99-101 | the fast lookup is defined at every slow index |
| Indicators.MacdOfShifted | src/kalki_market_intelligence/quantitative/algorithms.py:91-107 | moving all prices by a constant changes nothing |
| Indicators.TrueRanges | src/kalki_market_intelligence/quantitative/algorithms.py:110-125 | the true range of every bar; exactly when it fails |
| Indicators.TrueRangeIsStretchedBar | src/kalki_market_intelligence/quantitative/algorithms.py:116-124 | for low <= high it is max(high, previous close) - min(low, previous close) |
| Indicators.Atr | src/kalki_market_intelligence/quantitative/algorithms.py:128-145 | the smoothed true ranges from index period on; exactly when it succeeds |
| Indicators.AtrWithin | src/kalki_market_intelligence/quantitative/algorithms.py:128-145 | every average lies between bounds on the true ranges |
| Indicators.CauchySchwarz | src/kalki_market_intelligence/quantitative/algorithms.py:165-183 | the squared covariance is at most the product of the variances |
| Indicators.BetasMultiplyIntoUnit | src/kalki_market_intelligence/quantitative/algorithms.py:165-183 | the product of the two betas is in [0, 1] |
| IndicatorMeaning.BetaEquation | src/kalki_market_intelligence/quantitative/algorithms.py:165-183 | beta exists exactly for equal lengths of at least two and a benchmark that is not flat, and solves the normal equation of the series centred at their means |
| Indicators.MaximumDrawdown | src/kalki_market_intelligence/quantitative/engine.py:239-255 | fails exactly on fewer than two closes; otherwise the running peak finds the minimum over all i <= j, attained, in (-1, 0] |
| Indicators.PositionExistsIff | src/kalki_market_intelligence/quantitative/engine.py:216-226 | a position exists exactly for a positive lookback, enough closes and a range that is not flat |
| Indicators.PositionInUnit | src/kalki_market_intelligence/quantitative/engine.py:216-236 | the position is in [0, 1]; 1 exactly at the highest close, 0 exactly at the lowest |
| IndicatorMeaning.PositionEquation | src/kalki_market_intelligence/quantitative/engine.py:216-226 | the position times (highest - lowest) is how far the last consumed close stands above the lowest |
| FilingExcerpts.FirstDifference | src/kalki_market_intelligence/forensics/filing_change.py:508-513 | the loop finds the specified index |
| FilingExcerpts.DifferenceIsFirst | src/kalki_market_intelligence/forensics/filing_change.py:508-513 | the texts agree before it and differ at it or one of them ends there |
| FilingExcerpts.CenteredRange | src/kalki_market_intelligence/forensics/filing_change.py:516-524 | the trimming loops yield the specified range |
| FilingExcerpts.CenteredKeepsCenter | src/kalki_market_intelligence/forensics/filing_change.py:516-524 | in canonical text the range is non-empty, starts and ends in non-blanks and keeps its centre |
| FilingExcerpts.ModifiedExcerptFacts | src/kalki_market_intelligence/forensics/filing_change.py:470-505 | a modified section always yields two exact non-empty slices of at most 300 characters around the first difference |
| FilingExcerpts.OneSidedExcerptIff | src/kalki_market_intelligence/forensics/filing_change.py:486-505 | an added or removed section can be excerpted exactly when the cut at 600 leaves no blank at its end |
| FilingExcerpts.BlankAtTheCutFails | src/kalki_market_intelligence/forensics/filing_change.py:486-505 | a canonical section that cannot be excerpted |
| FilingReceipts.SectionValidIff | src/kalki_market_intelligence/forensics/filing_change.py:82-101 | canonical text character by character: 1 to 20,000 characters of words with single blanks between them |
| FilingSelection.WalkIff | src/kalki_market_intelligence/forensics/filing_change.py:341-370 | the walk fails exactly on an inadmissible selector; otherwise it reports the differing ones in order |
| FilingSelection.WalkSelectors | src/kalki_market_intelligence/forensics/filing_change.py:341-370 | the loop over the sorted selectors yields the specified findings or error |
| FilingSelection.CompareAndSelect | src/kalki_market_intelligence/forensics/filing_change.py:328-410 | the comparison returns the specified receipt or error |
| FilingSelection.SelectionSucceedsIff | src/kalki_market_intelligence/forensics/filing_change.py:328-410 | it succeeds exactly when no selector changes category and no one-sided text is cut behind a blank; the receipt's checks never reject |
| FilingSelection.SelectionIsExact | src/kalki_market_intelligence/forensics/filing_change.py:236-260 | changes are exactly the differing selectors in order; selected and omitted partition them; every selected one outranks every omitted one; budgets hold |
| FilingReceipts.ReceiptStates | src/kalki_market_intelligence/forensics/filing_change.py:328-410 | in the sections of the two filings: the changes are the changed selectors with their kinds, hashes, sizes and headings; excerpts show where two texts part or the head of the only one; shown changes come before omitted ones by category and selector |
| FilingReceipts.ComparisonFailsIff | src/kalki_market_intelligence/forensics/filing_change.py:341-370 | a comparison fails exactly when a selector has two categories, or a section of one filing only is longer than 600 characters with a blank as its 600th |
| FilingReceipts.ExcerptsInOrder | src/kalki_market_intelligence/forensics/filing_change.py:371-376 | the excerpts are listed by category and then by selector |
| MasterIndex.ParseMasterIndex | src/kalki_market_intelligence/radar/financing_source.py:27-89 | the loops return what the order-free specification says, errors included |
| MasterIndex.IndexOfLines | src/kalki_market_intelligence/radar/financing_source.py:27-89 | in the lines: the accessions listed are those of usable lines of which no two clash; every listed identity is a line's CIK behind zeros with that line's name, form and date, and every line of the accession is listed |
| MasterIndex.TooManyIff | src/kalki_market_intelligence/radar/financing_source.py:53-55 | parsing is refused for its size exactly when more than 5,000 lines are usable |
| SecIdentifiers.PaddedStandsFor | src/kalki_market_intelligence/radar/financing_source.py:58 | a listed CIK is the line's behind zeros to ten characters, and a longer one itself |
| SecIdentifiers.PaddedEqualIff | src/kalki_market_intelligence/radar/accounting_source.py:58 | two lines are about one issuer exactly when their CIKs are the same up to leading zeros |
| MasterIndex.GroupLines | src/kalki_market_intelligence/radar/accounting_source.py:27-75 | the row limit depends only on the accepted rows; groups and conflicts describe them |
| MasterIndex.OneIndex | src/kalki_market_intelligence/radar/financing_source.py:75-89 | the rows have one index: an accession is listed exactly when all its rows agree, with the full identity list |
| MasterIndex.AcceptedOfRearranged | src/kalki_market_intelligence/radar/financing_source.py:35-52 | rearranging the lines rearranges the accepted rows |
| MasterIndex.ParsingIgnoresOrder | src/kalki_market_intelligence/radar/financing_source.py:27-89 | any arrangement of the accepted rows gives the same result |
| MasterIndex.ListedIsValidIff | src/kalki_market_intelligence/providers/sec/financing.py:48-66 | a listed candidate is refused only for more than 16 identities or a date after retrieval |
| Contradictions.CheckSucceedsIff | src/kalki_market_intelligence/forensics/contradictions.py:199-312 | a check succeeds exactly when the claim is known by the cutoff and its relevant facts are admitted |
| ContradictionVerdicts.CheckAcceptsIff | src/kalki_market_intelligence/forensics/contradictions.py:199-254 | the whole condition of a check, field by field, on the claim and the facts its subject looks at |
| ContradictionVerdicts.LooksAt | src/kalki_market_intelligence/forensics/contradictions.py:105-124 | those are the facts of the subject's own kinds |
| ContradictionVerdicts.VerdictIff | src/kalki_market_intelligence/forensics/contradictions.py:632-662 | supported exactly when the truth observed is the one asserted, conflicted exactly when it is the opposite, and the reason for each disposition |
| ContradictionVerdicts.LiquidityVerdict | src/kalki_market_intelligence/forensics/contradictions.py:558-571 | the truth observed: cash of the same day at least the current liabilities; what is missing or incomparable |
| ContradictionVerdicts.CurrencyMismatchIff | src/kalki_market_intelligence/forensics/contradictions.py:568-569 | a check stops at the currencies exactly on cash and current liabilities of one day in two currencies |
| ContradictionVerdicts.DilutionVerdict | src/kalki_market_intelligence/forensics/contradictions.py:572-613 | shown by shares to be issued, instruments or a grown share count; ruled out only by a count of zero instruments without a positive registration; a misordered pair is incomparable |
| ContradictionVerdicts.InsiderVerdict | src/kalki_market_intelligence/forensics/contradictions.py:614-630 | more acquired than disposed of on one day; a planned sale alone is not applicable |
| ContradictionVerdicts.ConsumedIff | src/kalki_market_intelligence/forensics/contradictions.py:558-662 | exactly which facts each verdict names as consumed |
| ContradictionVerdicts.ReceiptOrder | src/kalki_market_intelligence/forensics/contradictions.py:288-294 | a receipt lists its facts by the names of their kinds |
| Contradictions.RecheckReproduces | src/kalki_market_intelligence/forensics/contradictions.py:199-312 | re-checking a receipt's own claim and facts reproduces it |
| Contradictions.FlippingSwapsSupport | src/kalki_market_intelligence/forensics/contradictions.py:551-642 | asserting the opposite only swaps supported and conflicted |
| Contradictions.CheckIgnoresOrder | src/kalki_market_intelligence/forensics/contradictions.py:280-312 | the order in which facts are handed in never matters |
| Contradictions.ConsumedAreFacts | src/kalki_market_intelligence/forensics/contradictions.py:551-642 | whatever an evaluation consumes is one of the facts |
| Contradictions.LineageAgrees | src/kalki_market_intelligence/forensics/contradictions.py:222-254 | the loop with its two dictionaries accepts exactly the pairwise consistent fact lists |
| Contradictions.AgreementIsPairwise | src/kalki_market_intelligence/forensics/contradictions.py:222-254 | agreement with every earlier fact is agreement of every two facts |
| Contradictions.AdmissionByLineage | src/kalki_market_intelligence/forensics/contradictions.py:205-254 | the facts are admitted exactly when the record's other checks hold and the lineage loop accepts them |
| Contradictions.ResultRecomputes | src/kalki_market_intelligence/forensics/contradictions.py:192-277 | the validator as computed, lineage loop included, accepts exactly the valid receipts |
| ConvergenceService.ConvergenceValidationService.EvaluateAndPersist | src/kalki_market_intelligence/forensics/convergence_service.py:59-85 | a receipt is appended exactly when the declared completeness matches the recomputed disposition |
| ConvergenceVerdicts.RequestBuiltIff | src/kalki_market_intelligence/forensics/convergence_producers.py:354-410 | a request is made exactly of a claim in order and facts that share neither its record and content nor a piece of its evidence |
| ConvergenceVerdicts.ServiceTakesIff | src/kalki_market_intelligence/forensics/convergence_service.py:59-85 | a request is taken exactly when its check succeeds with a truth observed if declared complete, insufficient if partial, not applicable if so declared |
| ConvergenceProducers.FinancingProducerAgrees | src/kalki_market_intelligence/forensics/convergence_producers.py:92-133 | there is a request exactly for a dilutive term, and the service takes it exactly when the filing was retrieved by the cutoff |
| ConvergenceVerdicts.FinancingVerdict | src/kalki_market_intelligence/forensics/contradictions.py:327-366 | end to end: the request carries the filing's fields, the number of its active, issuable, dilutive terms and their evidence, and once the filing is retrieved the exposure is kept as supported |
| OwnershipProducer.SectionSixteenAgrees | src/kalki_market_intelligence/forensics/convergence_producers.py:181-210 | one request per date-and-derivative scope with its own two sums; each is taken exactly when in time |
| OwnershipProducer.EarlyFilingIsRefused | src/kalki_market_intelligence/forensics/convergence_producers.py:181-210 | a filing about a transaction after the cutoff yields a request that the service refuses |
| OwnershipProducer.OtherFormsAgree | src/kalki_market_intelligence/forensics/convergence_producers.py:149-180 | a Form 144 yields one request, declared not applicable and carrying its planned shares, a schedule none; taken exactly when in time |
| ConvergenceVerdicts.SectionSixteenVerdict | src/kalki_market_intelligence/forensics/contradictions.py:494-538 | end to end: one request per scope, in order, with the filing's fields; net acquisition is kept as supported when the shares acquired exceed those disposed of, and as conflicted otherwise |
| ConvergenceVerdicts.SharesAreAdditive | src/kalki_market_intelligence/forensics/contradictions.py:495-519 | a scope's shares add up over its own transactions of one direction |
| ConvergenceVerdicts.PlannedSaleVerdict | src/kalki_market_intelligence/forensics/convergence_producers.py:136-180 | end to end: a planned sale is kept, when in time, as not applicable |
| ConvergenceVerdicts.ScheduleVerdict | src/kalki_market_intelligence/forensics/convergence_producers.py:136-180 | a schedule is an unsupported context and requests nothing |
| OwnershipProducer.ScopesConserveShares | src/kalki_market_intelligence/forensics/contradictions.py:494-538 | over all scopes no share is lost or counted twice |
| XbrlProducer.SelectPair | src/kalki_market_intelligence/forensics/convergence_producers.py:244-284 | the loops, in any order of periods, arrive at the order-free selection |
| XbrlProducer.PairRequestAgrees | src/kalki_market_intelligence/forensics/convergence_producers.py:285-323 | a pair becomes a request exactly when it is usable |
| XbrlProducer.XbrlProducerAgrees | src/kalki_market_intelligence/forensics/convergence_producers.py:220-323 | a request exactly for a complete latest period; the service takes it exactly when that period has ended by the cutoff |
| ConvergenceVerdicts.XbrlVerdict | src/kalki_market_intelligence/forensics/convergence_producers.py:220-323 | end to end: the only cash and current liabilities of the latest reported period come to one request if they can be compared, kept once the day has come as supported exactly when the cash is at least the liabilities |
| ConvergenceVerdicts.NoPairVerdict | src/kalki_market_intelligence/forensics/convergence_producers.py:254-277 | without such a pair nothing is requested; the filing is ambiguous exactly if cash and current liabilities are reported for some one day |
| XbrlProducer.EarlyPeriodIsRefused | src/kalki_market_intelligence/forensics/convergence_producers.py:285-323 | a pair for a period after the cutoff yields a request that the service refuses |
| EventNovelty.NewEventIff | src/kalki_market_intelligence/forensics/novelty.py:315-399 | a new event exactly for a current event, a complete search and no overlapping or same-document prior |
| EventNovelty.CanonicalNewEventIff | src/kalki_market_intelligence/forensics/novelty.py:315-399 | with ten-digit issuer keys, exactly when no prior of the issuer and category shares an entity |
| EventNovelty.MorePriorsNeverCreateNewEvent | src/kalki_market_intelligence/forensics/novelty.py:315-399 | knowing more priors never turns anything into a new event |
| EventNovelty.RecapIff | src/kalki_market_intelligence/forensics/novelty.py:353-371 | a recap exactly for a current event, no same document, and a newest related prior that has every entity, date and number as written |
| EventNovelty.RecapIsCovered | src/kalki_market_intelligence/forensics/novelty.py:546-556 | a recap names a prior with the same entities that has every date and number |
| EventNovelty.PriorIsNewest | src/kalki_market_intelligence/forensics/novelty.py:353-371 | updates and recaps are measured against the newest related prior |
| EventNovelty.FirstKnownIsEarliest | src/kalki_market_intelligence/forensics/novelty.py:569-576 | the first-known time is the earliest related publication, given exactly when all have one |
| EventNovelty.ClassifyIgnoresOrder | src/kalki_market_intelligence/forensics/novelty.py:315-399 | the order of the priors never matters |
| EventNovelty.RestatementIsRecapIff | src/kalki_market_intelligence/forensics/novelty.py:546-566 | a numerically unchanged redisclosure is a recap exactly when its numbers are written to as many decimal places as in the newest related prior, and otherwise a material update |
| EventNovelty.RewrittenAmountIsUpdate | src/kalki_market_intelligence/forensics/novelty.py:559-566 | any disclosure with one amount written to one more place is a valid record and a material update, unless it already had that writing |
| EventNovelty.TwentyBillionAgain | src/kalki_market_intelligence/forensics/novelty.py:603-610 | 20 billion dollars, redisclosed as 20.0 billion, is a material update |
| EventVerdicts.ClassifiedIff | src/kalki_market_intelligence/forensics/novelty.py:315-399 | the whole decision in the fields of the disclosures: which disposition, reason and prior each disclosure gets |
| EventVerdicts.FirstKnownStates | src/kalki_market_intelligence/forensics/novelty.py:569-576 | duplicates name the first of all priors, updates and recaps the first of those they take up, given exactly when all of them have a publication time |
| Ordering.ListAscending | src/kalki_market_intelligence/forensics/filing_change.py:341 | `sorted` over a dictionary's keys: ascending, each key once |
| Ordering.TextLeqIff | src/kalki_market_intelligence/forensics/filing_change.py:341 | text order: a prefix first, otherwise the smaller of the first characters that differ |

## Left out

- Decimal and binary rounding: decimals, and the floats of the calibration interval, are exact reals, so precision-34 and float rounding and the effect of the clamps on them are not modelled (`CalibrationIsValid` included).
- Hash functions, UUIDv5 and JSON encoding: replaced by ideal identifiers; receipt, lineage and manifest hashes and the identifiers derived from them are not fields of the models.
- SQL text, pools, HTTP transports, redirects, files, environment and command-line entry points.
- The session planner and its exchange calendar: plan dates are given and satisfy the plan predicate; of the planner only the window of its calendar is modelled.
- Request URLs, JSON decoding and number parsing of the market-data adapter: a body is given as far as it could be read, and prices are finite numbers.
- Discord bodies whose JSON parsing raises something the notifier does not catch (an integer of more than 4300 digits, very deep nesting), which leaves the key unsuppressed; message ids of decimal digits outside ASCII, which `str.isdigit` accepts.
- Listing publications for enrollment and mapping exchanges to market codes: planned publications are given to the worker.
- Literal fields with a single legal value (provider, terms, methodology, schema versions), except where a stratum key names them.
- The text of limitations and error messages.
- Time zones: all instants are UTC already.
- Filing snapshots' provenance checks and the relationship check between two filings (accession, form family, filing times).
- White space beyond ASCII in filing sections: canonical text has only single blanks, for which the model agrees with the code unless the text holds such characters.
- Index line parsing by regular expression: a line carries its five fields as far as they could be read. Index names are taken as already normalised and cut at 255; the trailing blank the record strips after such a cut is not modelled.
- Tier routing of financing and ownership receipts before the producers: the routing hash is given. Other extracted fields of those receipts.
- Extraction of partnership events from text, entity-name normalisation and event evidence.
- SMA, volatility, ratios and the matching of two bar series.
- ProspectiveProgress.UnfinishedCanFinishIff: speaks about some continuation of a run; that workers keep running is not modelled.
- ProspectiveRuns.ProspectiveOutcomeWorker.Process: describes a claim processed with no other worker's transaction between the ledger read and the commit; those interleavings are in `ProspectiveProtocol` and the modules after it.
- ProspectiveRuns.ProspectiveOutcomeWorker.FinishFailure: likewise.
- ProspectiveRuns.ProspectiveOutcomeWorker.RunOnce: likewise between the steps of one pass.
- PredictionLedger.EqualHeadsEqualLedgers: assumes an injective digest that never yields the genesis value; `IdealDigestQualifies` shows the two can be met together.
