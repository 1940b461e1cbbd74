/** What a worker nobody races achieves, and which jobs can still be finished. */
module ProspectiveProgress {
  import opened Calendar
  import opened Outcomes
  import opened Ordering
  import opened ProspectiveContracts
  import opened ProspectiveEvaluator
  import opened ProspectiveStore
  import opened ProspectiveWorker
  import opened ProspectiveProtocol
  import opened ProspectiveGuarantees
  import opened ProspectiveTiming

  // ----- a worker nobody races -----

  predicate FinishedBy(ledger: seq<Attempt>, at: Instant) { forall a <- ledger :: a.completedAt <= at }

  /** The attempts list an unraced worker submits passes the outcome's attempt checks exactly when no
      earlier attempt finished after it. */
  lemma UnracedAttemptsValidIff(plan: Plan, ledger: seq<Attempt>, receipt: Attempt, o: Observations)
    requires LedgerInv(plan, ledger) && |ledger| == receipt.number - 1 && receipt.Valid()
    requires receipt.publicationId == plan.publicationId && receipt.horizon == plan.horizon
    requires receipt.status == if o.Complete() then Succeeded else TerminalFailure
    requires DistinctIds(ledger + [receipt])
    ensures Draft(plan, o, ledger + [receipt], receipt.completedAt, receipt.completedAt).AttemptsValid()
       <==> FinishedBy(ledger, receipt.completedAt)
  {
    var attempts := ledger + [receipt];
    var draft := Draft(plan, o, attempts, receipt.completedAt, receipt.completedAt);
    assert draft.attempts == attempts;
    forall k | 0 <= k < |attempts| ensures attempts[k].number == k + 1 {
      assert k < |ledger| ==> RowInv(plan, ledger, k);
    }
    forall k | 0 <= k < |attempts|
      ensures draft.AttemptInScope(k) <==> attempts[k].completedAt <= receipt.completedAt
    {
      assert k < |ledger| ==> RowInv(plan, ledger, k) && attempts[k] == ledger[k];
    }
    forall i, j | 0 <= i < j < |attempts| ensures draft.AttemptsOrdered(i, j) {
    }
    AttemptsInScopeIff(draft, ledger, receipt);
  }

  lemma AttemptsInScopeIff(draft: Outcome, ledger: seq<Attempt>, receipt: Attempt)
    requires draft.attempts == ledger + [receipt] && draft.evaluatedAt == receipt.completedAt
    requires forall k | 0 <= k < |draft.attempts| ::
      draft.AttemptInScope(k) <==> draft.attempts[k].completedAt <= receipt.completedAt
    ensures (forall k | 0 <= k < |draft.attempts| :: draft.AttemptInScope(k)) <==> FinishedBy(ledger, receipt.completedAt)
  {
    forall a | a in ledger
      ensures (forall k | 0 <= k < |draft.attempts| :: draft.AttemptInScope(k)) ==> a.completedAt <= receipt.completedAt
    {
      var k :| 0 <= k < |ledger| && ledger[k] == a;
      assert draft.attempts[k] == a;
    }
    if FinishedBy(ledger, receipt.completedAt) {
      forall k | 0 <= k < |draft.attempts| ensures draft.AttemptInScope(k) {
        assert k < |ledger| ==> draft.attempts[k] in ledger;
      }
    }
  }

  /** The rows of one plan and a freshly drawn receipt have distinct identifiers. */
  lemma FreshReceiptIsDistinct(s: System, id: PlanId, receipt: Attempt)
    requires IdInv(s) && receipt.attemptId !in s.issued
    ensures DistinctIds(Ledger(s.tables.rows, id) + [receipt])
  {
    LedgerIdsDistinct(s.tables.rows, id);
    LedgerComesFromRows(s.tables.rows, id);
    forall a | a in Ledger(s.tables.rows, id) ensures a.attemptId != receipt.attemptId {
      assert AttemptRow(id, a) in s.tables.rows;
    }
    AppendDistinct(Ledger(s.tables.rows, id), receipt);
  }

  /** What an unraced worker hands to the outcome's constructor. */
  function Submitted(s: System, claim: Claim, work: Work): Result<Outcome, EvaluationError>
    requires 1 <= claim.number && Decide(claim, work).Finish?
  {
    var d := Decide(claim, work);
    Conclude(claim, d.receipt, d.observations, AttemptsForPlan(s.tables, claim.planId))
  }

  /** The whole verdict on an unraced worker's outcome, whatever the clocks show: it is accepted exactly
      when its attempt ends after the target close, after every bar was retrieved and after every
      earlier attempt, and the retained bars have distinct content hashes. */
  lemma UnracedOutcomeIff(s: System, claim: Claim, work: Work)
    requires Inv(s) && IdInv(s) && Working(s, claim, work) && Fence(s.tables, claim.planId, claim.number)
    requires Answered(claim, work) && Decide(claim, work).Finish?
    ensures var d := Decide(claim, work); var at := d.receipt.completedAt;
      Submitted(s, claim, work).Ok? <==>
        && claim.plan.targetCloseAt <= at && RetrievedBy(d.observations, at)
        && FinishedBy(Ledger(s.tables.rows, claim.planId), at)
        && NoDuplicates(HashesOf(Present(d.observations.Slots())))
  {
    var d := Decide(claim, work);
    var id := claim.planId;
    var ledger := Ledger(s.tables.rows, id);
    assert ClaimInv(s.tables, claim) && EntryInv(s.tables, id);
    DecisionIsSound(claim, work);
    FinishedBarsFit(claim, work);
    LedgerIsOrdered(s.tables, id);
    FreshReceiptIsDistinct(s, id, d.receipt);
    UnracedAttemptsValidIff(claim.plan, ledger, d.receipt, d.observations);
    EvaluateSucceedsIff(claim.plan, d.observations, ledger + [d.receipt], d.receipt.completedAt, d.receipt.completedAt);
  }

  /** The attempt ends after its own start, the target close, every retrieval and every earlier attempt. */
  ghost predicate EndsInTime(t: Tables, claim: Claim, work: Work) {
    var at := CompletedAt(claim, work);
    && work.startedAt <= at && claim.plan.targetCloseAt <= at
    && RetrievedInTime(work.assetReply, at) && RetrievedInTime(work.benchmarkReply, at)
    && FinishedBy(Ledger(t.rows, claim.planId), at)
  }

  /** An attempt that ends in time yields an accepted outcome exactly when the content hashes differ. */
  lemma TimelyOutcomeIff(s: System, claim: Claim, work: Work)
    requires Inv(s) && IdInv(s) && Working(s, claim, work) && Fence(s.tables, claim.planId, claim.number)
    requires Answered(claim, work) && EndsInTime(s.tables, claim, work) && Decide(claim, work).Finish?
    ensures Submitted(s, claim, work).Ok?
       <==> NoDuplicates(HashesOf(Present(Decide(claim, work).observations.Slots())))
  {
    FinishedBarsFit(claim, work);
    UnracedOutcomeIff(s, claim, work);
  }

  /** With clocks that never ran backwards, and earlier attempts that started rested, it does end in time. */
  lemma OrderedClocksEndInTime(s: System, claim: Claim, work: Work)
    requires Inv(s) && SpacedIn(s.tables, claim.planId) && ClaimInv(s.tables, claim)
    requires Fence(s.tables, claim.planId, claim.number) && OrderedClocks(claim, work)
    ensures EndsInTime(s.tables, claim, work)
  {
    var ledger := Ledger(s.tables.rows, claim.planId);
    assert EntryInv(s.tables, claim.planId);
    assert ledger[..claim.number - 1] == ledger;
    forall a | a in ledger ensures a.completedAt <= CompletedAt(claim, work) {
      var k :| 0 <= k < |ledger| && ledger[k] == a;
      LedgerTimes(claim.plan, ledger, k);
    }
    if |ledger| > 0 { LedgerTimes(claim.plan, ledger, 0); }
  }

  lemma OrderedOutcomeIff(s: System, claim: Claim, work: Work)
    requires Inv(s) && IdInv(s) && SpacedIn(s.tables, claim.planId)
    requires Working(s, claim, work) && Fence(s.tables, claim.planId, claim.number)
    requires Answered(claim, work) && OrderedClocks(claim, work) && Decide(claim, work).Finish?
    ensures Submitted(s, claim, work).Ok?
       <==> NoDuplicates(HashesOf(Present(Decide(claim, work).observations.Slots())))
  {
    assert ClaimInv(s.tables, claim);
    OrderedClocksEndInTime(s, claim, work);
    TimelyOutcomeIff(s, claim, work);
  }

  /** What the store then does: an unraced retry is never refused. */
  lemma UnracedRetryIsStored(s: System, claim: Claim, work: Work)
    requires Inv(s) && Working(s, claim, work) && Fence(s.tables, claim.planId, claim.number)
    requires Decide(claim, work).Retry?
    ensures var d := Decide(claim, work);
      && claim.number < 6 && d.receipt.status.RetryableFailure?
      && RetryWithAttempt(s.tables, claim.planId, d.receipt, d.receipt.completedAt, d.nextAttemptAt).Ok?
  {
    DecisionIsSound(claim, work);
  }

  /** An unraced outcome that its validator accepts is never refused either; it is a completed one
      exactly when all four bars were present and the last attempt succeeded. */
  lemma UnracedOutcomeIsStored(s: System, claim: Claim, work: Work)
    requires Inv(s) && Working(s, claim, work) && Fence(s.tables, claim.planId, claim.number)
    requires Decide(claim, work).Finish? && Submitted(s, claim, work).Ok?
    ensures var d := Decide(claim, work); var outcome := Submitted(s, claim, work).value;
      && outcome.attempts != []
      && CompleteWithAttempt(s.tables, outcome, d.receipt).Ok?
      && (outcome.status.OutcomeCompleted? <==> d.observations.Complete())
      && (outcome.status.OutcomeCompleted? <==> d.receipt.status.Succeeded?)
  {
    var d := Decide(claim, work);
    assert ClaimInv(s.tables, claim) && EntryInv(s.tables, claim.planId);
    DecisionIsSound(claim, work);
    var outcome := Submitted(s, claim, work).value;
    ConcludeStatus(claim, d.receipt, d.observations, AttemptsForPlan(s.tables, claim.planId), outcome);
    FencedOutcomeIsStored(s.tables, claim, d.receipt, outcome);
  }

  lemma ConcludeStatus(claim: Claim, receipt: Attempt, o: Observations, ledger: seq<Attempt>, outcome: Outcome)
    requires Conclude(claim, receipt, o, ledger) == Ok(outcome)
    ensures outcome.plan == claim.plan && outcome.attempts == ledger + [receipt]
    ensures outcome.status.OutcomeCompleted? <==> o.Complete()
  {
  }

  lemma FencedOutcomeIsStored(t: Tables, claim: Claim, receipt: Attempt, outcome: Outcome)
    requires Fence(t, claim.planId, receipt.number) && claim.plan.Id() == claim.planId
    requires outcome.plan == claim.plan && outcome.attempts != []
    requires outcome.attempts[|outcome.attempts| - 1] == receipt
    ensures CompleteWithAttempt(t, outcome, receipt).Ok?
  {
  }

  // ----- no job is stranded -----

  ghost predicate Unfinished(s: System, id: PlanId) {
    id in s.tables.jobs && id in s.tables.plans && !s.tables.jobs[id].status.Terminal()
  }

  ghost predicate EndsCompleted(s: System, id: PlanId) {
    id in s.tables.jobs && s.tables.jobs[id].status.Completed?
  }

  /** From any unfinished state, at most one lease expiry makes the job claimable again. */
  lemma CanBeClaimed(s: System, id: PlanId) returns (events: seq<Event>, now: Instant)
    requires Inv(s) && IdInv(s) && Unfinished(s, id)
    ensures var next := Run(s, events);
      Inv(next) && IdInv(next) && Due(next.tables, id, now)
      && next.tables.plans[id] == s.tables.plans[id] && next.claims == s.claims && next.issued == s.issued
  {
    assert EntryInv(s.tables, id);
    var job := s.tables.jobs[id];
    if job.status.Processing? {
      var expiry := job.claimedAt.value + 60 * SECOND;
      events := [RequeueEvent(expiry, 60)];
      now := Larger(expiry, s.tables.plans[id].targetCloseAt);
      assert events[..0] == [];
      assert Run(s, []) == s;
      StepKeepsInv(s, events[0]);
      StepKeepsIds(s, events[0]);
    } else {
      events := [];
      now := Larger(job.nextAttemptAt.value, s.tables.plans[id].targetCloseAt);
    }
  }

  function BarAt(listing: Listing, date: Day, currency: string, hash: Hash, at: Instant): Bar {
    Bar(listing, date, 1.0, currency, hash, at)
  }

  /** A provider that has both sessions' bars of both listings, and a clock that stands still. */
  function CompleteWork(plan: Plan, attemptId: nat, at: Instant): Work {
    var asset := BarBatch(AssetRequest(plan), [BarAt(plan.asset, plan.referenceDate, plan.currency, 0, at),
                                               BarAt(plan.asset, plan.targetDate, plan.currency, 1, at)], 0, at);
    var benchmark := BarBatch(BenchmarkRequest(plan), [BarAt(plan.benchmark, plan.referenceDate, plan.currency, 2, at),
                                                       BarAt(plan.benchmark, plan.targetDate, plan.currency, 3, at)], 1, at);
    Work(attemptId, at, Bars(asset), Bars(benchmark), at, at)
  }

  lemma TwoBars(bars: seq<Bar>, first: Day, second: Day)
    requires |bars| == 2 && bars[0].sessionDate == first && bars[1].sessionDate == second && first != second
    ensures BarOn(bars, first) == Some(bars[0]) && BarOn(bars, second) == Some(bars[1])
  {
    assert BarOn(bars[1..], second) == Some(bars[1]);
  }

  lemma CompleteWorkObserves(claim: Claim, attemptId: nat, at: Instant)
    requires 1 <= claim.number <= 6 && claim.plan.Valid() && WindowFits(claim.plan)
    ensures var work := CompleteWork(claim.plan, attemptId, at); var d := Decide(claim, work);
      && Answered(claim, work) && d.Finish? && d.receipt.completedAt == at && d.observations.Complete()
      && RetrievedBy(d.observations, at) && NoDuplicates(HashesOf(Present(d.observations.Slots())))
  {
    var work := CompleteWork(claim.plan, attemptId, at);
    var asset, benchmark := work.assetReply.batch, work.benchmarkReply.batch;
    TwoBars(asset.bars, claim.plan.referenceDate, claim.plan.targetDate);
    TwoBars(benchmark.bars, claim.plan.referenceDate, claim.plan.targetDate);
    var o := Observe(claim.plan, asset, benchmark);
    assert o == Observations(Some(asset.bars[0]), Some(asset.bars[1]), Some(benchmark.bars[0]), Some(benchmark.bars[1]));
    FourHashes(o);
    assert Decide(claim, work) == Succeed(claim, work, o, [0, 1], 4);
  }

  lemma FourHashes(o: Observations)
    requires o.Complete()
    ensures HashesOf(Present(o.Slots())) == [o.assetReference.value.contentHash, o.assetTarget.value.contentHash,
                                             o.benchmarkReference.value.contentHash, o.benchmarkTarget.value.contentHash]
  {
    var s := o.Slots();
    assert s[1..][1..][1..] == [s[3]] && s[1..][1..] == [s[2], s[3]] && s[1..] == [s[1], s[2], s[3]];
    assert Present([s[3]]) == [s[3].value];
    assert Present([s[2], s[3]]) == [s[2].value, s[3].value];
    assert Present([s[1], s[2], s[3]]) == [s[1].value, s[2].value, s[3].value];
  }

  /** An instant no earlier than `floor` and than the end of every attempt. */
  function LatestEnd(ledger: seq<Attempt>, floor: Instant): (at: Instant)
    ensures floor <= at && FinishedBy(ledger, at)
  {
    if |ledger| == 0 then floor else Larger(ledger[0].completedAt, LatestEnd(ledger[1..], floor))
  }

  /** An unraced claim on a plan whose window fits can always be completed. */
  lemma ClaimCanComplete(s: System, claim: Claim)
    requires Inv(s) && IdInv(s) && claim in s.claims && Fence(s.tables, claim.planId, claim.number)
    requires WindowFits(claim.plan)
    ensures exists events :: EndsCompleted(Run(s, events), claim.planId)
  {
    FreshIdExists(s.issued);
    var receiptId: nat :| receiptId !in s.issued;
    assert ClaimInv(s.tables, claim) && EntryInv(s.tables, claim.planId);
    var at := LatestEnd(Ledger(s.tables.rows, claim.planId), claim.plan.targetCloseAt);
    var work := CompleteWork(claim.plan, receiptId, at);
    CompleteWorkObserves(claim, receiptId, at);
    UnracedOutcomeIff(s, claim, work);
    UnracedOutcomeIsStored(s, claim, work);
    var d := Decide(claim, work);
    var v := Verdict(claim, d.receipt, d.observations, AttemptsForPlan(s.tables, claim.planId));
    RunTwo(s, ReadEvent(claim, work), CommitEvent(v));
    ReadThenCommit(s, claim, work, d, v);
    CommitStep(Step(s, ReadEvent(claim, work)), v);
    StoredCommitEnds(Step(s, ReadEvent(claim, work)), v, Concluded(v));
    assert EndsCompleted(Run(s, [ReadEvent(claim, work), CommitEvent(v)]), claim.planId);
  }

  lemma ReadThenCommit(s: System, claim: Claim, work: Work, d: Decision, v: Verdict)
    requires Working(s, claim, work) && Decide(claim, work) == d && d.Finish?
    requires v == Verdict(claim, d.receipt, d.observations, AttemptsForPlan(s.tables, claim.planId))
    ensures Step(s, ReadEvent(claim, work)).tables == s.tables
    ensures v in Step(s, ReadEvent(claim, work)).verdicts
  {
  }

  lemma CommitStep(s: System, v: Verdict)
    requires v in s.verdicts
    ensures Step(s, CommitEvent(v)) == AfterCommit(s, v, Concluded(v))
  {
  }

  lemma StoredCommitEnds(s: System, v: Verdict, concluded: Result<Outcome, EvaluationError>)
    requires concluded.Ok? && concluded.value.attempts != [] && concluded.value.plan.Id() == v.claim.planId
    requires concluded.value.status.OutcomeCompleted?
    requires CompleteWithAttempt(s.tables, concluded.value, v.receipt).Ok?
    ensures EndsCompleted(AfterCommit(s, v, concluded), v.claim.planId)
  {
  }

  lemma OnlyCommitsFinish(s: System, e: Event, id: PlanId)
    requires Inv(s) && Unfinished(s, id) && !WindowFits(s.tables.plans[id])
    ensures Unfinished(Step(s, e), id) && Step(s, e).tables.plans[id] == s.tables.plans[id]
  {
    StepKeepsInv(s, e);
    match e
    case CommitEvent(v) =>
      if v in s.verdicts {
        assert VerdictInv(s.tables, v) && v.claim.planId != id;
        ConcludeFacts(v);
        CommitLeavesOthers(s, v, Concluded(v), id);
      }
    case _ =>
  }

  lemma CommitLeavesOthers(s: System, v: Verdict, concluded: Result<Outcome, EvaluationError>, id: PlanId)
    requires TablesInv(s.tables) && VerdictInv(s.tables, v) && Concludes(v, concluded) && id != v.claim.planId
    ensures id in s.tables.jobs ==>
      id in AfterCommit(s, v, concluded).tables.jobs && AfterCommit(s, v, concluded).tables.jobs[id] == s.tables.jobs[id]
  {
    assert EntryInv(s.tables, v.claim.planId);
  }

  lemma {:induction false} WideWindowNeverFinishes(s: System, events: seq<Event>, id: PlanId)
    requires Inv(s) && Unfinished(s, id) && !WindowFits(s.tables.plans[id])
    ensures Unfinished(Run(s, events), id) && Run(s, events).tables.plans[id] == s.tables.plans[id]
  {
    if |events| != 0 {
      WideWindowNeverFinishes(s, events[..|events| - 1], id);
      RunKeepsInv(s, events[..|events| - 1]);
      OnlyCommitsFinish(Run(s, events[..|events| - 1]), events[|events| - 1], id);
    }
  }

  lemma CanComplete(s: System, id: PlanId)
    requires Inv(s) && IdInv(s) && Unfinished(s, id) && WindowFits(s.tables.plans[id])
    ensures exists events :: EndsCompleted(Run(s, events), id)
  {
    var first, now := CanBeClaimed(s, id);
    var ready := Run(s, first);
    var claim := TakeClaim(ready.tables, id, now).1;
    var claimed := Step(ready, ClaimEvent(id, now));
    StepKeepsInv(ready, ClaimEvent(id, now));
    StepKeepsIds(ready, ClaimEvent(id, now));
    ClaimCanComplete(claimed, claim);
    var last :| EndsCompleted(Run(claimed, last), id);
    var step := [ClaimEvent(id, now)];
    assert step[..0] == [] && Run(ready, []) == ready;
    RunConcat(s, first, step);
    RunConcat(s, first + step, last);
    assert EndsCompleted(Run(s, first + step + last), id);
  }

  /** From every reachable state, and whatever clocks and workers did before, an unfinished job can still
      be completed exactly when its sessions span at most the 90 days one bar request may cover; a wider
      one can never reach any terminal state. */
  lemma UnfinishedCanFinishIff(past: seq<Event>, id: PlanId)
    requires Unfinished(Run(INITIAL, past), id)
    ensures var s := Run(INITIAL, past);
      var fits := s.tables.plans[id].targetDate - s.tables.plans[id].referenceDate <= 90;
      && ((exists events :: EndsCompleted(Run(s, events), id)) <==> fits)
      && ((exists events :: !Unfinished(Run(s, events), id)) <==> fits)
  {
    ReachableIds(past);
    var s := Run(INITIAL, past);
    assert EntryInv(s.tables, id);
    if WindowFits(s.tables.plans[id]) {
      CanComplete(s, id);
      var events :| EndsCompleted(Run(s, events), id);
      assert !Unfinished(Run(s, events), id);
    } else {
      forall events ensures Unfinished(Run(s, events), id) { WideWindowNeverFinishes(s, events, id); }
    }
  }

  /** The dates a plan can have that the session planner makes: both inside the calendar it builds, from
      seven days before to sixty days after the publication's date. */
  predicate FromPlanner(plan: Plan) {
    DateOf(plan.publishedAt) - 7 <= plan.referenceDate && plan.targetDate <= DateOf(plan.publishedAt) + 60
  }

  predicate PlannedEnrollments(events: seq<Event>) {
    forall e <- events :: e.EnrollEvent? ==> FromPlanner(e.plan)
  }

  lemma {:induction false} PlansComeFromEnrollment(events: seq<Event>)
    requires PlannedEnrollments(events)
    ensures forall id | id in Run(INITIAL, events).tables.plans :: FromPlanner(Run(INITIAL, events).tables.plans[id])
  {
    if |events| != 0 {
      PlansComeFromEnrollment(events[..|events| - 1]);
      PlansAfterStep(Run(INITIAL, events[..|events| - 1]), events[|events| - 1]);
    }
  }

  lemma PlansAfterStep(s: System, e: Event)
    ensures var next := Step(s, e).tables.plans;
      forall id | id in next :: (id in s.tables.plans && next[id] == s.tables.plans[id]) || (e.EnrollEvent? && next[id] == e.plan)
  {
  }

  /** When all plans come from the planner, no job is ever stranded: every unfinished one can still be
      completed. */
  lemma PlannedJobCanComplete(past: seq<Event>, id: PlanId)
    requires PlannedEnrollments(past) && Unfinished(Run(INITIAL, past), id)
    ensures exists events :: EndsCompleted(Run(Run(INITIAL, past), events), id)
  {
    PlansComeFromEnrollment(past);
    UnfinishedCanFinishIff(past, id);
  }

  /** The store itself takes any valid plan; one whose sessions lie 91 days apart is never finished. */
  lemma WidePlanIsStranded(more: seq<Event>)
    ensures var plan := SamplePlan(91);
      && plan.Valid() && !FromPlanner(plan)
      && Unfinished(Run(Run(INITIAL, [EnrollEvent(plan, plan.enrolledAt)]), more), plan.Id())
  {
    var plan := SamplePlan(91);
    var first := [EnrollEvent(plan, plan.enrolledAt)];
    Reachable(first);
    RunOne(INITIAL, first[0]);
    WideWindowNeverFinishes(Run(INITIAL, first), more, plan.Id());
  }
}
