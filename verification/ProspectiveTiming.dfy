/** What of the protocol's timing depends on the workers' clocks. Claims respect the backoff of the
    latest result on every run; here is exactly when the attempts themselves do, and when claims also
    respect the target close and every earlier result. */
module ProspectiveTiming {
  import opened Calendar
  import opened Outcomes
  import opened Ordering
  import opened ProspectiveContracts
  import opened ProspectiveEvaluator
  import opened ProspectiveStore
  import opened ProspectiveWorker
  import opened ProspectiveProtocol
  import opened ProspectiveGuarantees

  // ----- what a step adds to a ledger -----

  /** The receipt a step adds to the plan's ledger, if it adds one: the worker's step is enabled, its
      outcome can be constructed if it has one, and the fence lets it pass. */
  ghost function Added(s: System, e: Event, id: PlanId): Option<Attempt> {
    match e
    case RetryEvent(claim, work) =>
      if claim.planId == id && Working(s, claim, work) && Decide(claim, work).Retry? && Fence(s.tables, id, claim.number)
      then Some(Decide(claim, work).receipt) else None
    case CommitEvent(v) =>
      if v.claim.planId == id && v in s.verdicts && Concluded(v).Ok? && Fence(s.tables, id, v.claim.number)
      then Some(v.receipt) else None
    case _ => None
  }

  function Listed(added: Option<Attempt>): seq<Attempt> { if added.Some? then [added.value] else [] }

  lemma RetryAdds(s: System, claim: Claim, work: Work, id: PlanId)
    requires Inv(s) && Working(s, claim, work) && Decide(claim, work).Retry?
    ensures Ledger(AfterRetry(s, claim, Decide(claim, work)).tables.rows, id)
         == Ledger(s.tables.rows, id) + Listed(Added(s, RetryEvent(claim, work), id))
  {
    DecisionIsSound(claim, work);
    var d := Decide(claim, work);
    assert ClaimInv(s.tables, claim);
    match RetryWithAttempt(s.tables, claim.planId, d.receipt, d.receipt.completedAt, d.nextAttemptAt)
    case Err(_) =>
    case Ok(after) =>
      RetryWrites(s.tables, claim.planId, d.receipt, d.receipt.completedAt, d.nextAttemptAt, after);
      assert id != claim.planId ==> SameRecord(s.tables, after, id);
  }

  lemma CommitAdds(s: System, v: Verdict, concluded: Result<Outcome, EvaluationError>, id: PlanId)
    requires Inv(s) && v in s.verdicts && Concludes(v, concluded)
    ensures Ledger(AfterCommit(s, v, concluded).tables.rows, id) == Ledger(s.tables.rows, id)
      + if id == v.claim.planId && concluded.Ok? && Fence(s.tables, id, v.claim.number) then [v.receipt] else []
  {
    assert VerdictInv(s.tables, v) && EntryInv(s.tables, v.claim.planId);
    if concluded.Ok? {
      match CompleteWithAttempt(s.tables, concluded.value, v.receipt)
      case Err(_) =>
      case Ok(after) =>
        CompleteWrites(s.tables, concluded.value, v.receipt, after);
        assert id != v.claim.planId ==> SameRecord(s.tables, after, id);
    }
  }

  lemma StepAdds(s: System, e: Event, id: PlanId)
    requires Inv(s)
    ensures Ledger(Step(s, e).tables.rows, id) == Ledger(s.tables.rows, id) + Listed(Added(s, e, id))
  {
    match e
    case RetryEvent(claim, work) =>
      if Working(s, claim, work) && Decide(claim, work).Retry? { RetryAdds(s, claim, work, id); }
    case CommitEvent(v) =>
      if v in s.verdicts {
        ConcludeFacts(v);
        CommitAdds(s, v, Concluded(v), id);
      }
    case _ =>
  }

  lemma AddedIsNumbered(s: System, e: Event, id: PlanId)
    requires Inv(s) && Added(s, e, id).Some?
    ensures id in s.tables.plans && Added(s, e, id).value.number == |Ledger(s.tables.rows, id)| + 1 <= 6
  {
    assert EntryInv(s.tables, id);
    match e
    case RetryEvent(claim, work) => DecisionIsSound(claim, work);
    case CommitEvent(v) => assert VerdictInv(s.tables, v);
  }

  // ----- exactly when the attempts of a plan are spaced -----

  /** Every attempt started no earlier than twelve hours after the target close and, from the second on,
      than 300 * 2^(k-1) seconds after the end of the k-th before it. */
  ghost predicate Spaced(plan: Plan, ledger: seq<Attempt>) {
    forall i | 0 <= i < |ledger| :: StartedRested(plan, ledger, i)
  }

  ghost predicate StartedRested(plan: Plan, ledger: seq<Attempt>, i: int)
    requires 0 <= i < |ledger|
  {
    Rested(plan, ledger[..i], ledger[i].startedAt)
  }

  ghost predicate SpacedIn(t: Tables, id: PlanId) { id in t.plans ==> Spaced(t.plans[id], Ledger(t.rows, id)) }

  /** If the step commits a result of the plan, its worker's start reading is at or after the rest its job
      was waiting for. */
  ghost predicate StartsRested(s: System, e: Event, id: PlanId) {
    Added(s, e, id).Some? ==>
      id in s.tables.plans && Rested(s.tables.plans[id], Ledger(s.tables.rows, id), Added(s, e, id).value.startedAt)
  }

  lemma AppendSpacedIff(plan: Plan, ledger: seq<Attempt>, receipt: Attempt)
    ensures Spaced(plan, ledger + [receipt]) <==> Spaced(plan, ledger) && Rested(plan, ledger, receipt.startedAt)
  {
    var longer := ledger + [receipt];
    forall i | 0 <= i < |ledger| ensures StartedRested(plan, longer, i) <==> StartedRested(plan, ledger, i) {
      assert longer[..i] == ledger[..i];
    }
    assert longer[..|ledger|] == ledger;
    assert StartedRested(plan, longer, |ledger|) <==> Rested(plan, ledger, receipt.startedAt);
  }

  /** A step, whoever takes it: the plan's attempts are spaced afterwards exactly when they were before and
      the worker whose result the step commits, if any, started rested. */
  lemma StepSpacedIff(s: System, e: Event, id: PlanId)
    requires Inv(s)
    ensures SpacedIn(Step(s, e).tables, id) <==> SpacedIn(s.tables, id) && StartsRested(s, e, id)
  {
    StepKeepsInv(s, e);
    StepAdds(s, e, id);
    assert EntryInv(s.tables, id) && EntryInv(Step(s, e).tables, id);
    if Added(s, e, id).Some? {
      AddedIsNumbered(s, e, id);
      AppendSpacedIff(s.tables.plans[id], Ledger(s.tables.rows, id), Added(s, e, id).value);
    } else {
      assert Ledger(Step(s, e).tables.rows, id) == Ledger(s.tables.rows, id);
    }
  }

  ghost predicate AllStartRested(events: seq<Event>, id: PlanId) {
    forall k | 0 <= k < |events| :: StartsRested(Run(INITIAL, events[..k]), events[k], id)
  }

  lemma AllStartRestedSplit(events: seq<Event>, id: PlanId)
    requires events != []
    ensures var n := |events| - 1;
      AllStartRested(events, id) <==> AllStartRested(events[..n], id) && StartsRested(Run(INITIAL, events[..n]), events[n], id)
  {
    var n := |events| - 1;
    var front := events[..n];
    forall k | 0 <= k < n
      ensures StartsRested(Run(INITIAL, events[..k]), events[k], id) <==> StartsRested(Run(INITIAL, front[..k]), front[k], id)
    {
      assert front[..k] == events[..k];
    }
  }

  /** Over any run, races and clocks included: the persisted attempts of a plan are spaced by the backoff
      exactly when every worker that committed one had a start reading at or after the rest its job was
      waiting for. */
  lemma {:induction false} LedgerIsSpacedIff(events: seq<Event>, id: PlanId)
    ensures SpacedIn(Run(INITIAL, events).tables, id) <==> AllStartRested(events, id)
  {
    if |events| != 0 {
      var n := |events| - 1;
      LedgerIsSpacedIff(events[..n], id);
      AllStartRestedSplit(events, id);
      Reachable(events[..n]);
      StepSpacedIff(Run(INITIAL, events[..n]), events[n], id);
    }
  }

  // ----- clocks that are not set back between claim and start -----

  /** The worker's clock was not set back between the claim and its start. */
  predicate StartsAfterClaim(e: Event) {
    e.RetryEvent? || e.ReadEvent? ==> e.claim.claimedAt <= e.work.startedAt
  }

  predicate StartsFollowClaims(events: seq<Event>) { forall e <- events :: StartsAfterClaim(e) }

  ghost predicate VerdictsFollowClaims(s: System) {
    forall v | v in s.verdicts :: v.claim.claimedAt <= v.receipt.startedAt
  }

  lemma StepFollowsClaims(s: System, e: Event)
    requires Inv(s) && VerdictsFollowClaims(s) && StartsAfterClaim(e)
    ensures VerdictsFollowClaims(Step(s, e))
  {
    match e
    case ReadEvent(claim, work) =>
      if Working(s, claim, work) && Decide(claim, work).Finish? { DecisionIsSound(claim, work); }
    case CommitEvent(v) => if v in s.verdicts { CommitKeepsVerdicts(s, v, Concluded(v)); }
    case _ =>
  }

  lemma CommitKeepsVerdicts(s: System, v: Verdict, concluded: Result<Outcome, EvaluationError>)
    ensures AfterCommit(s, v, concluded).verdicts == s.verdicts
  {
  }

  lemma FencedClaimHasRested(t: Tables, claim: Claim)
    requires TablesInv(t) && ClaimInv(t, claim) && Fence(t, claim.planId, claim.number)
    ensures claim.planId in t.plans && claim.plan == t.plans[claim.planId]
    ensures |Ledger(t.rows, claim.planId)| == claim.number - 1
    ensures Rested(claim.plan, Ledger(t.rows, claim.planId), claim.claimedAt)
  {
    assert EntryInv(t, claim.planId);
    var ledger := Ledger(t.rows, claim.planId);
    assert ledger[..claim.number - 1] == ledger;
    RestedIff(claim.plan, ledger, claim.claimedAt);
  }

  lemma OrderedStartIsRested(s: System, e: Event, id: PlanId)
    requires Inv(s) && VerdictsFollowClaims(s) && StartsAfterClaim(e)
    ensures StartsRested(s, e, id)
  {
    if Added(s, e, id).Some? {
      match e
      case RetryEvent(claim, work) =>
        assert ClaimInv(s.tables, claim);
        FencedClaimHasRested(s.tables, claim);
        DecisionIsSound(claim, work);
      case CommitEvent(v) =>
        assert VerdictInv(s.tables, v);
        FencedClaimHasRested(s.tables, v.claim);
    }
  }

  /** Workers that never start before their own claim always start rested, however late they are and
      whatever their clocks show otherwise. */
  lemma {:induction false} OrderedStartsAreRested(events: seq<Event>, id: PlanId)
    requires StartsFollowClaims(events)
    ensures VerdictsFollowClaims(Run(INITIAL, events)) && AllStartRested(events, id)
  {
    if |events| != 0 {
      var n := |events| - 1;
      OrderedStartsAreRested(events[..n], id);
      Reachable(events[..n]);
      StepFollowsClaims(Run(INITIAL, events[..n]), events[n]);
      OrderedStartIsRested(Run(INITIAL, events[..n]), events[n], id);
      AllStartRestedSplit(events, id);
    }
  }

  // ----- exactly when claims respect every earlier result -----

  /** `at` is no earlier than twelve hours after the target close, nor than 300 * 2^(k-1) seconds after
      the k-th result, for every k. */
  ghost predicate RestsAfterAll(plan: Plan, ledger: seq<Attempt>, at: Instant) {
    && at >= plan.targetCloseAt + 12 * HOUR
    && forall k | 0 <= k < |ledger| :: RestsAfter(ledger, k, at)
  }

  predicate RestsAfter(ledger: seq<Attempt>, k: int, at: Instant)
    requires 0 <= k < |ledger|
  {
    at >= ledger[k].completedAt + 300 * Power2(k) * SECOND
  }

  /** The plan's job cannot be claimed before it has rested from everything. */
  ghost predicate ClaimsRest(t: Tables, id: PlanId) {
    forall at | Due(t, id, at) :: RestsAfterAll(t.plans[id], Ledger(t.rows, id), at)
  }

  /** If the step commits a retryable failure of the plan, the next attempt time it asks for has rested
      from everything before. */
  ghost predicate EndsRested(s: System, e: Event, id: PlanId) {
    Added(s, e, id).Some? && Added(s, e, id).value.status.RetryableFailure? ==>
      && id in s.tables.plans
      && RestsAfterAll(s.tables.plans[id], Ledger(s.tables.rows, id),
                       Added(s, e, id).value.completedAt + 300 * Power2(|Ledger(s.tables.rows, id)|) * SECOND)
  }

  ghost predicate JobRests(plan: Plan, job: Job, ledger: seq<Attempt>) {
    match job.status
    case Pending => job.nextAttemptAt.Some? && RestsAfterAll(plan, ledger, job.nextAttemptAt.value)
    case RetryWait => job.nextAttemptAt.Some? && RestsAfterAll(plan, ledger, job.nextAttemptAt.value)
    case Processing => job.claimedAt.Some? && RestsAfterAll(plan, ledger, job.claimedAt.value)
    case _ => true
  }

  ghost predicate JobRestsIn(t: Tables, id: PlanId) {
    id in t.plans && id in t.jobs ==> JobRests(t.plans[id], t.jobs[id], Ledger(t.rows, id))
  }

  lemma LaterRests(plan: Plan, ledger: seq<Attempt>, at: Instant, later: Instant)
    requires RestsAfterAll(plan, ledger, at) && at <= later
    ensures RestsAfterAll(plan, ledger, later)
  {
    forall k | 0 <= k < |ledger| ensures RestsAfter(ledger, k, later) {
      assert RestsAfter(ledger, k, at);
    }
  }

  /** What a retry asks for has rested from its own result, and from the others if it did before. */
  lemma AppendRestsIff(plan: Plan, ledger: seq<Attempt>, receipt: Attempt)
    ensures var next := receipt.completedAt + 300 * Power2(|ledger|) * SECOND;
      RestsAfterAll(plan, ledger + [receipt], next) <==> RestsAfterAll(plan, ledger, next)
  {
    var next := receipt.completedAt + 300 * Power2(|ledger|) * SECOND;
    var longer := ledger + [receipt];
    forall k | 0 <= k < |ledger| ensures RestsAfter(longer, k, next) <==> RestsAfter(ledger, k, next) {
    }
    assert RestsAfter(longer, |ledger|, next);
  }

  predicate Waiting(t: Tables, id: PlanId) {
    && id in t.plans && id in t.jobs && (t.jobs[id].status.Pending? || t.jobs[id].status.RetryWait?)
    && t.jobs[id].attempts < 6 && t.jobs[id].nextAttemptAt.Some?
  }

  /** A waiting job is claimed rested exactly when its next attempt time has rested. */
  lemma WaitingClaimsRestIff(t: Tables, id: PlanId)
    requires Waiting(t, id)
    ensures ClaimsRest(t, id) <==> RestsAfterAll(t.plans[id], Ledger(t.rows, id), t.jobs[id].nextAttemptAt.value)
  {
    var next := t.jobs[id].nextAttemptAt.value;
    var plan, ledger := t.plans[id], Ledger(t.rows, id);
    var first := Larger(next, plan.targetCloseAt);
    assert Due(t, id, first);
    if RestsAfterAll(plan, ledger, next) {
      forall at | Due(t, id, at) ensures RestsAfterAll(plan, ledger, at) { LaterRests(plan, ledger, next, at); }
    }
  }

  lemma RestedJobsRest(t: Tables, id: PlanId)
    requires EntryInv(t, id) && JobRestsIn(t, id)
    ensures ClaimsRest(t, id)
  {
    if id in t.jobs && (t.jobs[id].status.Pending? || t.jobs[id].status.RetryWait?) { WaitingClaimsRestIff(t, id); }
  }

  lemma RetryJob(s: System, claim: Claim, work: Work, id: PlanId)
    requires Inv(s) && Working(s, claim, work) && Decide(claim, work).Retry? && id in s.tables.jobs
    ensures var next := AfterRetry(s, claim, Decide(claim, work)).tables;
      && id in next.jobs && next.plans == s.tables.plans
      && (match Added(s, RetryEvent(claim, work), id)
          case None => next.jobs[id] == s.tables.jobs[id]
          case Some(receipt) =>
            && receipt.status.RetryableFailure? && next.jobs[id].status.RetryWait? && Waiting(next, id)
            && next.jobs[id].nextAttemptAt == Some(receipt.completedAt + 300 * Power2(|Ledger(s.tables.rows, id)|) * SECOND))
  {
    DecisionIsSound(claim, work);
    assert ClaimInv(s.tables, claim) && EntryInv(s.tables, id);
    BackoffDoubles(claim.number);
  }

  lemma CommitJob(s: System, v: Verdict, concluded: Result<Outcome, EvaluationError>, id: PlanId)
    requires Inv(s) && v in s.verdicts && Concludes(v, concluded) && id in s.tables.jobs
    ensures var next := AfterCommit(s, v, concluded).tables;
      && id in next.jobs && next.plans == s.tables.plans
      && (next.jobs[id].status.Terminal() || (next.jobs[id] == s.tables.jobs[id] && Ledger(next.rows, id) == Ledger(s.tables.rows, id)))
  {
    assert VerdictInv(s.tables, v) && EntryInv(s.tables, v.claim.planId);
    CommitAdds(s, v, concluded, id);
  }

  lemma RetriedJobRests(plan: Plan, job: Job, ledger: seq<Attempt>, added: Option<Attempt>, after: Job)
    requires match added
      case None => after == job && JobRests(plan, job, ledger)
      case Some(receipt) =>
        && after.status.RetryWait?
        && after.nextAttemptAt == Some(receipt.completedAt + 300 * Power2(|ledger|) * SECOND)
        && RestsAfterAll(plan, ledger, after.nextAttemptAt.value)
    ensures JobRests(plan, after, ledger + Listed(added))
  {
    match added
    case None => assert ledger + Listed(added) == ledger;
    case Some(receipt) => AppendRestsIff(plan, ledger, receipt);
  }

  lemma RetryKeepsJobRests(s: System, claim: Claim, work: Work, id: PlanId)
    requires Inv(s) && Working(s, claim, work) && Decide(claim, work).Retry? && id in s.tables.jobs && id in s.tables.plans
    requires JobRestsIn(s.tables, id) && EndsRested(s, RetryEvent(claim, work), id)
    ensures JobRestsIn(AfterRetry(s, claim, Decide(claim, work)).tables, id)
  {
    RetryJob(s, claim, work, id);
    RetryAdds(s, claim, work, id);
    RetriedJobRests(s.tables.plans[id], s.tables.jobs[id], Ledger(s.tables.rows, id), Added(s, RetryEvent(claim, work), id),
                    AfterRetry(s, claim, Decide(claim, work)).tables.jobs[id]);
  }

  lemma RequeueKeepsJobRests(plan: Plan, job: Job, ledger: seq<Attempt>, now: Instant, threshold: Instant)
    requires JobRests(plan, job, ledger) && Stale(job, threshold) && threshold <= now
    ensures JobRests(plan, RequeuedJob(job, now), ledger)
  {
    LaterRests(plan, ledger, job.claimedAt.value, now);
  }

  lemma ClaimKeepsJobRests(plan: Plan, job: Job, ledger: seq<Attempt>, now: Instant)
    requires JobRests(plan, job, ledger) && (job.status.Pending? || job.status.RetryWait?) && job.nextAttemptAt.value <= now
    ensures JobRests(plan, ClaimedJob(job, now), ledger)
  {
    LaterRests(plan, ledger, job.nextAttemptAt.value, now);
  }

  lemma ClaimStepKeepsJobRests(s: System, claimed: PlanId, now: Instant, id: PlanId)
    requires EntryInv(s.tables, id) && id in s.tables.jobs && JobRestsIn(s.tables, id)
    ensures JobRestsIn(Step(s, ClaimEvent(claimed, now)).tables, id)
  {
    if Due(s.tables, claimed, now) && claimed == id {
      ClaimKeepsJobRests(s.tables.plans[id], s.tables.jobs[id], Ledger(s.tables.rows, id), now);
    }
  }

  lemma RequeueStepKeepsJobRests(s: System, now: Instant, leaseSeconds: int, id: PlanId)
    requires EntryInv(s.tables, id) && id in s.tables.jobs && JobRestsIn(s.tables, id)
    ensures JobRestsIn(Step(s, RequeueEvent(now, leaseSeconds)).tables, id)
  {
    if 60 <= leaseSeconds <= 7_200 && Stale(s.tables.jobs[id], now - leaseSeconds * SECOND) {
      RequeueKeepsJobRests(s.tables.plans[id], s.tables.jobs[id], Ledger(s.tables.rows, id), now, now - leaseSeconds * SECOND);
    }
  }

  lemma EnrollStepKeepsJobRests(s: System, plan: Plan, now: Instant, id: PlanId)
    requires EntryInv(s.tables, id) && id in s.tables.jobs && JobRestsIn(s.tables, id)
    ensures JobRestsIn(Step(s, EnrollEvent(plan, now)).tables, id)
  {
  }

  lemma CommitStepKeepsJobRests(s: System, v: Verdict, concluded: Result<Outcome, EvaluationError>, id: PlanId)
    requires Inv(s) && v in s.verdicts && Concludes(v, concluded) && id in s.tables.jobs && JobRestsIn(s.tables, id)
    ensures JobRestsIn(AfterCommit(s, v, concluded).tables, id)
  {
    CommitJob(s, v, concluded, id);
  }

  lemma StepKeepsJobRests(s: System, e: Event, id: PlanId)
    requires Inv(s) && JobRestsIn(s.tables, id) && EndsRested(s, e, id)
    ensures JobRestsIn(Step(s, e).tables, id)
  {
    assert EntryInv(s.tables, id);
    if id !in s.tables.jobs {
      NewJobRests(s, e, id);
    } else {
      match e
      case EnrollEvent(plan, now) => EnrollStepKeepsJobRests(s, plan, now, id);
      case ClaimEvent(claimed, now) => ClaimStepKeepsJobRests(s, claimed, now, id);
      case RequeueEvent(now, leaseSeconds) => RequeueStepKeepsJobRests(s, now, leaseSeconds, id);
      case RetryEvent(claim, work) =>
        if Working(s, claim, work) && Decide(claim, work).Retry? { RetryKeepsJobRests(s, claim, work, id); }
      case ReadEvent(_, _) =>
      case CommitEvent(v) =>
        if v in s.verdicts {
          ConcludeFacts(v);
          CommitStepKeepsJobRests(s, v, Concluded(v), id);
        }
    }
  }

  lemma NewJobRests(s: System, e: Event, id: PlanId)
    requires Inv(s) && id !in s.tables.jobs
    ensures JobRestsIn(Step(s, e).tables, id)
  {
    assert EntryInv(s.tables, id);
    StepKeepsInv(s, e);
    StepAdds(s, e, id);
    if Added(s, e, id).Some? { AddedIsNumbered(s, e, id); }
    assert Ledger(Step(s, e).tables.rows, id) == [];
    if id in Step(s, e).tables.jobs { OnlyEnrollmentAddsJobs(s, e, id); }
  }

  lemma OnlyEnrollmentAddsJobs(s: System, e: Event, id: PlanId)
    requires Inv(s) && id !in s.tables.jobs && id in Step(s, e).tables.jobs
    ensures e.EnrollEvent? && e.plan.Id() == id
    ensures var t := Step(s, e).tables;
      t.jobs[id].status.Pending? && id in t.plans && t.jobs[id].nextAttemptAt.Some?
      && t.jobs[id].nextAttemptAt.value >= t.plans[id].targetCloseAt + 12 * HOUR
  {
    assert EntryInv(s.tables, id);
  }

  lemma RetriedClaimsRest(s: System, claim: Claim, work: Work, id: PlanId, receipt: Attempt)
    requires Inv(s) && Working(s, claim, work) && Decide(claim, work).Retry?
    requires Added(s, RetryEvent(claim, work), id) == Some(receipt)
    requires ClaimsRest(AfterRetry(s, claim, Decide(claim, work)).tables, id)
    ensures id in s.tables.plans
    ensures RestsAfterAll(s.tables.plans[id], Ledger(s.tables.rows, id),
                          receipt.completedAt + 300 * Power2(|Ledger(s.tables.rows, id)|) * SECOND)
  {
    assert EntryInv(s.tables, id);
    RetryJob(s, claim, work, id);
    RetryAdds(s, claim, work, id);
    WaitingClaimsRestIff(AfterRetry(s, claim, Decide(claim, work)).tables, id);
    AppendRestsIff(s.tables.plans[id], Ledger(s.tables.rows, id), receipt);
  }

  /** A retry after which the job cannot be claimed too early asked for a rested time. */
  lemma RestedAfterRetry(s: System, e: Event, id: PlanId)
    requires Inv(s) && ClaimsRest(Step(s, e).tables, id)
    ensures EndsRested(s, e, id)
  {
    if Added(s, e, id).Some? && Added(s, e, id).value.status.RetryableFailure? {
      match e
      case RetryEvent(claim, work) =>
        RetriedClaimsRest(s, claim, work, id, Added(s, e, id).value);
      case CommitEvent(v) => CommittedIsFinal(s, v, Concluded(v));
    }
  }

  /** A worker commits an outcome only with a receipt that is not to be retried. */
  lemma CommittedIsFinal(s: System, v: Verdict, concluded: Result<Outcome, EvaluationError>)
    requires concluded == Concluded(v) && concluded.Ok?
    ensures !v.receipt.status.RetryableFailure?
  {
    assert concluded.value.Valid() && concluded.value.attempts == v.ledger + [v.receipt];
  }

  ghost predicate ClaimsAlwaysRest(events: seq<Event>, id: PlanId) {
    forall k | 0 <= k <= |events| :: ClaimsRest(Run(INITIAL, events[..k]).tables, id)
  }

  ghost predicate AllEndRested(events: seq<Event>, id: PlanId) {
    forall k | 0 <= k < |events| :: EndsRested(Run(INITIAL, events[..k]), events[k], id)
  }

  lemma {:induction false} RestedEndsKeepJobs(events: seq<Event>, id: PlanId)
    requires AllEndRested(events, id)
    ensures JobRestsIn(Run(INITIAL, events).tables, id)
  {
    if |events| != 0 {
      var n := |events| - 1;
      var front := events[..n];
      forall k | 0 <= k < n ensures EndsRested(Run(INITIAL, front[..k]), front[k], id) {
        assert front[..k] == events[..k];
      }
      RestedEndsKeepJobs(front, id);
      Reachable(front);
      StepKeepsJobRests(Run(INITIAL, front), events[n], id);
    }
  }

  /** Throughout a run, with any clocks: the plan's job is never claimable before twelve hours after its
      target close, nor before the rest after any earlier result, exactly when every worker that committed
      a retryable failure of it asked for a next attempt no earlier than that. */
  lemma LaterClaimsRespectBackoffIff(events: seq<Event>, id: PlanId)
    ensures ClaimsAlwaysRest(events, id) <==> AllEndRested(events, id)
  {
    if AllEndRested(events, id) {
      forall k | 0 <= k <= |events| ensures ClaimsRest(Run(INITIAL, events[..k]).tables, id) {
        var front := events[..k];
        forall j | 0 <= j < k ensures EndsRested(Run(INITIAL, front[..j]), front[j], id) {
          assert front[..j] == events[..j];
        }
        RestedEndsKeepJobs(front, id);
        Reachable(front);
        assert EntryInv(Run(INITIAL, front).tables, id);
        RestedJobsRest(Run(INITIAL, front).tables, id);
      }
    }
    if ClaimsAlwaysRest(events, id) {
      forall k | 0 <= k < |events| ensures EndsRested(Run(INITIAL, events[..k]), events[k], id) {
        Reachable(events[..k]);
        assert events[..k + 1][..k] == events[..k];
        assert Run(INITIAL, events[..k + 1]) == Step(Run(INITIAL, events[..k]), events[k]);
        RestedAfterRetry(Run(INITIAL, events[..k]), events[k], id);
      }
    }
  }

  lemma {:induction false} LedgerTimes(plan: Plan, ledger: seq<Attempt>, k: nat)
    requires LedgerInv(plan, ledger) && Spaced(plan, ledger) && k < |ledger| <= 6
    ensures plan.targetCloseAt + 12 * HOUR <= ledger[k].startedAt <= ledger[k].completedAt
    ensures ledger[k].completedAt + Backoff(k + 1) <= Earliest(plan, ledger)
  {
    var n := |ledger| - 1;
    assert RowInv(plan, ledger, n) && StartedRested(plan, ledger, n);
    var front := ledger[..n];
    RestedIff(plan, front, ledger[n].startedAt);
    forall i | 0 <= i < |front| ensures RowInv(plan, front, i) && StartedRested(plan, front, i) {
      assert RowInv(plan, ledger, i) && StartedRested(plan, ledger, i);
      assert front[..i] == ledger[..i];
    }
    if k < n {
      LedgerTimes(plan, front, k);
    } else if n > 0 {
      LedgerTimes(plan, front, n - 1);
    }
  }

  /** In particular when the workers started rested: no claim before twelve hours after the target close,
      nor before the rest after any earlier result. */
  lemma LaterClaimsRespectBackoff(events: seq<Event>, id: PlanId)
    requires AllStartRested(events, id)
    ensures ClaimsRest(Run(INITIAL, events).tables, id)
  {
    LedgerIsSpacedIff(events, id);
    Reachable(events);
    var t := Run(INITIAL, events).tables;
    assert EntryInv(t, id);
    forall at | Due(t, id, at) ensures RestsAfterAll(t.plans[id], Ledger(t.rows, id), at) {
      SpacedLedgerRests(t.plans[id], Ledger(t.rows, id), at);
    }
  }

  lemma SpacedLedgerRests(plan: Plan, ledger: seq<Attempt>, at: Instant)
    requires LedgerInv(plan, ledger) && Spaced(plan, ledger) && |ledger| <= 5 && at >= Earliest(plan, ledger)
    ensures RestsAfterAll(plan, ledger, at)
  {
    if |ledger| > 0 { LedgerTimes(plan, ledger, 0); }
    forall k | 0 <= k < |ledger| ensures RestsAfter(ledger, k, at) {
      LedgerTimes(plan, ledger, k);
      BackoffDoubles(k + 1);
    }
  }

  /** Exactly when a committed retry leaves a job that cannot be claimed before twelve hours after its
      target close: when the worker's own clock, at the end of the attempt, is late enough. */
  lemma RetryKeepsTwelveHoursIff(t: Tables, id: PlanId, attempt: Attempt, now: Instant, after: Tables)
    requires TablesInv(t) && id in t.plans && 1 <= attempt.number
    requires RetryWithAttempt(t, id, attempt, now, attempt.completedAt + Backoff(attempt.number)) == Ok(after)
    ensures (forall at | Due(after, id, at) :: at >= t.plans[id].targetCloseAt + 12 * HOUR)
       <==> attempt.completedAt + 300 * Power2(attempt.number - 1) * SECOND >= t.plans[id].targetCloseAt + 12 * HOUR
  {
    BackoffDoubles(attempt.number);
    var next := attempt.completedAt + Backoff(attempt.number);
    var first := Larger(next, t.plans[id].targetCloseAt);
    assert Due(after, id, first);
  }

  /** A one-session plan of `span` days, enrolled when it was published. */
  function SamplePlan(span: Day): (plan: Plan)
    requires 0 < span
    ensures plan.Valid() && (span <= 90 <==> WindowFits(plan))
  {
    Plan(0, 0, Listing("A", "XNYS"), Listing("B", "XNYS"), "USD", 0, 0, 1, T1, span, 1 + span, GenuineForward)
  }

  /** A provider that cannot be reached, and a clock that stands still. */
  function UnreachableWork(attemptId: nat, at: Instant): Work {
    Work(attemptId, at, TransportError, TransportError, at, at)
  }

  /** When a plan enrolled with its publication is first due. */
  function DueAt(plan: Plan): Instant { Larger(plan.enrolledAt, plan.targetCloseAt + 12 * HOUR) }

  /** A fresh plan once it is enrolled and claimed, twelve hours after its target close. */
  lemma FirstClaim(plan: Plan, due: Instant)
    requires plan.Valid() && due == DueAt(plan)
    ensures var s := Step(Step(INITIAL, EnrollEvent(plan, plan.enrolledAt)), ClaimEvent(plan.Id(), due));
      && Claim(plan.Id(), plan, 1, due) in s.claims && s.issued == {}
      && Fence(s.tables, plan.Id(), 1) && s.tables.plans == map[plan.Id() := plan]
  {
    var t := Step(INITIAL, EnrollEvent(plan, plan.enrolledAt)).tables;
    assert Due(t, plan.Id(), due);
  }

  // ----- how far a clock may be set back -----

  lemma UnreachableRetries(claim: Claim, attemptId: nat, at: Instant)
    requires 1 <= claim.number <= 5 && WindowFits(claim.plan)
    ensures var d := Decide(claim, UnreachableWork(attemptId, at));
      d.Retry? && d.receipt.startedAt == at == d.receipt.completedAt && d.receipt.attemptId == attemptId
  {
  }

  /** Every retry that reads its start at most `d` before its claim keeps the plan's attempts spaced exactly
      when the claim had rested for at least `d` longer than it had to. */
  lemma SetBackToleranceIff(s: System, claim: Claim, d: Instant)
    requires Inv(s) && SpacedIn(s.tables, claim.planId)
    requires claim in s.claims && Fence(s.tables, claim.planId, claim.number)
    requires claim.number <= 5 && WindowFits(claim.plan)
    ensures (forall work | Working(s, claim, work) && Decide(claim, work).Retry? && claim.claimedAt - d <= work.startedAt ::
               SpacedIn(Step(s, RetryEvent(claim, work)).tables, claim.planId))
       <==> d <= claim.claimedAt - Earliest(claim.plan, Ledger(s.tables.rows, claim.planId))
  {
    var ledger := Ledger(s.tables.rows, claim.planId);
    assert ClaimInv(s.tables, claim);
    FencedClaimHasRested(s.tables, claim);
    forall work | Working(s, claim, work) && Decide(claim, work).Retry?
      ensures SpacedIn(Step(s, RetryEvent(claim, work)).tables, claim.planId)
         <==> work.startedAt >= Earliest(claim.plan, ledger)
    {
      RetrySpacedIff(s, claim, work);
    }
    FreshIdExists(s.issued);
    var receiptId: nat :| receiptId !in s.issued;
    UnreachableRetries(claim, receiptId, claim.claimedAt - d);
    var least := UnreachableWork(receiptId, claim.claimedAt - d);
    assert Working(s, claim, least) && Decide(claim, least).Retry?;
  }

  lemma RetrySpacedIff(s: System, claim: Claim, work: Work)
    requires Inv(s) && SpacedIn(s.tables, claim.planId)
    requires Working(s, claim, work) && Decide(claim, work).Retry? && Fence(s.tables, claim.planId, claim.number)
    ensures SpacedIn(Step(s, RetryEvent(claim, work)).tables, claim.planId)
       <==> work.startedAt >= Earliest(claim.plan, Ledger(s.tables.rows, claim.planId))
  {
    assert ClaimInv(s.tables, claim);
    FencedClaimHasRested(s.tables, claim);
    DecisionIsSound(claim, work);
    StepSpacedIff(s, RetryEvent(claim, work), claim.planId);
    RestedIff(claim.plan, Ledger(s.tables.rows, claim.planId), work.startedAt);
  }

  // ----- runs with a clock that is set back -----

  /** On any plan: a worker whose clock goes back to the target close after its claim commits a failure
      that lets the job be claimed again five minutes after the target close, not twelve hours. */
  lemma SetBackClockBreaksTwelveHours(plan: Plan)
    requires plan.Valid() && WindowFits(plan)
    ensures var due := DueAt(plan);
      var events := [EnrollEvent(plan, plan.enrolledAt), ClaimEvent(plan.Id(), due),
                     RetryEvent(Claim(plan.Id(), plan, 1, due), UnreachableWork(0, plan.targetCloseAt))];
      && !StartsFollowClaims(events)
      && Due(Run(INITIAL, events).tables, plan.Id(), plan.targetCloseAt + 300 * SECOND)
  {
    var due := DueAt(plan);
    var claim, work := Claim(plan.Id(), plan, 1, due), UnreachableWork(0, plan.targetCloseAt);
    var a, b, c := EnrollEvent(plan, plan.enrolledAt), ClaimEvent(plan.Id(), due), RetryEvent(claim, work);
    RunThree(INITIAL, a, b, c);
    assert !StartsAfterClaim([a, b, c][2]);
    FirstClaim(plan, due);
    BackoffDoubles(1);
    assert Decide(claim, work).Retry?;
  }

  /** What an attempt against an unreachable provider leaves behind. */
  lemma FailedAttempt(s: System, claim: Claim, receiptId: nat, at: Instant)
    requires Inv(s) && claim in s.claims && receiptId !in s.issued && claim.number <= 5 && WindowFits(claim.plan)
    requires Fence(s.tables, claim.planId, claim.number)
    ensures var next := Step(s, RetryEvent(claim, UnreachableWork(receiptId, at)));
      && Inv(next) && next.issued == s.issued + {receiptId} && next.tables.plans == s.tables.plans
      && claim.planId in next.tables.jobs && next.tables.jobs[claim.planId].status.RetryWait?
      && next.tables.jobs[claim.planId].attempts == claim.number
      && next.tables.jobs[claim.planId].nextAttemptAt == Some(at + 300 * Power2(claim.number - 1) * SECOND)
      && |Ledger(next.tables.rows, claim.planId)| == claim.number
      && Ledger(next.tables.rows, claim.planId)[..claim.number - 1] == Ledger(s.tables.rows, claim.planId)
      && Ledger(next.tables.rows, claim.planId)[claim.number - 1].startedAt == at
      && Ledger(next.tables.rows, claim.planId)[claim.number - 1].completedAt == at
  {
    var work := UnreachableWork(receiptId, at);
    assert ClaimInv(s.tables, claim);
    UnreachableRetries(claim, receiptId, at);
    FencedClaimHasRested(s.tables, claim);
    StepKeepsInv(s, RetryEvent(claim, work));
    RetryAdds(s, claim, work, claim.planId);
    RetryJob(s, claim, work, claim.planId);
  }

  lemma SetBackAttempt(s: System, claim: Claim, receiptId: nat, end: Instant)
    requires Inv(s) && claim in s.claims && receiptId !in s.issued && claim.number == 2 && WindowFits(claim.plan)
    requires Fence(s.tables, claim.planId, 2)
    requires var before := Ledger(s.tables.rows, claim.planId); |before| == 1 && before[0].completedAt == end
    ensures var t := Step(s, RetryEvent(claim, UnreachableWork(receiptId, end - 1))).tables;
      var ledger := Ledger(t.rows, claim.planId);
      && t.plans == s.tables.plans
      && |ledger| == 2 && ledger[1].startedAt < ledger[0].completedAt && !Spaced(claim.plan, ledger)
  {
    FailedAttempt(s, claim, receiptId, end - 1);
    var ledger := Ledger(Step(s, RetryEvent(claim, UnreachableWork(receiptId, end - 1))).tables.rows, claim.planId);
    assert ledger[..1][0] == ledger[0];
    assert !StartedRested(claim.plan, ledger, 1);
  }

  /** Enroll, claim, fail at once, and claim again five minutes later. */
  function TwoClaims(plan: Plan): seq<Event> {
    [EnrollEvent(plan, plan.enrolledAt), ClaimEvent(plan.Id(), DueAt(plan)),
     RetryEvent(Claim(plan.Id(), plan, 1, DueAt(plan)), UnreachableWork(0, DueAt(plan))),
     ClaimEvent(plan.Id(), DueAt(plan) + 300 * SECOND)]
  }

  function SecondClaim(plan: Plan): Claim { Claim(plan.Id(), plan, 2, DueAt(plan) + 300 * SECOND) }

  /** Then fail again, with a clock set back behind the first failure. */
  function SetBackRun(plan: Plan): seq<Event> {
    TwoClaims(plan) + [RetryEvent(SecondClaim(plan), UnreachableWork(1, DueAt(plan) - 1))]
  }

  lemma FirstFailure(plan: Plan)
    requires plan.Valid() && WindowFits(plan)
    ensures var e := TwoClaims(plan); var s := Run(INITIAL, [e[0], e[1], e[2]]);
      && Inv(s) && s.issued == {0} && s.tables.plans == map[plan.Id() := plan]
      && Due(s.tables, plan.Id(), DueAt(plan) + 300 * SECOND) && s.tables.jobs[plan.Id()].attempts == 1
      && |Ledger(s.tables.rows, plan.Id())| == 1 && Ledger(s.tables.rows, plan.Id())[0].completedAt == DueAt(plan)
  {
    var e := TwoClaims(plan);
    RunThree(INITIAL, e[0], e[1], e[2]);
    FirstClaim(plan, DueAt(plan));
    StepKeepsInv(INITIAL, e[0]);
    StepKeepsInv(Step(INITIAL, e[0]), e[1]);
    FailedAttempt(Step(Step(INITIAL, e[0]), e[1]), Claim(plan.Id(), plan, 1, DueAt(plan)), 0, DueAt(plan));
  }

  lemma ClaimedAgain(s: System, plan: Plan, now: Instant)
    requires Inv(s) && Due(s.tables, plan.Id(), now) && s.tables.plans == map[plan.Id() := plan]
    ensures var next := Step(s, ClaimEvent(plan.Id(), now)); var number := s.tables.jobs[plan.Id()].attempts + 1;
      && Inv(next) && Claim(plan.Id(), plan, number, now) in next.claims && next.issued == s.issued
      && Fence(next.tables, plan.Id(), number)
      && next.tables.plans == s.tables.plans && next.tables.rows == s.tables.rows
  {
    StepKeepsInv(s, ClaimEvent(plan.Id(), now));
  }

  lemma ClaimedTwice(plan: Plan)
    requires plan.Valid() && WindowFits(plan)
    ensures var s := Run(INITIAL, TwoClaims(plan));
      && Inv(s) && SecondClaim(plan) in s.claims && s.issued == {0}
      && Fence(s.tables, plan.Id(), 2) && s.tables.plans == map[plan.Id() := plan]
      && |Ledger(s.tables.rows, plan.Id())| == 1 && Ledger(s.tables.rows, plan.Id())[0].completedAt == DueAt(plan)
  {
    var e := TwoClaims(plan);
    FirstFailure(plan);
    assert e == [e[0], e[1], e[2]] + [e[3]];
    RunSnoc(INITIAL, [e[0], e[1], e[2]], e[3]);
    ClaimedAgain(Run(INITIAL, [e[0], e[1], e[2]]), plan, DueAt(plan) + 300 * SECOND);
  }

  /** On any plan: that run's second attempt starts before the first one ended. */
  lemma SetBackClockBreaksSpacing(plan: Plan)
    requires plan.Valid() && WindowFits(plan)
    ensures var t := Run(INITIAL, SetBackRun(plan)).tables; var ledger := Ledger(t.rows, plan.Id());
      && t.plans == map[plan.Id() := plan]
      && |ledger| == 2 && ledger[1].startedAt < ledger[0].completedAt
      && !Spaced(plan, ledger)
  {
    ClaimedTwice(plan);
    RunSnoc(INITIAL, TwoClaims(plan), RetryEvent(SecondClaim(plan), UnreachableWork(1, DueAt(plan) - 1)));
    SetBackAttempt(Run(INITIAL, TwoClaims(plan)), SecondClaim(plan), 1, DueAt(plan));
  }

  lemma SpacingCanBreak()
    ensures exists events, id :: !SpacedIn(Run(INITIAL, events).tables, id)
  {
    SetBackClockBreaksSpacing(SamplePlan(1));
    assert !SpacedIn(Run(INITIAL, SetBackRun(SamplePlan(1))).tables, SamplePlan(1).Id());
  }

  lemma TwelveHoursCanBreak()
    ensures exists events, id, now :: (var t := Run(INITIAL, events).tables;
      Due(t, id, now) && now < t.plans[id].targetCloseAt + 12 * HOUR)
  {
    var plan := SamplePlan(1);
    var due := DueAt(plan);
    var events := [EnrollEvent(plan, plan.enrolledAt), ClaimEvent(plan.Id(), due),
                   RetryEvent(Claim(plan.Id(), plan, 1, due), UnreachableWork(0, plan.targetCloseAt))];
    SetBackClockBreaksTwelveHours(plan);
    ReachablePlanKept(events, plan);
    assert Due(Run(INITIAL, events).tables, plan.Id(), plan.targetCloseAt + 300 * SECOND);
  }

  lemma ReachablePlanKept(events: seq<Event>, plan: Plan)
    requires plan.Valid() && |events| > 0 && events[0] == EnrollEvent(plan, plan.enrolledAt)
    ensures plan.Id() in Run(INITIAL, events).tables.plans && Run(INITIAL, events).tables.plans[plan.Id()] == plan
  {
    assert events == [events[0]] + events[1..];
    RunConcat(INITIAL, [events[0]], events[1..]);
    RunOne(INITIAL, events[0]);
    Reachable([events[0]]);
    RunKeepsInv(Run(INITIAL, [events[0]]), events[1..]);
  }
}
