/** The job store: plans, their jobs, the append-only attempt ledger and the terminal outcomes.
    Each operation is one transaction; an error leaves every table as it was. */
module ProspectiveStore {
  import opened Calendar
  import opened Outcomes
  import opened Ordering
  import opened ProspectiveContracts

  datatype JobStatus = Pending | Processing | RetryWait | Completed | DataUnavailable
  {
    predicate Terminal() { Completed? || DataUnavailable? }
  }

  datatype JobError = AttemptFailed(code: ErrorCode) | LeaseExpired

  datatype Job = Job(
    status: JobStatus,
    attempts: int,
    claimedAt: Option<Instant>,
    nextAttemptAt: Option<Instant>,
    lastError: Option<JobError>,
    updatedAt: Instant)

  datatype AttemptRow = AttemptRow(planId: PlanId, attempt: Attempt)

  datatype Claim = Claim(planId: PlanId, plan: Plan, number: int, claimedAt: Instant)

  datatype StoreError = NotRetryable | ReceiptNotRetryable | NotProcessing | ReceiptNotFinal | LeaseOutOfRange

  /** The contents of the four tables. */
  datatype Tables = Tables(
    plans: map<PlanId, Plan>,
    jobs: map<PlanId, Job>,
    rows: seq<AttemptRow>,
    outcomes: seq<Outcome>)

  const EMPTY := Tables(map[], map[], [], [])

  /** The attempt records of one plan in the order they were inserted. */
  function Ledger(rows: seq<AttemptRow>, id: PlanId): (ledger: seq<Attempt>) {
    if |rows| == 0 then []
    else
      Ledger(rows[..|rows| - 1], id)
      + if rows[|rows| - 1].planId == id then [rows[|rows| - 1].attempt] else []
  }

  /** The outcomes of one plan in the order they were inserted. */
  function OutcomesOf(outcomes: seq<Outcome>, id: PlanId): (found: seq<Outcome>) {
    if |outcomes| == 0 then []
    else
      OutcomesOf(outcomes[..|outcomes| - 1], id)
      + if outcomes[|outcomes| - 1].plan.Id() == id then [outcomes[|outcomes| - 1]] else []
  }

  predicate NumberLeq(a: Attempt, b: Attempt) { a.number <= b.number }

  /** `SELECT record ... WHERE plan_id = ... ORDER BY attempt_number`. */
  function AttemptsForPlan(t: Tables, id: PlanId): seq<Attempt> { Sort(Ledger(t.rows, id), NumberLeq) }

  // ----- the transactions as functions of the tables -----

  function Enroll(t: Tables, plan: Plan, now: Instant): Tables {
    if plan.Id() in t.plans then t
    else
      t.(plans := t.plans[plan.Id() := plan],
         jobs := t.jobs[plan.Id() := Job(Pending, 0, None, Some(Larger(now, plan.targetCloseAt + 12 * HOUR)), None, now)])
  }

  predicate Due(t: Tables, id: PlanId, now: Instant) {
    && id in t.jobs && id in t.plans
    && (t.jobs[id].status.Pending? || t.jobs[id].status.RetryWait?)
    && t.jobs[id].attempts < 6
    && t.jobs[id].nextAttemptAt.Some? && t.jobs[id].nextAttemptAt.value <= now
    && t.plans[id].targetCloseAt <= now
  }

  function ClaimedJob(job: Job, now: Instant): Job { Job(Processing, job.attempts, Some(now), None, None, now) }

  function TakeClaim(t: Tables, id: PlanId, now: Instant): (Tables, Claim)
    requires Due(t, id, now)
  {
    (t.(jobs := t.jobs[id := ClaimedJob(t.jobs[id], now)]),
     Claim(id, t.plans[id], t.jobs[id].attempts + 1, now))
  }

  /** The guard of both result statements: `status = 'processing' AND attempts = number - 1`. */
  predicate Fence(t: Tables, id: PlanId, number: int) {
    id in t.jobs && t.jobs[id].status.Processing? && t.jobs[id].attempts == number - 1
  }

  function RetryWithAttempt(t: Tables, id: PlanId, attempt: Attempt, now: Instant, next: Instant):
    Result<Tables, StoreError>
  {
    if attempt.errorCode.None? || attempt.number >= 6 then Err(ReceiptNotRetryable)
    else if !Fence(t, id, attempt.number) then Err(NotRetryable)
    else Ok(t.(rows := t.rows + [AttemptRow(id, attempt)],
               jobs := t.jobs[id := Job(RetryWait, attempt.number, None, Some(next), Some(AttemptFailed(attempt.errorCode.value)), now)]))
  }

  function TerminalStatus(outcome: Outcome): JobStatus {
    if outcome.status.OutcomeCompleted? then Completed else DataUnavailable
  }

  function CompleteWithAttempt(t: Tables, outcome: Outcome, attempt: Attempt): Result<Tables, StoreError>
    requires outcome.attempts != []
  {
    var id := outcome.plan.Id();
    if outcome.attempts[|outcome.attempts| - 1] != attempt then Err(ReceiptNotFinal)
    else if !Fence(t, id, attempt.number) then Err(NotProcessing)
    else Ok(t.(rows := t.rows + [AttemptRow(id, attempt)],
               outcomes := t.outcomes + [outcome],
               jobs := t.jobs[id := Job(TerminalStatus(outcome), attempt.number, None, None, None, outcome.appendedAt)]))
  }

  predicate Stale(job: Job, threshold: Instant) {
    job.status.Processing? && job.claimedAt.Some? && job.claimedAt.value <= threshold && job.attempts < 6
  }

  function RequeuedJob(job: Job, now: Instant): Job { Job(RetryWait, job.attempts, None, Some(now), Some(LeaseExpired), now) }

  function RequeueStale(t: Tables, now: Instant, leaseSeconds: int): Result<Tables, StoreError> {
    if !(60 <= leaseSeconds <= 7_200) then Err(LeaseOutOfRange)
    else Ok(t.(jobs := map id | id in t.jobs ::
                         if Stale(t.jobs[id], now - leaseSeconds * SECOND) then RequeuedJob(t.jobs[id], now)
                         else t.jobs[id]))
  }

  // ----- the order in which due jobs are claimed -----

  function HorizonSessions(horizon: Horizon): int {
    match horizon case T1 => 1 case T5 => 5 case T20 => 20
  }

  /** `ORDER BY target_session_close_at, publication_id, horizon`. */
  predicate ClaimsBefore(a: Plan, b: Plan) {
    || a.targetCloseAt < b.targetCloseAt
    || (a.targetCloseAt == b.targetCloseAt
        && (a.publicationId < b.publicationId
            || (a.publicationId == b.publicationId && HorizonSessions(a.horizon) <= HorizonSessions(b.horizon))))
  }

  // ----- the store object -----

  class OutcomeStore {
    var plans: map<PlanId, Plan>
    var jobs: map<PlanId, Job>
    var rows: seq<AttemptRow>
    var outcomes: seq<Outcome>

    ghost function Contents(): Tables
      reads this
    {
      Tables(plans, jobs, rows, outcomes)
    }

    constructor ()
      ensures Contents() == EMPTY
    {
      plans, jobs, rows, outcomes := map[], map[], [], [];
    }

    method EnrollPlan(plan: Plan, now: Instant) returns (inserted: bool)
      modifies this
      ensures Contents() == Enroll(old(Contents()), plan, now)
      ensures inserted <==> plan.Id() !in old(plans)
    {
      if plan.Id() in plans { return false; }
      plans := plans[plan.Id() := plan];
      var due := Larger(now, plan.targetCloseAt + 12 * HOUR);
      jobs := jobs[plan.Id() := Job(Pending, 0, None, Some(due), None, now)];
      return true;
    }

    /** Claims the first due job in claim order that no concurrent transaction has locked. */
    method ClaimDue(now: Instant, locked: set<PlanId>) returns (claimed: Option<Claim>)
      modifies this
      ensures claimed.None? ==> Contents() == old(Contents())
      ensures claimed.None? ==> forall id :: Due(old(Contents()), id, now) ==> id in locked
      ensures claimed.Some? ==>
        && Due(old(Contents()), claimed.value.planId, now)
        && claimed.value.planId !in locked
        && (Contents(), claimed.value) == TakeClaim(old(Contents()), claimed.value.planId, now)
      ensures claimed.Some? ==>
        forall id :: Due(old(Contents()), id, now) && id !in locked ==>
          var first, plan := claimed.value.plan, old(plans)[id];
          || first.targetCloseAt < plan.targetCloseAt
          || (first.targetCloseAt == plan.targetCloseAt && first.publicationId < plan.publicationId)
          || (&& first.targetCloseAt == plan.targetCloseAt && first.publicationId == plan.publicationId
              && (first.horizon == plan.horizon || first.horizon == T1 || plan.horizon == T20))
    {
      var rest := jobs.Keys - locked;
      var best: Option<PlanId> := None;
      while rest != {}
        invariant rest <= jobs.Keys - locked
        invariant best.Some? ==> Due(Contents(), best.value, now) && best.value !in locked
        invariant forall id :: Due(Contents(), id, now) && id !in locked ==>
                    id in rest || (best.Some? && ClaimsBefore(plans[best.value], plans[id]))
        decreases |rest|
      {
        var id :| id in rest;
        rest := rest - {id};
        if && id in plans
           && (jobs[id].status.Pending? || jobs[id].status.RetryWait?)
           && jobs[id].attempts < 6
           && jobs[id].nextAttemptAt.Some? && jobs[id].nextAttemptAt.value <= now
           && plans[id].targetCloseAt <= now
        {
          if best.None? || !ClaimsBefore(plans[best.value], plans[id]) { best := Some(id); }
        }
      }
      if best.None? { return None; }
      var id := best.value;
      var number := jobs[id].attempts + 1;
      jobs := jobs[id := Job(Processing, jobs[id].attempts, Some(now), None, None, now)];
      return Some(Claim(id, plans[id], number, now));
    }

    /** Inserts the receipt, then updates the job; a failed update rolls the insert back. */
    method Retry(id: PlanId, attempt: Attempt, now: Instant, next: Instant) returns (error: Option<StoreError>)
      modifies this
      ensures RetryWithAttempt(old(Contents()), id, attempt, now, next)
           == if error.None? then Ok(Contents()) else Err(error.value)
      ensures error.Some? ==> Contents() == old(Contents())
    {
      if attempt.errorCode.None? || attempt.number >= 6 { return Some(ReceiptNotRetryable); }
      var saved := rows;
      rows := rows + [AttemptRow(id, attempt)];
      if id in jobs && jobs[id].status.Processing? && jobs[id].attempts == attempt.number - 1 {
        jobs := jobs[id := Job(RetryWait, attempt.number, None, Some(next), Some(AttemptFailed(attempt.errorCode.value)), now)];
        return None;
      }
      rows := saved;
      return Some(NotRetryable);
    }

    method Attempts(id: PlanId) returns (attempts: seq<Attempt>)
      ensures attempts == AttemptsForPlan(Contents(), id)
      ensures multiset(attempts) == multiset(Ledger(rows, id))
      ensures forall i, j | 0 <= i < j < |attempts| :: attempts[i].number <= attempts[j].number
    {
      var selected := [];
      for i := 0 to |rows|
        invariant selected == Ledger(rows[..i], id)
      {
        assert rows[..i + 1][..i] == rows[..i];
        if rows[i].planId == id { selected := selected + [rows[i].attempt]; }
      }
      assert rows[..|rows|] == rows;
      attempts := Sort(selected, NumberLeq);
      SortSorts(selected, NumberLeq);
      forall i, j | 0 <= i < j < |attempts| ensures attempts[i].number <= attempts[j].number {
        assert NumberLeq(attempts[i], attempts[j]);
      }
    }

    method Complete(outcome: Outcome, attempt: Attempt) returns (error: Option<StoreError>)
      requires outcome.attempts != []
      modifies this
      ensures CompleteWithAttempt(old(Contents()), outcome, attempt)
           == if error.None? then Ok(Contents()) else Err(error.value)
      ensures error.Some? ==> Contents() == old(Contents())
    {
      var id := outcome.plan.Id();
      if outcome.attempts[|outcome.attempts| - 1] != attempt { return Some(ReceiptNotFinal); }
      var savedRows, savedOutcomes := rows, outcomes;
      rows := rows + [AttemptRow(id, attempt)];
      outcomes := outcomes + [outcome];
      if id in jobs && jobs[id].status.Processing? && jobs[id].attempts == attempt.number - 1 {
        var status := if outcome.status == OutcomeCompleted then Completed else DataUnavailable;
        jobs := jobs[id := Job(status, attempt.number, None, None, None, outcome.appendedAt)];
        return None;
      }
      rows, outcomes := savedRows, savedOutcomes;
      return Some(NotProcessing);
    }

    method Requeue(now: Instant, leaseSeconds: int) returns (result: Result<nat, StoreError>)
      modifies this
      ensures RequeueStale(old(Contents()), now, leaseSeconds)
           == match result case Ok(_) => Ok(Contents()) case Err(error) => Err(error)
      ensures result.Err? ==> Contents() == old(Contents())
      ensures result.Ok? ==>
        result.value == |set id | id in old(jobs) && Stale(old(jobs)[id], now - leaseSeconds * SECOND)|
    {
      if !(60 <= leaseSeconds <= 7_200) { return Err(LeaseOutOfRange); }
      var threshold := now - leaseSeconds * SECOND;
      var stale := set id | && id in jobs && jobs[id].status.Processing? && jobs[id].claimedAt.Some?
                            && jobs[id].claimedAt.value <= threshold && jobs[id].attempts < 6;
      jobs := map id | id in jobs ::
                if id in stale then Job(RetryWait, jobs[id].attempts, None, Some(now), Some(LeaseExpired), now)
                else jobs[id];
      assert stale == set id | id in old(jobs) && Stale(old(jobs)[id], threshold);
      assert jobs == map id | id in old(jobs) ::
                       if Stale(old(jobs)[id], threshold) then RequeuedJob(old(jobs)[id], now) else old(jobs)[id];
      return Ok(|stale|);
    }
  }

  // ----- facts about the tables -----

  lemma LedgerOfAppend(rows: seq<AttemptRow>, row: AttemptRow, id: PlanId)
    ensures Ledger(rows + [row], id) == Ledger(rows, id) + if row.planId == id then [row.attempt] else []
  {
    assert (rows + [row])[..|rows|] == rows;
  }

  lemma OutcomesOfAppend(outcomes: seq<Outcome>, outcome: Outcome, id: PlanId)
    ensures OutcomesOf(outcomes + [outcome], id)
         == OutcomesOf(outcomes, id) + if outcome.plan.Id() == id then [outcome] else []
  {
    assert (outcomes + [outcome])[..|outcomes|] == outcomes;
  }

  /** Every stored outcome is listed under its own plan. */
  lemma {:induction false} OutcomeIsListed(outcomes: seq<Outcome>, i: nat)
    requires i < |outcomes|
    ensures outcomes[i] in OutcomesOf(outcomes, outcomes[i].plan.Id())
  {
    if i < |outcomes| - 1 { OutcomeIsListed(outcomes[..|outcomes| - 1], i); }
  }
}
