/** The whole system: one store and any number of workers, each of which may be slow, crash, or
    act on a claim whose lease has long expired. A list of events is one interleaving; the
    theorems are about every list. */
module ProspectiveProtocol {
  import opened Calendar
  import opened Outcomes
  import opened Ordering
  import opened ProspectiveContracts
  import opened ProspectiveEvaluator
  import opened ProspectiveStore
  import opened ProspectiveWorker

  /** A finished claim whose worker has read the ledger but not yet committed. */
  datatype Verdict = Verdict(claim: Claim, receipt: Attempt, observations: Observations, ledger: seq<Attempt>)

  /** Claims and verdicts are never withdrawn: a crashed worker is one whose events never come, a
      slow one is one whose events come late, and a claim may even be acted on twice. `issued`
      holds the receipt identifiers drawn so far. */
  datatype System = System(tables: Tables, claims: set<Claim>, verdicts: set<Verdict>, issued: set<nat>)

  const INITIAL := System(EMPTY, {}, {}, {})

  datatype Event =
    | EnrollEvent(plan: Plan, now: Instant)
    | ClaimEvent(planId: PlanId, now: Instant)
    | RequeueEvent(now: Instant, leaseSeconds: int)
    | RetryEvent(claim: Claim, work: Work)
    | ReadEvent(claim: Claim, work: Work)
    | CommitEvent(verdict: Verdict)

  /** A worker holding a claim acts on it, whatever its clock shows and its provider replies; the
      UUID it draws for its receipt is a new one. */
  predicate Working(s: System, claim: Claim, work: Work) {
    claim in s.claims && 1 <= claim.number && work.attemptId !in s.issued
  }

  function AfterRetry(s: System, claim: Claim, d: Decision): System
    requires d.Retry?
  {
    var drawn := s.(issued := s.issued + {d.receipt.attemptId});
    match RetryWithAttempt(s.tables, claim.planId, d.receipt, d.receipt.completedAt, d.nextAttemptAt)
    case Ok(tables) => drawn.(tables := tables)
    case Err(_) => drawn
  }

  function Concluded(v: Verdict): Result<Outcome, EvaluationError> {
    Conclude(v.claim, v.receipt, v.observations, v.ledger)
  }

  function AfterCommit(s: System, v: Verdict, concluded: Result<Outcome, EvaluationError>): System {
    match concluded
    case Err(_) => s
    case Ok(outcome) =>
      if outcome.attempts == [] then s
      else match CompleteWithAttempt(s.tables, outcome, v.receipt)
        case Ok(tables) => s.(tables := tables)
        case Err(_) => s
  }

  /** One atomic step. A step that is not enabled, or whose transaction raises, changes nothing. */
  function Step(s: System, e: Event): System {
    match e
    case EnrollEvent(plan, now) => if plan.Valid() then s.(tables := Enroll(s.tables, plan, now)) else s
    case ClaimEvent(id, now) =>
      if !Due(s.tables, id, now) then s
      else
        var (tables, claim) := TakeClaim(s.tables, id, now);
        s.(tables := tables, claims := s.claims + {claim})
    case RequeueEvent(now, leaseSeconds) =>
      (match RequeueStale(s.tables, now, leaseSeconds)
       case Ok(tables) => s.(tables := tables)
       case Err(_) => s)
    case RetryEvent(claim, work) =>
      if Working(s, claim, work) && Decide(claim, work).Retry? then AfterRetry(s, claim, Decide(claim, work)) else s
    case ReadEvent(claim, work) =>
      if Working(s, claim, work) && Decide(claim, work).Finish? then
        var d := Decide(claim, work);
        s.(verdicts := s.verdicts + {Verdict(claim, d.receipt, d.observations, AttemptsForPlan(s.tables, claim.planId))},
           issued := s.issued + {work.attemptId})
      else s
    case CommitEvent(verdict) => if verdict in s.verdicts then AfterCommit(s, verdict, Concluded(verdict)) else s
  }

  function Run(s: System, events: seq<Event>): System {
    if |events| == 0 then s else Step(Run(s, events[..|events| - 1]), events[|events| - 1])
  }

  lemma {:induction false} RunConcat(s: System, a: seq<Event>, b: seq<Event>)
    ensures Run(s, a + b) == Run(Run(s, a), b)
  {
    if |b| == 0 {
      assert a + b == a;
    } else {
      assert (a + b)[..|a + b| - 1] == a + b[..|b| - 1];
      RunConcat(s, a, b[..|b| - 1]);
    }
  }

  lemma RunOne(s: System, e: Event)
    ensures Run(s, [e]) == Step(s, e)
  {
    assert [e][..0] == [];
    assert Run(s, []) == s;
  }

  lemma RunSnoc(s: System, events: seq<Event>, e: Event)
    ensures Run(s, events + [e]) == Step(Run(s, events), e)
  {
    assert (events + [e])[..|events|] == events;
  }

  lemma RunTwo(s: System, first: Event, second: Event)
    ensures Run(s, [first, second]) == Step(Step(s, first), second)
  {
    var events := [first, second];
    assert events[..1] == [first] && [first][..0] == [];
    assert Run(s, [first]) == Step(Run(s, []), first);
  }

  lemma RunThree(s: System, a: Event, b: Event, c: Event)
    ensures Run(s, [a, b, c]) == Step(Step(Step(s, a), b), c)
  {
    var events := [a, b, c];
    assert events[..2] == [a, b] && [a, b][..1] == [a] && [a][..0] == [];
    assert Run(s, [a]) == Step(Run(s, []), a);
    assert Run(s, [a, b]) == Step(Run(s, [a]), b);
  }

  // ----- the invariant -----

  /** The earliest instant at which a plan with this ledger may be worked on again. */
  function Earliest(plan: Plan, ledger: seq<Attempt>): Instant {
    if |ledger| == 0 then plan.targetCloseAt + 12 * HOUR
    else ledger[|ledger| - 1].completedAt + Backoff(|ledger|)
  }

  ghost predicate LedgerInv(plan: Plan, ledger: seq<Attempt>) {
    forall i | 0 <= i < |ledger| :: RowInv(plan, ledger, i)
  }

  ghost predicate RowInv(plan: Plan, ledger: seq<Attempt>, i: int)
    requires 0 <= i < |ledger|
  {
    && ledger[i].Valid()
    && ledger[i].number == i + 1
    && ledger[i].publicationId == plan.publicationId
    && ledger[i].horizon == plan.horizon
  }

  ghost predicate ShapeInv(plan: Plan, job: Job, ledger: seq<Attempt>) {
    match job.status
    case Pending => job.nextAttemptAt.Some? && job.claimedAt.None? && job.nextAttemptAt.value >= Earliest(plan, ledger)
    case RetryWait => job.nextAttemptAt.Some? && job.claimedAt.None? && job.nextAttemptAt.value >= Earliest(plan, ledger)
    case Processing => job.claimedAt.Some? && job.nextAttemptAt.None? && job.claimedAt.value >= Earliest(plan, ledger)
    case _ => job.claimedAt.None? && job.nextAttemptAt.None?
  }

  ghost predicate OutcomeInv(plan: Plan, job: Job, ledger: seq<Attempt>, outcomes: seq<Outcome>) {
    if job.status.Terminal() then
      && |outcomes| == 1
      && outcomes[0].plan == plan
      && outcomes[0].attempts == ledger
      && job.status == TerminalStatus(outcomes[0])
    else
      && outcomes == []
      && |ledger| <= 5
      && forall a | a in ledger :: a.status.RetryableFailure?
  }

  ghost predicate RecordInv(id: PlanId, plan: Plan, job: Job, ledger: seq<Attempt>, outcomes: seq<Outcome>) {
    && plan.Id() == id && plan.Valid()
    && job.attempts == |ledger| <= 6
    && LedgerInv(plan, ledger)
    && ShapeInv(plan, job, ledger)
    && OutcomeInv(plan, job, ledger, outcomes)
  }

  ghost predicate PlanInv(t: Tables, id: PlanId)
    requires id in t.plans && id in t.jobs
  {
    RecordInv(id, t.plans[id], t.jobs[id], Ledger(t.rows, id), OutcomesOf(t.outcomes, id))
  }

  ghost predicate ClaimInv(t: Tables, c: Claim) {
    && c.planId in t.plans
    && c.plan == t.plans[c.planId]
    && 1 <= c.number <= 6
    && c.number - 1 <= |Ledger(t.rows, c.planId)|
    && c.claimedAt >= Earliest(c.plan, Ledger(t.rows, c.planId)[..c.number - 1])
  }

  ghost predicate VerdictInv(t: Tables, v: Verdict) {
    && ClaimInv(t, v.claim)
    && WindowFits(v.claim.plan)
    && ReceiptFor(v.claim, v.receipt)
    && v.ledger <= Ledger(t.rows, v.claim.planId)
    && v.claim.number - 1 <= |v.ledger|
  }

  /** The per-plan invariant, also for identifiers that are not enrolled. */
  ghost predicate EntryInv(t: Tables, id: PlanId) {
    if id in t.plans && id in t.jobs then PlanInv(t, id)
    else id !in t.plans && id !in t.jobs && Ledger(t.rows, id) == [] && OutcomesOf(t.outcomes, id) == []
  }

  ghost predicate TablesInv(t: Tables) {
    forall id :: EntryInv(t, id)
  }

  ghost predicate Inv(s: System) {
    && TablesInv(s.tables)
    && (forall c | c in s.claims :: ClaimInv(s.tables, c))
    && (forall v | v in s.verdicts :: VerdictInv(s.tables, v))
  }

  /** `next` extends `t`: plans are kept and every ledger only grows. */
  ghost predicate Extends(t: Tables, next: Tables) {
    && (forall id | id in t.plans :: id in next.plans && next.plans[id] == t.plans[id])
    && (forall id :: Ledger(t.rows, id) <= Ledger(next.rows, id))
  }

  lemma HoldersSurvive(s: System, next: Tables)
    requires Inv(s) && Extends(s.tables, next)
    ensures forall c | c in s.claims :: ClaimInv(next, c)
    ensures forall v | v in s.verdicts :: VerdictInv(next, v)
  {
    forall c | ClaimInv(s.tables, c) ensures ClaimInv(next, c) {
      var before, after := Ledger(s.tables.rows, c.planId), Ledger(next.rows, c.planId);
      assert before <= after;
      assert before[..c.number - 1] == after[..c.number - 1];
    }
    forall v | v in s.verdicts ensures VerdictInv(next, v) {
      assert Ledger(s.tables.rows, v.claim.planId) <= Ledger(next.rows, v.claim.planId);
    }
  }

  /** Nothing about `id` differs between the two sets of tables. */
  ghost predicate SameRecord(t: Tables, next: Tables, id: PlanId) {
    && (id in t.plans <==> id in next.plans)
    && (id in t.jobs <==> id in next.jobs)
    && (id in t.plans ==> id in next.plans && next.plans[id] == t.plans[id])
    && (id in t.jobs ==> id in next.jobs && next.jobs[id] == t.jobs[id])
    && Ledger(next.rows, id) == Ledger(t.rows, id)
    && OutcomesOf(next.outcomes, id) == OutcomesOf(t.outcomes, id)
  }

  lemma SameRecordKeeps(t: Tables, next: Tables, id: PlanId)
    requires EntryInv(t, id) && SameRecord(t, next, id)
    ensures EntryInv(next, id)
  {
  }

  /** A step that touches the records of one plan only has to re-establish those. */
  lemma OneRecordChanges(t: Tables, next: Tables, id: PlanId)
    requires TablesInv(t)
    requires forall other :: other != id ==> SameRecord(t, next, other)
    requires id in next.plans && id in next.jobs && PlanInv(next, id)
    requires id in t.plans ==> next.plans[id] == t.plans[id]
    requires Ledger(t.rows, id) <= Ledger(next.rows, id)
    ensures TablesInv(next) && Extends(t, next)
  {
    forall other ensures EntryInv(next, other) {
      if other != id {
        assert EntryInv(t, other);
        SameRecordKeeps(t, next, other);
      }
    }
    forall other ensures Ledger(t.rows, other) <= Ledger(next.rows, other) {
      if other != id { assert SameRecord(t, next, other); }
    }
    forall other | other in t.plans ensures other in next.plans && next.plans[other] == t.plans[other] {
      if other != id { assert SameRecord(t, next, other); }
    }
  }

  lemma EnrollKeeps(t: Tables, plan: Plan, now: Instant)
    requires TablesInv(t) && plan.Valid()
    ensures TablesInv(Enroll(t, plan, now)) && Extends(t, Enroll(t, plan, now))
  {
    if plan.Id() !in t.plans {
      assert EntryInv(t, plan.Id());
      OneRecordChanges(t, Enroll(t, plan, now), plan.Id());
    }
  }

  lemma ClaimRecord(id: PlanId, plan: Plan, job: Job, ledger: seq<Attempt>, outcomes: seq<Outcome>, now: Instant)
    requires RecordInv(id, plan, job, ledger, outcomes)
    requires job.status.Pending? || job.status.RetryWait?
    requires job.nextAttemptAt.value <= now
    ensures RecordInv(id, plan, ClaimedJob(job, now), ledger, outcomes)
    ensures now >= Earliest(plan, ledger)
  {
  }

  lemma ClaimKeeps(t: Tables, id: PlanId, now: Instant)
    requires TablesInv(t) && Due(t, id, now)
    ensures var (next, claim) := TakeClaim(t, id, now);
      TablesInv(next) && Extends(t, next) && ClaimInv(next, claim)
  {
    var (next, claim) := TakeClaim(t, id, now);
    assert EntryInv(t, id);
    var ledger := Ledger(t.rows, id);
    ClaimRecord(id, t.plans[id], t.jobs[id], ledger, OutcomesOf(t.outcomes, id), now);
    OneRecordChanges(t, next, id);
    assert ledger[..|ledger|] == ledger;
  }

  lemma RequeueRecord(id: PlanId, plan: Plan, job: Job, ledger: seq<Attempt>, outcomes: seq<Outcome>,
                      now: Instant, threshold: Instant)
    requires RecordInv(id, plan, job, ledger, outcomes) && Stale(job, threshold) && threshold <= now
    ensures RecordInv(id, plan, RequeuedJob(job, now), ledger, outcomes)
  {
  }

  lemma RequeueKeeps(t: Tables, now: Instant, leaseSeconds: int)
    requires TablesInv(t)
    ensures match RequeueStale(t, now, leaseSeconds) case Ok(next) => TablesInv(next) && Extends(t, next) case Err(_) => true
  {
    match RequeueStale(t, now, leaseSeconds)
    case Err(_) =>
    case Ok(next) =>
      forall id ensures EntryInv(next, id) {
        assert EntryInv(t, id);
        if id in t.jobs && Stale(t.jobs[id], now - leaseSeconds * SECOND) {
          RequeueRecord(id, t.plans[id], t.jobs[id], Ledger(t.rows, id), OutcomesOf(t.outcomes, id),
                        now, now - leaseSeconds * SECOND);
        }
      }
  }

  /** Appending the receipt of the current number keeps the ledger numbered. */
  lemma AppendKeepsLedger(plan: Plan, ledger: seq<Attempt>, receipt: Attempt)
    requires LedgerInv(plan, ledger)
    requires receipt.Valid() && receipt.number == |ledger| + 1
    requires receipt.publicationId == plan.publicationId && receipt.horizon == plan.horizon
    ensures LedgerInv(plan, ledger + [receipt])
  {
    var longer := ledger + [receipt];
    forall i | 0 <= i < |longer| ensures RowInv(plan, longer, i) {
      if i < |ledger| { assert RowInv(plan, ledger, i); }
    }
  }

  lemma RetryRecord(id: PlanId, job: Job, ledger: seq<Attempt>, outcomes: seq<Outcome>,
                    c: Claim, receipt: Attempt, after: Job)
    requires RecordInv(id, c.plan, job, ledger, outcomes)
    requires job.status.Processing? && job.attempts == c.number - 1 && c.number <= 5
    requires ReceiptFor(c, receipt) && receipt.status.RetryableFailure?
    requires after.status.RetryWait? && after.attempts == c.number && after.claimedAt.None?
    requires after.nextAttemptAt == Some(receipt.completedAt + Backoff(c.number))
    ensures RecordInv(id, c.plan, after, ledger + [receipt], outcomes)
  {
    AppendKeepsLedger(c.plan, ledger, receipt);
  }

  /** What a successful retry writes. */
  lemma RetryWrites(t: Tables, id: PlanId, receipt: Attempt, now: Instant, next: Instant, after: Tables)
    requires RetryWithAttempt(t, id, receipt, now, next) == Ok(after)
    requires id in t.plans
    ensures
      && Fence(t, id, receipt.number)
      && (forall other :: other != id ==> SameRecord(t, after, other))
      && after.plans == t.plans && after.outcomes == t.outcomes
      && Ledger(after.rows, id) == Ledger(t.rows, id) + [receipt]
  {
    forall other ensures Ledger(after.rows, other) == Ledger(t.rows, other) + if other == id then [receipt] else [] {
      LedgerOfAppend(t.rows, AttemptRow(id, receipt), other);
    }
  }

  lemma RetryKeeps(t: Tables, c: Claim, receipt: Attempt, next: Instant)
    requires TablesInv(t) && ClaimInv(t, c)
    requires ReceiptFor(c, receipt) && receipt.status.RetryableFailure? && c.number <= 5
    requires next == receipt.completedAt + Backoff(c.number)
    ensures match RetryWithAttempt(t, c.planId, receipt, receipt.completedAt, next)
            case Ok(after) => TablesInv(after) && Extends(t, after)
            case Err(_) => true
  {
    match RetryWithAttempt(t, c.planId, receipt, receipt.completedAt, next)
    case Err(_) =>
    case Ok(after) =>
      var id := c.planId;
      var ledger := Ledger(t.rows, id);
      assert EntryInv(t, id);
      RetryWrites(t, id, receipt, receipt.completedAt, next, after);
      RetryRecord(id, t.jobs[id], ledger, OutcomesOf(t.outcomes, id), c, receipt, after.jobs[id]);
      OneRecordChanges(t, after, id);
  }

  /** A commit that passes the fence read exactly the ledger it commits on top of. */
  lemma FenceMeansFreshRead(t: Tables, v: Verdict)
    requires TablesInv(t) && VerdictInv(t, v)
    requires Fence(t, v.claim.planId, v.receipt.number)
    ensures v.ledger == Ledger(t.rows, v.claim.planId)
    ensures |v.ledger| == v.claim.number - 1
  {
    assert EntryInv(t, v.claim.planId);
  }

  lemma CommitRecord(id: PlanId, job: Job, ledger: seq<Attempt>, v: Verdict, outcome: Outcome, after: Job)
    requires RecordInv(id, v.claim.plan, job, ledger, [])
    requires job.status.Processing? && job.attempts == v.claim.number - 1
    requires ReceiptFor(v.claim, v.receipt)
    requires outcome.plan == v.claim.plan && outcome.attempts == ledger + [v.receipt]
    requires after.status == TerminalStatus(outcome) && after.attempts == v.claim.number
    requires after.claimedAt.None? && after.nextAttemptAt.None?
    ensures RecordInv(id, v.claim.plan, after, ledger + [v.receipt], [outcome])
  {
    AppendKeepsLedger(v.claim.plan, ledger, v.receipt);
  }

  /** What a worker hands to the store is for its plan and ends in its own receipt. */
  ghost predicate Concludes(v: Verdict, concluded: Result<Outcome, EvaluationError>) {
    concluded.Ok? ==>
      && concluded.value.plan == v.claim.plan
      && concluded.value.attempts == v.ledger + [v.receipt]
      && concluded.value.observations == v.observations
  }

  lemma ConcludeFacts(v: Verdict)
    ensures Concludes(v, Concluded(v))
  {
  }

  /** What a successful commit writes. */
  lemma CompleteWrites(t: Tables, outcome: Outcome, receipt: Attempt, after: Tables)
    requires outcome.attempts != []
    requires CompleteWithAttempt(t, outcome, receipt) == Ok(after)
    requires outcome.plan.Id() in t.plans
    ensures var id := outcome.plan.Id();
      && Fence(t, id, receipt.number)
      && (forall other :: other != id ==> SameRecord(t, after, other))
      && after.plans == t.plans
      && Ledger(after.rows, id) == Ledger(t.rows, id) + [receipt]
      && OutcomesOf(after.outcomes, id) == OutcomesOf(t.outcomes, id) + [outcome]
  {
    var id := outcome.plan.Id();
    forall other ensures Ledger(after.rows, other) == Ledger(t.rows, other) + if other == id then [receipt] else [] {
      LedgerOfAppend(t.rows, AttemptRow(id, receipt), other);
    }
    forall other
      ensures OutcomesOf(after.outcomes, other) == OutcomesOf(t.outcomes, other) + if other == id then [outcome] else []
    {
      OutcomesOfAppend(t.outcomes, outcome, other);
    }
  }

  lemma CommitOwnRecord(t: Tables, v: Verdict, outcome: Outcome, after: Tables)
    requires TablesInv(t) && VerdictInv(t, v)
    requires outcome.plan == v.claim.plan && outcome.attempts == v.ledger + [v.receipt]
    requires CompleteWithAttempt(t, outcome, v.receipt) == Ok(after)
    requires outcome.plan.Id() == v.claim.planId
    requires Fence(t, v.claim.planId, v.receipt.number)
    requires Ledger(after.rows, v.claim.planId) == Ledger(t.rows, v.claim.planId) + [v.receipt]
    requires OutcomesOf(after.outcomes, v.claim.planId) == OutcomesOf(t.outcomes, v.claim.planId) + [outcome]
    ensures PlanInv(after, v.claim.planId)
  {
    var id := v.claim.planId;
    assert EntryInv(t, id);
    FenceMeansFreshRead(t, v);
    var ledger := Ledger(t.rows, id);
    CommitRecord(id, t.jobs[id], ledger, v, outcome, after.jobs[id]);
  }

  lemma CommitKeeps(t: Tables, v: Verdict, outcome: Outcome)
    requires TablesInv(t) && VerdictInv(t, v)
    requires outcome.plan == v.claim.plan && outcome.attempts == v.ledger + [v.receipt]
    ensures match CompleteWithAttempt(t, outcome, v.receipt)
            case Ok(after) => TablesInv(after) && Extends(t, after)
            case Err(_) => true
  {
    match CompleteWithAttempt(t, outcome, v.receipt)
    case Err(_) =>
    case Ok(after) =>
      assert EntryInv(t, v.claim.planId);
      CompleteWrites(t, outcome, v.receipt, after);
      CommitOwnRecord(t, v, outcome, after);
      OneRecordChanges(t, after, v.claim.planId);
  }

  lemma VerdictCommitKeeps(s: System, v: Verdict, concluded: Result<Outcome, EvaluationError>)
    requires Inv(s) && v in s.verdicts && Concludes(v, concluded)
    ensures Inv(AfterCommit(s, v, concluded)) && Extends(s.tables, AfterCommit(s, v, concluded).tables)
  {
    if concluded.Ok? { CommitKeeps(s.tables, v, concluded.value); }
    HoldersSurvive(s, AfterCommit(s, v, concluded).tables);
  }

  lemma ReadKeeps(t: Tables, claim: Claim, work: Work)
    requires TablesInv(t) && ClaimInv(t, claim)
    requires Decide(claim, work).Finish?
    ensures var d := Decide(claim, work);
      VerdictInv(t, Verdict(claim, d.receipt, d.observations, AttemptsForPlan(t, claim.planId)))
  {
    DecisionIsSound(claim, work);
    LedgerIsOrdered(t, claim.planId);
  }

  /** Insertion order and number order agree, so reading a ledger returns it as it was written. */
  lemma LedgerIsOrdered(t: Tables, id: PlanId)
    requires TablesInv(t)
    ensures AttemptsForPlan(t, id) == Ledger(t.rows, id)
  {
    var ledger := Ledger(t.rows, id);
    assert EntryInv(t, id);
    if id in t.plans {
      assert LedgerInv(t.plans[id], ledger);
      forall i | 0 <= i < |ledger| ensures ledger[i].number == i + 1 {
        assert RowInv(t.plans[id], ledger, i);
      }
    }
    SortIdentity(ledger, NumberLeq);
  }

  lemma StepKeepsInv(s: System, e: Event)
    requires Inv(s)
    ensures Inv(Step(s, e)) && Extends(s.tables, Step(s, e).tables)
  {
    match e
    case EnrollEvent(plan, now) =>
      if plan.Valid() {
        EnrollKeeps(s.tables, plan, now);
        HoldersSurvive(s, Enroll(s.tables, plan, now));
      }
    case ClaimEvent(id, now) =>
      if Due(s.tables, id, now) {
        ClaimKeeps(s.tables, id, now);
        HoldersSurvive(s, TakeClaim(s.tables, id, now).0);
      }
    case RequeueEvent(now, leaseSeconds) =>
      RequeueKeeps(s.tables, now, leaseSeconds);
      HoldersSurvive(s, Step(s, e).tables);
    case RetryEvent(claim, work) =>
      if Working(s, claim, work) && Decide(claim, work).Retry? {
        var d := Decide(claim, work);
        DecisionIsSound(claim, work);
        RetryKeeps(s.tables, claim, d.receipt, d.nextAttemptAt);
        HoldersSurvive(s, Step(s, e).tables);
      }
    case ReadEvent(claim, work) =>
      if Working(s, claim, work) && Decide(claim, work).Finish? { ReadKeeps(s.tables, claim, work); }
    case CommitEvent(v) =>
      if v in s.verdicts {
        ConcludeFacts(v);
        VerdictCommitKeeps(s, v, Concluded(v));
      }
  }

  lemma {:induction false} RunKeepsInv(s: System, events: seq<Event>)
    requires Inv(s)
    ensures Inv(Run(s, events)) && Extends(s.tables, Run(s, events).tables)
  {
    if |events| != 0 {
      RunKeepsInv(s, events[..|events| - 1]);
      var before := Run(s, events[..|events| - 1]);
      StepKeepsInv(before, events[|events| - 1]);
      var after := Step(before, events[|events| - 1]);
      forall id ensures Ledger(s.tables.rows, id) <= Ledger(after.tables.rows, id) {
        assert Ledger(s.tables.rows, id) <= Ledger(before.tables.rows, id) <= Ledger(after.tables.rows, id);
      }
    }
  }

  lemma Reachable(events: seq<Event>)
    ensures Inv(Run(INITIAL, events))
  {
    RunKeepsInv(INITIAL, events);
  }
}
