/** What the job protocol promises over every interleaving of workers, crashes and lease expiries. */
module ProspectiveGuarantees {
  import opened Calendar
  import opened Outcomes
  import opened Ordering
  import opened ProspectiveContracts
  import opened ProspectiveEvaluator
  import opened ProspectiveStore
  import opened ProspectiveWorker
  import opened ProspectiveProtocol

  // ----- receipt identifiers -----

  ghost predicate DistinctRowIds(rows: seq<AttemptRow>) {
    forall i, j | 0 <= i < j < |rows| :: rows[i].attempt.attemptId != rows[j].attempt.attemptId
  }

  /** Receipt identifiers are never reused: a persisted row with the identifier of an uncommitted
      verdict is that verdict's own row. */
  ghost predicate IdInv(s: System) {
    && (forall r | r in s.tables.rows :: r.attempt.attemptId in s.issued)
    && (forall v | v in s.verdicts :: v.receipt.attemptId in s.issued)
    && DistinctRowIds(s.tables.rows)
    && (forall v, r | v in s.verdicts && r in s.tables.rows && r.attempt.attemptId == v.receipt.attemptId ::
          r == AttemptRow(v.claim.planId, v.receipt))
    && (forall v, w | v in s.verdicts && w in s.verdicts && v.receipt.attemptId == w.receipt.attemptId :: v == w)
  }

  lemma {:induction false} RowIsListed(rows: seq<AttemptRow>, r: AttemptRow)
    requires r in rows
    ensures r.attempt in Ledger(rows, r.planId)
  {
    if rows[|rows| - 1] != r { RowIsListed(rows[..|rows| - 1], r); }
  }

  lemma {:induction false} LedgerComesFromRows(rows: seq<AttemptRow>, id: PlanId)
    ensures forall a | a in Ledger(rows, id) :: AttemptRow(id, a) in rows
  {
    if |rows| != 0 { LedgerComesFromRows(rows[..|rows| - 1], id); }
  }

  ghost predicate DistinctIds(attempts: seq<Attempt>) {
    forall i, j | 0 <= i < j < |attempts| :: attempts[i].attemptId != attempts[j].attemptId
  }

  lemma AppendDistinct(attempts: seq<Attempt>, a: Attempt)
    requires DistinctIds(attempts)
    requires forall b | b in attempts :: b.attemptId != a.attemptId
    ensures DistinctIds(attempts + [a])
  {
    var all := attempts + [a];
    forall i, j | 0 <= i < j < |all| ensures all[i].attemptId != all[j].attemptId {
      assert all[i] in attempts;
    }
  }

  lemma {:induction false} LedgerIdsDistinct(rows: seq<AttemptRow>, id: PlanId)
    requires DistinctRowIds(rows)
    ensures DistinctIds(Ledger(rows, id))
  {
    if |rows| != 0 {
      var front, last := rows[..|rows| - 1], rows[|rows| - 1];
      LedgerIdsDistinct(front, id);
      LedgerComesFromRows(front, id);
      assert DistinctRowIds(front);
      forall a | a in Ledger(front, id) ensures a.attemptId != last.attempt.attemptId {
        assert AttemptRow(id, a) in front;
        var i :| 0 <= i < |front| && front[i] == AttemptRow(id, a);
        assert rows[i] == front[i];
      }
      if last.planId == id { AppendDistinct(Ledger(front, id), last.attempt); }
    }
  }

  lemma RetryKeepsIds(s: System, claim: Claim, work: Work)
    requires Inv(s) && IdInv(s) && Working(s, claim, work) && Decide(claim, work).Retry?
    ensures IdInv(AfterRetry(s, claim, Decide(claim, work)))
  {
    DecisionIsSound(claim, work);
    var d := Decide(claim, work);
    match RetryWithAttempt(s.tables, claim.planId, d.receipt, d.receipt.completedAt, d.nextAttemptAt)
    case Err(_) =>
    case Ok(after) =>
      assert after.rows == s.tables.rows + [AttemptRow(claim.planId, d.receipt)];
  }

  lemma CommitKeepsIds(s: System, v: Verdict, concluded: Result<Outcome, EvaluationError>)
    requires Inv(s) && IdInv(s) && v in s.verdicts && Concludes(v, concluded)
    ensures IdInv(AfterCommit(s, v, concluded))
  {
    if concluded.Ok? {
      assert VerdictInv(s.tables, v) && EntryInv(s.tables, v.claim.planId);
      match CompleteWithAttempt(s.tables, concluded.value, v.receipt)
      case Err(_) =>
      case Ok(after) => CommittedRowKeepsIds(s, v, after);
    }
  }

  lemma CommittedRowKeepsIds(s: System, v: Verdict, after: Tables)
    requires TablesInv(s.tables) && VerdictInv(s.tables, v) && IdInv(s) && v in s.verdicts
    requires Fence(s.tables, v.claim.planId, v.receipt.number)
    requires after.rows == s.tables.rows + [AttemptRow(v.claim.planId, v.receipt)]
    ensures IdInv(s.(tables := after))
  {
    forall r | r in s.tables.rows ensures r.attempt.attemptId != v.receipt.attemptId {
      if r.attempt.attemptId == v.receipt.attemptId { CommittedRowIsOld(s.tables, v, r); }
    }
  }

  /** The fence has moved past every row that is already there. */
  lemma CommittedRowIsOld(t: Tables, v: Verdict, r: AttemptRow)
    requires TablesInv(t) && VerdictInv(t, v)
    requires r in t.rows && r == AttemptRow(v.claim.planId, v.receipt)
    ensures !Fence(t, v.claim.planId, v.receipt.number)
  {
    RowIsListed(t.rows, r);
    var ledger := Ledger(t.rows, v.claim.planId);
    var k :| 0 <= k < |ledger| && ledger[k] == v.receipt;
    assert EntryInv(t, v.claim.planId);
    assert RowInv(t.plans[v.claim.planId], ledger, k);
  }

  lemma ReadKeepsIds(s: System, claim: Claim, work: Work, d: Decision)
    requires IdInv(s) && Working(s, claim, work) && claim.number <= 6 && d == Decide(claim, work) && d.Finish?
    ensures IdInv(Step(s, ReadEvent(claim, work)))
  {
    DecisionIsSound(claim, work);
    var v := Verdict(claim, d.receipt, d.observations, AttemptsForPlan(s.tables, claim.planId));
    assert Step(s, ReadEvent(claim, work)) == s.(verdicts := s.verdicts + {v}, issued := s.issued + {work.attemptId});
  }

  lemma StepKeepsIds(s: System, e: Event)
    requires Inv(s) && IdInv(s)
    ensures IdInv(Step(s, e))
  {
    match e
    case RetryEvent(claim, work) =>
      if Working(s, claim, work) && Decide(claim, work).Retry? { RetryKeepsIds(s, claim, work); }
    case ReadEvent(claim, work) =>
      if Working(s, claim, work) && Decide(claim, work).Finish? {
        assert ClaimInv(s.tables, claim);
        ReadKeepsIds(s, claim, work, Decide(claim, work));
      }
    case CommitEvent(v) => if v in s.verdicts {
        ConcludeFacts(v);
        CommitKeepsIds(s, v, Concluded(v));
      }
    case _ =>
  }

  lemma {:induction false} ReachableIds(events: seq<Event>)
    ensures Inv(Run(INITIAL, events)) && IdInv(Run(INITIAL, events))
  {
    if |events| != 0 {
      ReachableIds(events[..|events| - 1]);
      StepKeepsInv(Run(INITIAL, events[..|events| - 1]), events[|events| - 1]);
      StepKeepsIds(Run(INITIAL, events[..|events| - 1]), events[|events| - 1]);
    }
  }

  lemma FreshIdExists(issued: set<nat>)
    ensures exists id: nat :: id !in issued
  {
    if issued == {} {
      assert 0 !in issued;
    } else {
      var top := LargestId(issued);
      assert top + 1 !in issued;
    }
  }

  lemma {:induction false} LargestId(issued: set<nat>) returns (top: nat)
    requires issued != {}
    ensures forall id | id in issued :: id <= top
    decreases |issued|
  {
    var some :| some in issued;
    top := some;
    if issued != {some} {
      var rest := LargestId(issued - {some});
      assert forall id | id in issued :: id == some || id in issued - {some};
      top := if rest > some then rest else some;
    }
  }

  // ----- the ledger and its counter -----

  /** A job's attempt counter is the length of its ledger, which is numbered 1, 2, 3, ... in the
      order it was written; reading it back in number order returns it unchanged. */
  lemma CounterIsLedgerLength(events: seq<Event>, id: PlanId)
    ensures var t := Run(INITIAL, events).tables;
      && (id in t.jobs <==> id in t.plans)
      && (id in t.jobs ==> t.jobs[id].attempts == |Ledger(t.rows, id)|)
      && (forall i | 0 <= i < |Ledger(t.rows, id)| :: Ledger(t.rows, id)[i].number == i + 1)
      && AttemptsForPlan(t, id) == Ledger(t.rows, id)
  {
    Reachable(events);
    var t := Run(INITIAL, events).tables;
    assert EntryInv(t, id);
    LedgerIsOrdered(t, id);
    var ledger := Ledger(t.rows, id);
    forall i | 0 <= i < |ledger| ensures ledger[i].number == i + 1 {
      assert RowInv(t.plans[id], ledger, i);
    }
  }

  lemma {:induction false} RowPosition(rows: seq<AttemptRow>, i: nat)
    requires i < |rows|
    ensures var id := rows[i].planId; var k := |Ledger(rows[..i], id)|;
      k < |Ledger(rows, id)| && Ledger(rows, id)[k] == rows[i].attempt
  {
    var front := rows[..|rows| - 1];
    if i < |front| {
      assert front[..i] == rows[..i];
      RowPosition(front, i);
    } else {
      assert rows[..i] == front;
    }
  }

  lemma {:induction false} LedgerGrows(rows: seq<AttemptRow>, i: nat, j: nat, id: PlanId)
    requires i <= j <= |rows|
    ensures |Ledger(rows[..i], id)| <= |Ledger(rows[..j], id)|
  {
    if i < j {
      LedgerGrows(rows, i, j - 1, id);
      assert rows[..j] == rows[..j - 1] + [rows[j - 1]];
      LedgerOfAppend(rows[..j - 1], rows[j - 1], id);
    }
  }

  /** A row's number is the number of rows its plan had once it was written. */
  lemma RowIsNumberedInOrder(events: seq<Event>, i: nat)
    requires i < |Run(INITIAL, events).tables.rows|
    ensures var rows := Run(INITIAL, events).tables.rows;
      rows[i].attempt.number == |Ledger(rows[..i + 1], rows[i].planId)|
  {
    var rows := Run(INITIAL, events).tables.rows;
    CounterIsLedgerLength(events, rows[i].planId);
    RowPosition(rows, i);
    assert rows[..i + 1] == rows[..i] + [rows[i]];
    LedgerOfAppend(rows[..i], rows[i], rows[i].planId);
  }

  lemma LaterRowIsLonger(rows: seq<AttemptRow>, i: nat, j: nat)
    requires i < j < |rows| && rows[i].planId == rows[j].planId
    ensures |Ledger(rows[..i + 1], rows[i].planId)| < |Ledger(rows[..j + 1], rows[i].planId)|
  {
    LedgerGrows(rows, i + 1, j, rows[i].planId);
    assert rows[..j + 1] == rows[..j] + [rows[j]];
    LedgerOfAppend(rows[..j], rows[j], rows[i].planId);
  }

  /** At most one result is ever committed per (plan, attempt number), however many holders of
      that number there were. */
  lemma OneResultPerNumber(events: seq<Event>, i: nat, j: nat)
    requires i < j < |Run(INITIAL, events).tables.rows|
    ensures var rows := Run(INITIAL, events).tables.rows;
      rows[i].planId == rows[j].planId ==> rows[i].attempt.number < rows[j].attempt.number
  {
    var rows := Run(INITIAL, events).tables.rows;
    RowIsNumberedInOrder(events, i);
    RowIsNumberedInOrder(events, j);
    if rows[i].planId == rows[j].planId { LaterRowIsLonger(rows, i, j); }
  }

  // ----- outcomes -----

  lemma {:induction false} TwoOutcomesListed(outcomes: seq<Outcome>, i: nat, j: nat)
    requires i < j < |outcomes| && outcomes[i].plan.Id() == outcomes[j].plan.Id()
    ensures |OutcomesOf(outcomes, outcomes[i].plan.Id())| >= 2
  {
    if j == |outcomes| - 1 {
      OutcomeIsListed(outcomes[..j], i);
    } else {
      TwoOutcomesListed(outcomes[..|outcomes| - 1], i, j);
    }
  }

  /** A plan has at most one outcome, and it has one exactly when its job is in the terminal state
      that outcome names. */
  lemma OneOutcomePerPlan(events: seq<Event>, id: PlanId)
    ensures var t := Run(INITIAL, events).tables;
      && (forall i, j | 0 <= i < j < |t.outcomes| :: t.outcomes[i].plan.Id() != t.outcomes[j].plan.Id())
      && (id in t.jobs && t.jobs[id].status.Terminal()
          <==> exists i :: 0 <= i < |t.outcomes| && t.outcomes[i].plan.Id() == id)
  {
    Reachable(events);
    var t := Run(INITIAL, events).tables;
    forall i, j | 0 <= i < j < |t.outcomes| ensures t.outcomes[i].plan.Id() != t.outcomes[j].plan.Id() {
      assert EntryInv(t, t.outcomes[i].plan.Id());
      if t.outcomes[i].plan.Id() == t.outcomes[j].plan.Id() { TwoOutcomesListed(t.outcomes, i, j); }
    }
    assert EntryInv(t, id);
    if id in t.jobs && t.jobs[id].status.Terminal() { ListedOutcomeExists(t.outcomes, id); }
    if i :| 0 <= i < |t.outcomes| && t.outcomes[i].plan.Id() == id { OutcomeIsListed(t.outcomes, i); }
  }

  lemma {:induction false} ListedOutcomeExists(outcomes: seq<Outcome>, id: PlanId)
    requires OutcomesOf(outcomes, id) != []
    ensures exists i ::
      && 0 <= i < |outcomes| && outcomes[i].plan.Id() == id
      && outcomes[i] == OutcomesOf(outcomes, id)[|OutcomesOf(outcomes, id)| - 1]
  {
    var n := |outcomes| - 1;
    if outcomes[n].plan.Id() != id {
      ListedOutcomeExists(outcomes[..n], id);
      var i :| 0 <= i < n && outcomes[..n][i].plan.Id() == id
            && outcomes[..n][i] == OutcomesOf(outcomes[..n], id)[|OutcomesOf(outcomes[..n], id)| - 1];
      assert outcomes[i] == outcomes[..n][i];
    }
  }

  lemma {:induction false} StoredOutcomesAreValid(events: seq<Event>)
    ensures forall outcome | outcome in Run(INITIAL, events).tables.outcomes :: outcome.Valid()
  {
    if |events| != 0 {
      var before := events[..|events| - 1];
      StoredOutcomesAreValid(before);
      var e := events[|events| - 1];
      StepAddsValidOutcomes(Run(INITIAL, before), e);
      forall outcome | outcome in Run(INITIAL, events).tables.outcomes ensures outcome.Valid() {
        if outcome !in Run(INITIAL, before).tables.outcomes { ConcludedIsValid(e.verdict, outcome); }
      }
    }
  }

  /** An outcome reaches the table only through its constructor. */
  lemma StepAddsValidOutcomes(s: System, e: Event)
    ensures forall outcome | outcome in Step(s, e).tables.outcomes ::
      outcome in s.tables.outcomes || (e.CommitEvent? && Concluded(e.verdict) == Ok(outcome))
  {
    match e
    case CommitEvent(v) => CommitAddsConcluded(s, v, Concluded(v));
    case _ =>
  }

  lemma CommitAddsConcluded(s: System, v: Verdict, concluded: Result<Outcome, EvaluationError>)
    ensures forall outcome | outcome in AfterCommit(s, v, concluded).tables.outcomes ::
      outcome in s.tables.outcomes || concluded == Ok(outcome)
  {
  }

  lemma ConcludedIsValid(v: Verdict, outcome: Outcome)
    requires Concluded(v) == Ok(outcome)
    ensures outcome.Valid()
  {
  }

  /** Although the ledger is read outside the commit, every committed outcome embeds the plan's
      whole persisted ledger, in order, satisfies its validator and matches the job's end state. */
  lemma OutcomeEmbedsLedger(events: seq<Event>, i: nat)
    requires i < |Run(INITIAL, events).tables.outcomes|
    ensures var t := Run(INITIAL, events).tables; var outcome := t.outcomes[i]; var id := outcome.plan.Id();
      && outcome.attempts == Ledger(t.rows, id) == AttemptsForPlan(t, id)
      && outcome.Valid()
      && id in t.jobs && t.jobs[id].status == TerminalStatus(outcome)
  {
    var t := Run(INITIAL, events).tables;
    StoredOutcomesAreValid(events);
    Reachable(events);
    ListedOutcomeEmbedsLedger(t, i);
  }

  lemma ListedOutcomeEmbedsLedger(t: Tables, i: nat)
    requires TablesInv(t) && i < |t.outcomes|
    ensures var outcome := t.outcomes[i]; var id := outcome.plan.Id();
      && outcome.attempts == Ledger(t.rows, id) == AttemptsForPlan(t, id)
      && id in t.jobs && t.jobs[id].status == TerminalStatus(outcome)
  {
    OutcomeIsListed(t.outcomes, i);
    LedgerIsOrdered(t, t.outcomes[i].plan.Id());
    assert EntryInv(t, t.outcomes[i].plan.Id());
  }

  // ----- progress -----

  /** The `attempts < 6` guards of claim and requeue never block a job that is not finished, and
      every number handed out is one of 1 to 6. */
  lemma GuardsNeverBlock(events: seq<Event>, id: PlanId)
    ensures var s := Run(INITIAL, events);
      && (id in s.tables.jobs && !s.tables.jobs[id].status.Terminal() ==> 0 <= s.tables.jobs[id].attempts <= 5)
      && (id in s.tables.jobs ==> s.tables.jobs[id].attempts <= 6)
      && (forall c | c in s.claims :: 1 <= c.number <= 6)
  {
    Reachable(events);
    assert EntryInv(Run(INITIAL, events).tables, id);
  }

  /** How one step may change one job. */
  ghost predicate Moves(t: Tables, next: Tables, id: PlanId)
    requires id in t.jobs
  {
    && id in next.jobs
    && next.jobs[id].attempts - t.jobs[id].attempts == |Ledger(next.rows, id)| - |Ledger(t.rows, id)|
    && next.jobs[id].attempts in {t.jobs[id].attempts, t.jobs[id].attempts + 1}
    && (next.jobs[id].attempts != t.jobs[id].attempts ==> t.jobs[id].status.Processing?)
    && (t.jobs[id].status.Terminal() ==> next.jobs[id] == t.jobs[id] && Ledger(next.rows, id) == Ledger(t.rows, id))
  }

  lemma OtherPlansStay(t: Tables, next: Tables, id: PlanId)
    requires id in t.jobs && SameRecord(t, next, id)
    ensures Moves(t, next, id)
  {
  }

  /** The plan whose result is committed gains one row and one attempt. */
  lemma OwnPlanMoves(t: Tables, next: Tables, id: PlanId, receipt: Attempt)
    requires Fence(t, id, receipt.number)
    requires id in next.jobs && next.jobs[id].attempts == receipt.number
    requires Ledger(next.rows, id) == Ledger(t.rows, id) + [receipt]
    ensures Moves(t, next, id)
  {
  }

  lemma RetryMoves(s: System, claim: Claim, d: Decision, id: PlanId)
    requires claim.planId in s.tables.plans && d.Retry? && id in s.tables.jobs
    ensures Moves(s.tables, AfterRetry(s, claim, d).tables, id)
  {
    match RetryWithAttempt(s.tables, claim.planId, d.receipt, d.receipt.completedAt, d.nextAttemptAt)
    case Err(_) => OtherPlansStay(s.tables, s.tables, id);
    case Ok(after) =>
      RetryWrites(s.tables, claim.planId, d.receipt, d.receipt.completedAt, d.nextAttemptAt, after);
      if id == claim.planId {
        OwnPlanMoves(s.tables, after, id, d.receipt);
      } else {
        OtherPlansStay(s.tables, after, id);
      }
  }

  lemma CommitMoves(s: System, v: Verdict, concluded: Result<Outcome, EvaluationError>, id: PlanId)
    requires v.claim.planId in s.tables.plans && v.claim.plan.Id() == v.claim.planId
    requires id in s.tables.jobs && Concludes(v, concluded)
    ensures Moves(s.tables, AfterCommit(s, v, concluded).tables, id)
  {
    if concluded.Err? || CompleteWithAttempt(s.tables, concluded.value, v.receipt).Err? {
      OtherPlansStay(s.tables, s.tables, id);
    } else {
      var after := CompleteWithAttempt(s.tables, concluded.value, v.receipt).value;
      CompleteWrites(s.tables, concluded.value, v.receipt, after);
      if id == v.claim.planId {
        OwnPlanMoves(s.tables, after, id, v.receipt);
      } else {
        OtherPlansStay(s.tables, after, id);
      }
    }
  }

  lemma EnrollMoves(s: System, plan: Plan, now: Instant, id: PlanId)
    requires id in s.tables.jobs && EntryInv(s.tables, id)
    ensures Moves(s.tables, Step(s, EnrollEvent(plan, now)).tables, id)
  {
  }

  lemma ClaimMoves(s: System, claimed: PlanId, now: Instant, id: PlanId)
    requires id in s.tables.jobs && EntryInv(s.tables, id)
    ensures Moves(s.tables, Step(s, ClaimEvent(claimed, now)).tables, id)
  {
  }

  lemma RequeueMoves(s: System, now: Instant, leaseSeconds: int, id: PlanId)
    requires id in s.tables.jobs && EntryInv(s.tables, id)
    ensures Moves(s.tables, Step(s, RequeueEvent(now, leaseSeconds)).tables, id)
  {
  }

  /** A step leaves a job's counter alone, or commits one result for it under the fence and adds
      one; so `6 - attempts` never grows and bounds the results still to come. */
  lemma CounterMovesWithResults(s: System, e: Event, id: PlanId)
    requires Inv(s) && id in s.tables.jobs
    ensures Moves(s.tables, Step(s, e).tables, id)
  {
    assert EntryInv(s.tables, id);
    match e
    case EnrollEvent(plan, now) => EnrollMoves(s, plan, now, id);
    case ClaimEvent(claimed, now) => ClaimMoves(s, claimed, now, id);
    case RequeueEvent(now, leaseSeconds) => RequeueMoves(s, now, leaseSeconds, id);
    case RetryEvent(claim, work) =>
      if Working(s, claim, work) && Decide(claim, work).Retry? {
        assert ClaimInv(s.tables, claim);
        RetryMoves(s, claim, Decide(claim, work), id);
      }
    case ReadEvent(_, _) =>
    case CommitEvent(v) =>
      if v in s.verdicts {
        ConcludeFacts(v);
        assert VerdictInv(s.tables, v) && EntryInv(s.tables, v.claim.planId);
        CommitMoves(s, v, Concluded(v), id);
      }
  }

  /** A finished job is never touched again, whatever happens afterwards. */
  lemma {:induction false} TerminalIsAbsorbing(s: System, more: seq<Event>, id: PlanId)
    requires Inv(s) && id in s.tables.jobs && s.tables.jobs[id].status.Terminal()
    ensures var t := Run(s, more).tables;
      && id in t.jobs && t.jobs[id] == s.tables.jobs[id]
      && Ledger(t.rows, id) == Ledger(s.tables.rows, id)
  {
    if |more| != 0 {
      TerminalIsAbsorbing(s, more[..|more| - 1], id);
      RunKeepsInv(s, more[..|more| - 1]);
      CounterMovesWithResults(Run(s, more[..|more| - 1]), more[|more| - 1], id);
    }
  }

  // ----- backoff, whatever the clocks show -----

  /** `at` is no earlier than twelve hours after the target close or, after k results, than
      300 * 2^(k-1) seconds after the k-th. */
  predicate Rested(plan: Plan, ledger: seq<Attempt>, at: Instant) {
    if |ledger| == 0 then at >= plan.targetCloseAt + 12 * HOUR
    else at >= ledger[|ledger| - 1].completedAt + 300 * Power2(|ledger| - 1) * SECOND
  }

  lemma RestedIff(plan: Plan, ledger: seq<Attempt>, at: Instant)
    requires |ledger| <= 5
    ensures Rested(plan, ledger, at) <==> at >= Earliest(plan, ledger)
  {
    if ledger != [] { BackoffDoubles(|ledger|); }
  }

  /** On every run, whatever any clock shows and however late any worker acts: a job is not claimable
      before it has rested since its target close or its latest committed result, even if leases
      expired and it was requeued in between. */
  lemma ClaimsRespectBackoff(events: seq<Event>, id: PlanId, now: Instant)
    requires Due(Run(INITIAL, events).tables, id, now)
    ensures var t := Run(INITIAL, events).tables; Rested(t.plans[id], Ledger(t.rows, id), now)
  {
    Reachable(events);
    var t := Run(INITIAL, events).tables;
    assert EntryInv(t, id);
    RestedIff(t.plans[id], Ledger(t.rows, id), now);
  }

  /** Every claim that was ever handed out for attempt n had rested since result n - 1. */
  lemma ClaimsWereRested(events: seq<Event>, c: Claim)
    requires c in Run(INITIAL, events).claims
    ensures var t := Run(INITIAL, events).tables;
      && c.planId in t.plans && c.plan == t.plans[c.planId]
      && 1 <= c.number <= |Ledger(t.rows, c.planId)| + 1
      && Rested(c.plan, Ledger(t.rows, c.planId)[..c.number - 1], c.claimedAt)
  {
    Reachable(events);
    var t := Run(INITIAL, events).tables;
    assert ClaimInv(t, c);
    RestedIff(c.plan, Ledger(t.rows, c.planId)[..c.number - 1], c.claimedAt);
  }
}
