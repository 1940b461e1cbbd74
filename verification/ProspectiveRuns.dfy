/** The worker object. Its methods change the store exactly as the protocol's events do, so every
    pass of a worker is a piece of a protocol run. */
module ProspectiveRuns {
  import opened Calendar
  import opened Outcomes
  import opened Ordering
  import opened ProspectiveContracts
  import opened ProspectiveEvaluator
  import opened ProspectiveStore
  import opened ProspectiveWorker
  import opened ProspectiveProtocol
  import opened ProspectiveGuarantees
  import opened ProspectiveProgress
  import opened ProspectiveProvider
  import opened ProspectiveTiming

  /** The exception that ends the processing of a claim: the request or the receipt cannot be built,
      the store refuses the transaction, or the outcome cannot be constructed. */
  datatype WorkerError = Aborted(reason: AbortReason) | Refused(store: StoreError) | Rejected(evaluation: EvaluationError)

  /** What processing a claim leaves behind. */
  datatype Aftermath = Aftermath(tables: Tables, error: Option<WorkerError>)

  /** One claim processed with nobody in between. */
  function ProcessedBy(t: Tables, claim: Claim, d: Decision): Aftermath {
    match d
    case Abort(reason) => Aftermath(t, Some(Aborted(reason)))
    case Retry(receipt, next) =>
      (match RetryWithAttempt(t, claim.planId, receipt, receipt.completedAt, next)
       case Ok(after) => Aftermath(after, None)
       case Err(error) => Aftermath(t, Some(Refused(error))))
    case Finish(receipt, o) =>
      (match Conclude(claim, receipt, o, AttemptsForPlan(t, claim.planId))
       case Err(error) => Aftermath(t, Some(Rejected(error)))
       case Ok(outcome) =>
         match CompleteWithAttempt(t, outcome, receipt)
         case Ok(after) => Aftermath(after, None)
         case Err(error) => Aftermath(t, Some(Refused(error))))
  }

  function Processed(t: Tables, claim: Claim, work: Work): Aftermath
    requires 1 <= claim.number
  {
    ProcessedBy(t, claim, Decide(claim, work))
  }

  /** One row for the claim, with the claim's own number, was added to the attempt table. */
  ghost predicate AddsResult(rows: seq<AttemptRow>, after: seq<AttemptRow>, claim: Claim) {
    exists receipt ::
      after == rows + [AttemptRow(claim.planId, receipt)] && receipt.number == claim.number
  }

  /** Processing a claim either raises and changes no table, or adds its one result. */
  lemma ErrorMeansNoResult(t: Tables, claim: Claim, work: Work)
    requires 1 <= claim.number && claim.plan.Id() == claim.planId
    ensures var p := Processed(t, claim, work);
      && (p.error.Some? ==> p.tables == t)
      && (p.error.None? ==> Fence(t, claim.planId, claim.number) && AddsResult(t.rows, p.tables.rows, claim))
  {
    DecisionIsSound(claim, work);
    var d := Decide(claim, work);
    if Processed(t, claim, work).error.None? {
      assert ProcessedBy(t, claim, d).tables.rows == t.rows + [AttemptRow(claim.planId, d.receipt)];
    }
  }

  /** The events that processing a claim amounts to. */
  ghost function ProcessEvents(t: Tables, claim: Claim, work: Work): seq<Event>
    requires 1 <= claim.number
  {
    var d := Decide(claim, work);
    match d
    case Abort(_) => []
    case Retry(_, _) => [RetryEvent(claim, work)]
    case Finish(receipt, o) =>
      [ReadEvent(claim, work), CommitEvent(Verdict(claim, receipt, o, AttemptsForPlan(t, claim.planId)))]
  }

  /** Processing a claim is what the protocol's own events do. */
  lemma ProcessIsARun(s: System, claim: Claim, work: Work)
    requires Working(s, claim, work)
    ensures Run(s, ProcessEvents(s.tables, claim, work)).tables == Processed(s.tables, claim, work).tables
    ensures Run(s, ProcessEvents(s.tables, claim, work)).issued <= s.issued + {work.attemptId}
  {
    var d := Decide(claim, work);
    DecisionIsSound(claim, work);
    match d
    case Abort(_) => assert Run(s, []) == s;
    case Retry(_, _) => RunOne(s, RetryEvent(claim, work));
    case Finish(receipt, o) =>
      var v := Verdict(claim, receipt, o, AttemptsForPlan(s.tables, claim.planId));
      RunTwo(s, ReadEvent(claim, work), CommitEvent(v));
      ReadThenCommit(s, claim, work, d, v);
      var read := Step(s, ReadEvent(claim, work));
      CommitStep(read, v);
      CommitIsProcessing(read, v, Concluded(v));
  }

  lemma CommitIsProcessing(s: System, v: Verdict, concluded: Result<Outcome, EvaluationError>)
    ensures AfterCommit(s, v, concluded).issued == s.issued
    ensures AfterCommit(s, v, concluded).tables
      == match concluded
         case Err(_) => s.tables
         case Ok(outcome) =>
           if outcome.attempts == [] then s.tables
           else match CompleteWithAttempt(s.tables, outcome, v.receipt)
             case Ok(after) => after
             case Err(_) => s.tables
  {
  }

  /** With the market-data adapter, an unraced attempt that ends in time on a plan whose window fits one
      request is always processed without an error, whatever the provider answers. */
  lemma UnracedProcessingSucceeds(s: System, claim: Claim, work: Work, digests: Digests)
    requires Inv(s) && IdInv(s) && digests.Separates()
    requires Working(s, claim, work) && Fence(s.tables, claim.planId, claim.number)
    requires FromProvider(claim, work, digests) && EndsInTime(s.tables, claim, work) && WindowFits(claim.plan)
    ensures Processed(s.tables, claim, work).error.None?
  {
    assert ClaimInv(s.tables, claim);
    ProviderAnswers(claim, work, digests);
    AbortIff(claim, work);
    var d := Decide(claim, work);
    if d.Retry? {
      UnracedRetryIsStored(s, claim, work);
    } else {
      ProviderOutcomeIsAccepted(s, claim, work, digests);
      UnracedOutcomeIsStored(s, claim, work);
    }
    FencedResultIsStored(s.tables, claim, d);
  }

  lemma FencedResultIsStored(t: Tables, claim: Claim, d: Decision)
    requires match d
      case Abort(_) => false
      case Retry(receipt, next) => RetryWithAttempt(t, claim.planId, receipt, receipt.completedAt, next).Ok?
      case Finish(receipt, o) =>
        var outcome := Conclude(claim, receipt, o, AttemptsForPlan(t, claim.planId));
        outcome.Ok? && outcome.value.attempts != [] && CompleteWithAttempt(t, outcome.value, receipt).Ok?
    ensures ProcessedBy(t, claim, d).error.None?
  {
  }

  // ----- passes over due jobs -----

  /** A claim a pass took, and what its worker then saw. */
  datatype Handled = Handled(claim: Claim, work: Work)

  predicate Numbered(handled: seq<Handled>) { forall h <- handled :: 1 <= h.claim.number }

  function ClaimOf(h: Handled): Event { ClaimEvent(h.claim.planId, h.claim.claimedAt) }

  /** Claim and process, one after the other. */
  ghost function PassEvents(s: System, handled: seq<Handled>): seq<Event>
    requires Numbered(handled)
  {
    if |handled| == 0 then []
    else
      var front, h := handled[..|handled| - 1], handled[|handled| - 1];
      var claimed := PassEvents(s, front) + [ClaimOf(h)];
      claimed + ProcessEvents(Run(s, claimed).tables, h.claim, h.work)
  }

  /** What processing the last of the claims raised. */
  ghost function LastError(s: System, handled: seq<Handled>): Option<WorkerError>
    requires Numbered(handled) && handled != []
  {
    var front, h := handled[..|handled| - 1], handled[|handled| - 1];
    Processed(Run(s, PassEvents(s, front) + [ClaimOf(h)]).tables, h.claim, h.work).error
  }

  /** What a worker finds when it comes to its next batch slot: its clock, the rows other
      transactions hold, and what the provider and the clock do for a given claim. */
  datatype Slot = Slot(now: Instant, locked: set<PlanId>, attemptId: nat, work: Claim -> Work)

  /** The attempt identifiers of the slots from `i` on are unused and distinct. */
  ghost predicate FreshSlots(slots: seq<Slot>, i: nat, issued: set<nat>) {
    && (forall j | i <= j < |slots| :: OwnIdentifier(slots[j]) && slots[j].attemptId !in issued)
    && (forall j, k | i <= j < k < |slots| :: slots[j].attemptId != slots[k].attemptId)
  }

  ghost predicate OwnIdentifier(slot: Slot) { forall c: Claim :: slot.work(c).attemptId == slot.attemptId }

  /** The claims were taken in the slots' order, each worked on with what its slot holds. */
  predicate InSlots(handled: seq<Handled>, slots: seq<Slot>) {
    && |handled| <= |slots|
    && forall i | 0 <= i < |handled| ::
         handled[i].claim.claimedAt == slots[i].now && handled[i].work == slots[i].work(handled[i].claim)
  }

  /** Nothing was raised. */
  ghost predicate Clean(s: System, handled: seq<Handled>)
    requires Numbered(handled)
  {
    handled != [] ==> Clean(s, handled[..|handled| - 1]) && LastError(s, handled).None?
  }

  /** No error before the last claim; `error` is what the last one raised, if the pass stopped there. */
  ghost predicate Errors(s: System, handled: seq<Handled>, processed: nat, error: Option<WorkerError>)
    requires Numbered(handled)
  {
    if error.None? then |handled| == processed && Clean(s, handled)
    else |handled| == processed + 1 && Clean(s, handled[..processed]) && LastError(s, handled) == error
  }

  ghost predicate Good(s: System) { Inv(s) && IdInv(s) }

  lemma {:induction false} RunKeepsGood(s: System, events: seq<Event>)
    requires Good(s)
    ensures Good(Run(s, events)) && s.claims <= Run(s, events).claims
  {
    if |events| != 0 {
      var before := Run(s, events[..|events| - 1]);
      RunKeepsGood(s, events[..|events| - 1]);
      StepKeepsInv(before, events[|events| - 1]);
      StepKeepsIds(before, events[|events| - 1]);
    }
  }

  /** Taking and processing one more claim. */
  lemma PassGrows(start: System, handled: seq<Handled>, h: Handled)
    requires Numbered(handled)
    requires var s := Run(start, PassEvents(start, handled));
      && Good(s) && Due(s.tables, h.claim.planId, h.claim.claimedAt)
      && h.claim == TakeClaim(s.tables, h.claim.planId, h.claim.claimedAt).1
      && h.work.attemptId !in s.issued
    ensures 1 <= h.claim.number && Numbered(handled + [h])
    ensures var s := Run(start, PassEvents(start, handled)); var next := Run(start, PassEvents(start, handled + [h]));
      var p := Processed(TakeClaim(s.tables, h.claim.planId, h.claim.claimedAt).0, h.claim, h.work);
      && Good(next) && next.tables == p.tables && LastError(start, handled + [h]) == p.error
      && next.issued <= s.issued + {h.work.attemptId} && next.tables.plans == s.tables.plans
      && s.claims + {h.claim} <= next.claims
  {
    var s := Run(start, PassEvents(start, handled));
    var claimed := PassEvents(start, handled) + [ClaimOf(h)];
    assert (handled + [h])[..|handled|] == handled;
    RunSnoc(start, PassEvents(start, handled), ClaimOf(h));
    var taken := Run(start, claimed);
    StepKeepsInv(s, ClaimOf(h));
    StepKeepsIds(s, ClaimOf(h));
    assert ClaimInv(taken.tables, h.claim);
    ProcessIsARun(taken, h.claim, h.work);
    var more := ProcessEvents(taken.tables, h.claim, h.work);
    RunConcat(start, claimed, more);
    RunKeepsGood(taken, more);
    ProcessingKeepsPlans(taken.tables, h.claim, Decide(h.claim, h.work));
  }

  lemma ProcessingKeepsPlans(t: Tables, claim: Claim, d: Decision)
    ensures ProcessedBy(t, claim, d).tables.plans == t.plans
  {
  }

  /** The pass so far: from `start`, claiming and processing `handled` in the slots' order ends in the
      tables `t`. */
  ghost predicate PassIs(start: System, handled: seq<Handled>, slots: seq<Slot>, processed: nat,
                         error: Option<WorkerError>, t: Tables)
  {
    && Numbered(handled) && InSlots(handled, slots) && Errors(start, handled, processed, error)
    && EndsIn(Run(start, PassEvents(start, handled)), handled, t)
  }

  ghost predicate EndsIn(end: System, handled: seq<Handled>, t: Tables) {
    Good(end) && end.tables == t && forall h <- handled :: h.claim in end.claims
  }

  ghost predicate Passing(start: System, handled: seq<Handled>, slots: seq<Slot>, i: nat, t: Tables) {
    && PassIs(start, handled, slots, i, None, t)
    && FreshSlots(slots, i, Run(start, PassEvents(start, handled)).issued)
  }

  lemma ErrorsGrow(start: System, handled: seq<Handled>, h: Handled, i: nat)
    requires Numbered(handled) && Errors(start, handled, i, None) && 1 <= h.claim.number
    ensures Numbered(handled + [h])
    ensures var error := LastError(start, handled + [h]);
      Errors(start, handled + [h], if error.None? then i + 1 else i, error)
  {
    assert (handled + [h])[..i] == handled;
  }

  lemma InSlotsGrow(handled: seq<Handled>, slots: seq<Slot>, h: Handled)
    requires InSlots(handled, slots) && |handled| < |slots|
    requires h.claim.claimedAt == slots[|handled|].now && h.work == slots[|handled|].work(h.claim)
    ensures InSlots(handled + [h], slots)
  {
  }

  lemma FreshSlotsShrink(slots: seq<Slot>, i: nat, before: set<nat>, after: set<nat>)
    requires i < |slots| && FreshSlots(slots, i, before) && after <= before + {slots[i].attemptId}
    ensures FreshSlots(slots, i + 1, after)
  {
    assert forall j | i < j < |slots| :: slots[i].attemptId != slots[j].attemptId;
  }

  lemma EndGrows(s: System, next: System, handled: seq<Handled>, h: Handled, t: Tables)
    requires EndsIn(s, handled, s.tables) && Good(next) && next.tables == t && s.claims + {h.claim} <= next.claims
    ensures EndsIn(next, handled + [h], t)
  {
    forall g | g in handled + [h] ensures g.claim in next.claims {
      assert g in handled || g == h;
    }
  }

  /** One more slot: the pass goes on, or ends with the error of this claim. */
  lemma PassStep(start: System, handled: seq<Handled>, slots: seq<Slot>, i: nat, t: Tables, h: Handled)
    requires i < |slots| && Passing(start, handled, slots, i, t)
    requires Due(t, h.claim.planId, slots[i].now) && h.claim == TakeClaim(t, h.claim.planId, slots[i].now).1
    requires h.work == slots[i].work(h.claim)
    ensures 1 <= h.claim.number
    ensures var p := Processed(TakeClaim(t, h.claim.planId, slots[i].now).0, h.claim, h.work);
      && (p.error.None? ==> Passing(start, handled + [h], slots, i + 1, p.tables))
      && (p.error.Some? ==> PassIs(start, handled + [h], slots, i, p.error, p.tables))
      && p.tables.plans == t.plans
  {
    assert OwnIdentifier(slots[i]);
    PassGrows(start, handled, h);
    var s, next := Run(start, PassEvents(start, handled)), Run(start, PassEvents(start, handled + [h]));
    ErrorsGrow(start, handled, h, i);
    InSlotsGrow(handled, slots, h);
    FreshSlotsShrink(slots, i, s.issued, next.issued);
    EndGrows(s, next, handled, h, next.tables);
  }

  // ----- six results finish a job -----

  /** Whatever happens meanwhile, and then one claim that is processed with nobody in between. */
  datatype Turn = Turn(meanwhile: seq<Event>, handled: Handled)

  ghost function TurnEvents(s: System, turn: Turn): seq<Event>
    requires 1 <= turn.handled.claim.number
  {
    turn.meanwhile + PassEvents(Run(s, turn.meanwhile), [turn.handled])
  }

  /** The turn claims the due job of the plan and works on it with the adapter, ending in time. */
  ghost predicate UnracedTurn(s: System, turn: Turn, id: PlanId, digests: Digests) {
    var ready, claim, work := Run(s, turn.meanwhile), turn.handled.claim, turn.handled.work;
    && Due(ready.tables, id, claim.claimedAt) && claim == TakeClaim(ready.tables, id, claim.claimedAt).1
    && 1 <= claim.number && work.attemptId !in ready.issued
    && FromProvider(claim, work, digests) && EndsInTime(ready.tables, claim, work)
  }

  ghost predicate UnracedTurns(s: System, turns: seq<Turn>, id: PlanId, digests: Digests)
    decreases |turns|
  {
    turns != [] ==>
      && UnracedTurn(s, turns[0], id, digests)
      && UnracedTurns(Run(s, TurnEvents(s, turns[0])), turns[1..], id, digests)
  }

  ghost function AllTurnEvents(s: System, turns: seq<Turn>): seq<Event>
    requires forall turn <- turns :: 1 <= turn.handled.claim.number
    decreases |turns|
  {
    if turns == [] then []
    else
      var first := TurnEvents(s, turns[0]);
      first + AllTurnEvents(Run(s, first), turns[1..])
  }

  lemma {:induction false} TurnsAreNumbered(s: System, turns: seq<Turn>, id: PlanId, digests: Digests)
    requires UnracedTurns(s, turns, id, digests)
    ensures forall turn <- turns :: 1 <= turn.handled.claim.number
    decreases |turns|
  {
    if turns != [] { TurnsAreNumbered(Run(s, TurnEvents(s, turns[0])), turns[1..], id, digests); }
  }

  /** The plan is still there and its ledger has grown by at least `n` results. */
  ghost predicate Grown(s: System, next: System, id: PlanId, n: nat) {
    && Good(next) && id in s.tables.plans && id in next.tables.plans
    && next.tables.plans[id] == s.tables.plans[id]
    && |Ledger(next.tables.rows, id)| >= |Ledger(s.tables.rows, id)| + n
  }

  lemma GrownTwice(s: System, middle: System, next: System, id: PlanId, m: nat, n: nat)
    requires Grown(s, middle, id, m) && Grown(middle, next, id, n)
    ensures Grown(s, next, id, m + n)
  {
  }

  lemma MeanwhileGrows(s: System, meanwhile: seq<Event>, id: PlanId)
    requires Good(s) && id in s.tables.plans
    ensures Grown(s, Run(s, meanwhile), id, 0)
  {
    RunKeepsGood(s, meanwhile);
    RunKeepsInv(s, meanwhile);
    assert Ledger(s.tables.rows, id) <= Ledger(Run(s, meanwhile).tables.rows, id);
  }

  /** A claim taken now and processed at once adds its result. */
  lemma ProcessedClaimGrows(ready: System, h: Handled, id: PlanId, digests: Digests)
    requires Good(ready) && digests.Separates() && id in ready.tables.plans && WindowFits(ready.tables.plans[id])
    requires UnracedTurn(ready, Turn([], h), id, digests)
    ensures Grown(ready, Run(ready, PassEvents(ready, [h])), id, 1)
  {
    assert Run(ready, []) == ready && PassEvents(ready, []) == [] && [] + [h] == [h];
    PassGrows(ready, [], h);
    StepKeepsInv(ready, ClaimOf(h));
    StepKeepsIds(ready, ClaimOf(h));
    TakenIsProcessed(ready, Step(ready, ClaimOf(h)), h, digests);
  }

  lemma ResultLengthensLedger(rows: seq<AttemptRow>, after: seq<AttemptRow>, claim: Claim)
    requires AddsResult(rows, after, claim)
    ensures |Ledger(after, claim.planId)| == |Ledger(rows, claim.planId)| + 1
  {
    var receipt :| after == rows + [AttemptRow(claim.planId, receipt)] && receipt.number == claim.number;
    LedgerOfAppend(rows, AttemptRow(claim.planId, receipt), claim.planId);
  }

  lemma ClaimedPlan(s: System, claim: Claim)
    requires Inv(s) && claim in s.claims
    ensures claim.plan.Id() == claim.planId
  {
    assert ClaimInv(s.tables, claim) && EntryInv(s.tables, claim.planId);
  }

  lemma TakenIsProcessed(ready: System, taken: System, h: Handled, digests: Digests)
    requires Good(taken) && digests.Separates() && h.claim in taken.claims && 1 <= h.claim.number
    requires h.work.attemptId !in taken.issued && Fence(taken.tables, h.claim.planId, h.claim.number)
    requires taken.tables.rows == ready.tables.rows && WindowFits(h.claim.plan)
    requires FromProvider(h.claim, h.work, digests) && EndsInTime(ready.tables, h.claim, h.work)
    ensures var p := Processed(taken.tables, h.claim, h.work);
      |Ledger(p.tables.rows, h.claim.planId)| == |Ledger(ready.tables.rows, h.claim.planId)| + 1
  {
    ClaimedPlan(taken, h.claim);
    SameRowsEndInTime(ready.tables, taken.tables, h.claim, h.work);
    UnracedProcessingSucceeds(taken, h.claim, h.work, digests);
    ErrorMeansNoResult(taken.tables, h.claim, h.work);
    ResultLengthensLedger(taken.tables.rows, Processed(taken.tables, h.claim, h.work).tables.rows, h.claim);
  }

  lemma SameRowsEndInTime(t: Tables, next: Tables, claim: Claim, work: Work)
    requires t.rows == next.rows && EndsInTime(t, claim, work)
    ensures EndsInTime(next, claim, work)
  {
  }

  lemma TurnGrows(s: System, turn: Turn, id: PlanId, digests: Digests)
    requires Good(s) && digests.Separates() && id in s.tables.plans && WindowFits(s.tables.plans[id])
    requires UnracedTurn(s, turn, id, digests)
    ensures Grown(s, Run(s, TurnEvents(s, turn)), id, 1)
  {
    var ready := Run(s, turn.meanwhile);
    MeanwhileGrows(s, turn.meanwhile, id);
    assert Run(ready, []) == ready;
    ProcessedClaimGrows(ready, turn.handled, id, digests);
    RunConcat(s, turn.meanwhile, PassEvents(ready, [turn.handled]));
    GrownTwice(s, ready, Run(s, TurnEvents(s, turn)), id, 0, 1);
  }

  lemma {:induction false} TurnsGrow(s: System, turns: seq<Turn>, id: PlanId, digests: Digests)
    requires Good(s) && digests.Separates() && id in s.tables.plans && WindowFits(s.tables.plans[id])
    requires UnracedTurns(s, turns, id, digests)
    ensures forall turn <- turns :: 1 <= turn.handled.claim.number
    ensures Grown(s, Run(s, AllTurnEvents(s, turns)), id, |turns|)
    decreases |turns|
  {
    TurnsAreNumbered(s, turns, id, digests);
    if turns != [] {
      var first := TurnEvents(s, turns[0]);
      TurnGrows(s, turns[0], id, digests);
      TurnsGrow(Run(s, first), turns[1..], id, digests);
      RunConcat(s, first, AllTurnEvents(Run(s, first), turns[1..]));
      GrownTwice(s, Run(s, first), Run(s, AllTurnEvents(s, turns)), id, 1, |turns| - 1);
    }
  }

  /** However a run began and whatever happens between the turns, on any clocks: once an unfinished job
      whose sessions span at most 90 days has been claimed and processed unraced, with the adapter and ending
      in time, as many more times as its counter is short of six, it is finished, whatever the provider
      answered. */
  lemma SixResultsFinish(past: seq<Event>, turns: seq<Turn>, id: PlanId, digests: Digests)
    requires digests.Separates() && Unfinished(Run(INITIAL, past), id)
    requires var plan := Run(INITIAL, past).tables.plans[id]; plan.targetDate - plan.referenceDate <= 90
    requires UnracedTurns(Run(INITIAL, past), turns, id, digests)
    requires |turns| >= 6 - Run(INITIAL, past).tables.jobs[id].attempts
    ensures forall turn <- turns :: 1 <= turn.handled.claim.number
    ensures !Unfinished(Run(Run(INITIAL, past), AllTurnEvents(Run(INITIAL, past), turns)), id)
  {
    var s := Run(INITIAL, past);
    ReachableIds(past);
    assert EntryInv(s.tables, id);
    TurnsGrow(s, turns, id, digests);
    assert EntryInv(Run(s, AllTurnEvents(s, turns)).tables, id);
  }

  /** So it is for every job when all plans come from the session planner. */
  lemma SixResultsFinishPlanned(past: seq<Event>, turns: seq<Turn>, id: PlanId, digests: Digests)
    requires digests.Separates() && PlannedEnrollments(past) && Unfinished(Run(INITIAL, past), id)
    requires UnracedTurns(Run(INITIAL, past), turns, id, digests)
    requires |turns| >= 6 - Run(INITIAL, past).tables.jobs[id].attempts
    ensures forall turn <- turns :: 1 <= turn.handled.claim.number
    ensures !Unfinished(Run(Run(INITIAL, past), AllTurnEvents(Run(INITIAL, past), turns)), id)
  {
    PlansComeFromEnrollment(past);
    SixResultsFinish(past, turns, id, digests);
  }

  // ----- enrollment -----

  ghost function EnrollEvents(planned: seq<Plan>, now: Instant): seq<Event> {
    seq(|planned|, i requires 0 <= i < |planned| => EnrollEvent(planned[i], now))
  }

  lemma EnrollOne(start: System, planned: seq<Plan>, i: nat, now: Instant)
    requires i < |planned| && planned[i].Valid() && Good(Run(start, EnrollEvents(planned[..i], now)))
    ensures var s := Run(start, EnrollEvents(planned[..i], now)); var next := Run(start, EnrollEvents(planned[..i + 1], now));
      && next == s.(tables := Enroll(s.tables, planned[i], now)) && Good(next)
      && |next.tables.plans| == |s.tables.plans| + if planned[i].Id() in s.tables.plans then 0 else 1
  {
    var s := Run(start, EnrollEvents(planned[..i], now));
    assert EnrollEvents(planned[..i + 1], now) == EnrollEvents(planned[..i], now) + [EnrollEvent(planned[i], now)];
    RunSnoc(start, EnrollEvents(planned[..i], now), EnrollEvent(planned[i], now));
    StepKeepsInv(s, EnrollEvent(planned[i], now));
    StepKeepsIds(s, EnrollEvent(planned[i], now));
  }

  // ----- the worker object -----

  class ProspectiveOutcomeWorker {
    const store: OutcomeStore
    const batchSize: nat

    constructor (store: OutcomeStore, batchSize: nat)
      requires 1 <= batchSize <= 50
      ensures this.store == store && this.batchSize == batchSize
    {
      this.store, this.batchSize := store, batchSize;
    }

    method FinishFailure(claim: Claim, work: Work, code: ErrorCode, retryable: bool, o: Observations,
                         hashes: seq<Hash>, rows: int) returns (error: Option<WorkerError>)
      requires 1 <= claim.number
      modifies store
      ensures Aftermath(store.Contents(), error)
           == ProcessedBy(old(store.Contents()), claim, Fail(claim, work, code, retryable, o, hashes, rows))
    {
      var terminal := !retryable || claim.number >= 6;
      var status := if terminal then TerminalFailure else RetryableFailure;
      var receipt := Attempt(work.attemptId, claim.plan.publicationId, claim.plan.horizon, claim.number,
                             work.startedAt, work.finishedAt, status, hashes, rows, Some(code));
      if !receipt.Valid() { return Some(Aborted(ReceiptInvalid)); }
      if !terminal {
        var refused := store.Retry(claim.planId, receipt, work.finishedAt, work.finishedAt + Backoff(claim.number));
        return if refused.Some? then Some(Refused(refused.value)) else None;
      }
      error := Submit(claim, receipt, o);
    }

    /** Reads the ledger, evaluates and commits. */
    method Submit(claim: Claim, receipt: Attempt, o: Observations) returns (error: Option<WorkerError>)
      modifies store
      ensures Aftermath(store.Contents(), error) == ProcessedBy(old(store.Contents()), claim, Finish(receipt, o))
    {
      var attempts := store.Attempts(claim.planId);
      var outcome := Conclude(claim, receipt, o, attempts);
      if outcome.Err? { return Some(Rejected(outcome.error)); }
      var refused := store.Complete(outcome.value, receipt);
      return if refused.Some? then Some(Refused(refused.value)) else None;
    }

    method Process(claim: Claim, work: Work) returns (error: Option<WorkerError>)
      requires 1 <= claim.number
      modifies store
      ensures Aftermath(store.Contents(), error) == Processed(old(store.Contents()), claim, work)
    {
      if !WindowFits(claim.plan) { return Some(Aborted(RequestInvalid)); }
      if !work.assetReply.Bars? {
        error := FinishFailure(claim, work, CodeOf(work.assetReply), Retryable(work.assetReply),
                               NO_OBSERVATIONS, [], 0);
        return;
      }
      var asset := work.assetReply.batch;
      if !work.benchmarkReply.Bars? {
        error := FinishFailure(claim, work, CodeOf(work.benchmarkReply), Retryable(work.benchmarkReply),
                               NO_OBSERVATIONS, [asset.responseHash], |asset.bars|);
        return;
      }
      var benchmark := work.benchmarkReply.batch;
      error := ProcessObserved(claim, work, Observe(claim.plan, asset, benchmark),
                               [asset.responseHash, benchmark.responseHash], |asset.bars| + |benchmark.bars|,
                               Decide(claim, work));
    }

    /** The rest of the processing, once both batches have arrived. */
    method ProcessObserved(claim: Claim, work: Work, o: Observations, hashes: seq<Hash>, rows: int, ghost d: Decision)
      returns (error: Option<WorkerError>)
      requires 1 <= claim.number
      requires d == if o.Complete() then Succeed(claim, work, o, hashes, rows)
                    else Fail(claim, work, ObservationMissing, true, o, hashes, rows)
      modifies store
      ensures Aftermath(store.Contents(), error) == ProcessedBy(old(store.Contents()), claim, d)
    {
      if !o.Complete() {
        error := FinishFailure(claim, work, ObservationMissing, true, o, hashes, rows);
        return;
      }
      var receipt := Attempt(work.attemptId, claim.plan.publicationId, claim.plan.horizon, claim.number,
                             work.startedAt, work.observedAt, Succeeded, hashes, rows, None);
      if !receipt.Valid() { return Some(Aborted(ReceiptInvalid)); }
      error := Submit(claim, receipt, o);
    }

    /** One pass: requeue expired leases, enroll the planned publications, then claim and process
        up to a batch of due jobs; an error ends the pass. It is exactly the protocol run of these
        events; `enrolled` counts the plans that are new, and `processed` the claims that were processed
        without an error, of which there is at most one, the last. */
    method RunOnce(now: Instant, planned: seq<Plan>, slots: seq<Slot>, ghost start: System)
      returns (enrolled: nat, processed: nat, error: Option<WorkerError>, ghost handled: seq<Handled>)
      requires Good(start) && start.tables == store.Contents()
      requires forall plan | plan in planned :: plan.Valid()
      requires |slots| == batchSize && FreshSlots(slots, 0, start.issued)
      modifies store
      ensures PassIs(Run(Step(start, RequeueEvent(now, 900)), EnrollEvents(planned, now)), handled, slots,
                     processed, error, store.Contents())
      ensures enrolled == |store.plans| - |old(store.plans)|
      ensures error.None? && processed < batchSize ==>
        forall id :: Due(store.Contents(), id, slots[processed].now) ==> id in slots[processed].locked
    {
      var requeued := store.Requeue(now, 900);
      StepKeepsInv(start, RequeueEvent(now, 900));
      StepKeepsIds(start, RequeueEvent(now, 900));
      ghost var s := Step(start, RequeueEvent(now, 900));
      enrolled := EnrollPublications(now, planned, s);
      processed, error, handled := ProcessDue(slots, Run(s, EnrollEvents(planned, now)));
    }

    method EnrollPublications(now: Instant, planned: seq<Plan>, ghost start: System) returns (enrolled: nat)
      requires Good(start) && start.tables == store.Contents()
      requires forall plan | plan in planned :: plan.Valid()
      modifies store
      ensures var s := Run(start, EnrollEvents(planned, now));
        Good(s) && s.tables == store.Contents() && s.issued == start.issued
      ensures enrolled == |store.plans| - |old(store.plans)|
    {
      enrolled := 0;
      assert EnrollEvents(planned[..0], now) == [];
      for i := 0 to |planned|
        invariant var s := Run(start, EnrollEvents(planned[..i], now));
          Good(s) && s.tables == store.Contents() && s.issued == start.issued
        invariant enrolled == |store.plans| - |old(store.plans)|
      {
        EnrollOne(start, planned, i, now);
        var inserted := store.EnrollPlan(planned[i], now);
        if inserted { enrolled := enrolled + 1; }
      }
      assert planned[..|planned|] == planned;
    }

    method ProcessDue(slots: seq<Slot>, ghost start: System)
      returns (processed: nat, error: Option<WorkerError>, ghost handled: seq<Handled>)
      requires Good(start) && start.tables == store.Contents()
      requires |slots| == batchSize && FreshSlots(slots, 0, start.issued)
      modifies store
      ensures PassIs(start, handled, slots, processed, error, store.Contents())
      ensures store.plans == old(store.plans)
      ensures error.None? && processed < batchSize ==>
        forall id :: Due(store.Contents(), id, slots[processed].now) ==> id in slots[processed].locked
    {
      processed, error, handled := 0, None, [];
      for i := 0 to batchSize
        invariant processed == i && error.None?
        invariant Passing(start, handled, slots, i, store.Contents())
        invariant store.plans == old(store.plans)
      {
        ghost var before := store.Contents();
        var claimed := store.ClaimDue(slots[i].now, slots[i].locked);
        if claimed.None? { return; }
        var claim := claimed.value;
        var work := slots[i].work(claim);
        PassStep(start, handled, slots, i, before, Handled(claim, work));
        error := Process(claim, work);
        handled := handled + [Handled(claim, work)];
        if error.Some? { return; }
        processed := processed + 1;
      }
    }
  }
}
