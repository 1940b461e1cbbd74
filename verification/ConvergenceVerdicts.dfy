/** What the service and its producers come to, end to end: from the fields of a filing to the verdict of
    the receipt that is kept. */
module ConvergenceVerdicts {
  import opened Calendar
  import opened Filtering
  import opened Outcomes
  import opened Ordering
  import opened Contradictions
  import opened ContradictionVerdicts
  import opened ConvergenceService
  import opened ConvergenceProducers
  import opened OwnershipProducer
  import opened XbrlProducer

  // ----- the service -----

  /** Which requests the service takes: those whose check succeeds, with a truth observed if they were
      declared complete, with facts missing or incomparable if partial, and with a planned sale alone if
      not applicable. It keeps the receipt of that check. */
  lemma ServiceTakesIff(request: Request)
    ensures var checked := Check(request.claim, request.facts, request.cutoff);
      && (Reevaluate(request).Ok? <==>
            && checked.Ok?
            && match request.completeness
               case RequiredFactsComplete => checked.value.evaluation.observed.Some?
               case PartialValidatedFacts => checked.value.evaluation.disposition == Insufficient
               case NotApplicableContext => checked.value.evaluation.disposition == NotApplicable)
      && (Reevaluate(request).Ok? ==> Reevaluate(request).value == checked.value)
  {
    var checked := Check(request.claim, request.facts, request.cutoff);
    if checked.Ok? { ObservedIff(request.claim, request.facts, request.cutoff); }
  }

  lemma ObservedShape(e: Evaluation, truth: bool)
    requires VerdictShape(e, truth)
    ensures e.observed.Some? <==> e.disposition == Supported || e.disposition == Conflicted
  {
    match e.observed
    case None =>
    case Some(shown) => if shown == truth { assert e.observed == Some(truth); } else { assert e.observed == Some(!truth); }
  }

  lemma ObservedIff(claim: Claim, facts: seq<Fact>, cutoff: Instant)
    requires Check(claim, facts, cutoff).Ok?
    ensures var e := Check(claim, facts, cutoff).value.evaluation;
      e.observed.Some? <==> e.disposition == Supported || e.disposition == Conflicted
  {
    CheckedShape(claim, facts, cutoff);
    ObservedShape(Check(claim, facts, cutoff).value.evaluation, claim.assertedTruth);
  }

  /** The verdict on a claim that the facts were asked to support. */
  predicate Judged(r: Result<Receipt, ServiceError>, truth: bool) {
    && r.Ok? && r.value.evaluation.observed == Some(truth)
    && r.value.evaluation.disposition == (if truth == r.value.claim.assertedTruth then Supported else Conflicted)
  }

  lemma JudgedBy(request: Request, truth: bool)
    requires Reevaluate(request).Ok?
    requires FindingOf(request.claim.subject, RelevantFacts(request.claim, request.facts)).Ok?
    requires FindingOf(request.claim.subject, RelevantFacts(request.claim, request.facts)).value.Observed?
    requires FindingOf(request.claim.subject, RelevantFacts(request.claim, request.facts)).value.truth == truth
    ensures Judged(Reevaluate(request), truth)
  {
    CheckJudges(request.claim, request.facts, request.cutoff);
    RecheckReproduces(request.claim, request.facts, request.cutoff);
  }

  // ----- building a request -----

  /** Which requests a producer may make: of a claim whose family, times and evidence are in order, from facts
      of which none comes from the claim's own record and content, nor rests on a piece of its evidence. */
  lemma RequestBuiltIff(claim: Claim, facts: seq<Fact>, cutoff: Instant, completeness: Completeness)
    ensures var r := BuildRequest(claim, facts, cutoff, completeness);
      && (r.Ok? <==>
            && (forall fact <- facts :: fact.sourceRecord != claim.sourceRecord || fact.sourceHash != claim.sourceHash)
            && (forall fact <- facts, id <- fact.evidence :: id !in claim.evidence)
            && (claim.family == Liquidity <==> claim.subject == CashAtLeastCurrentLiabilities)
            && (claim.family == Dilution <==> claim.subject == DilutionExposurePresent)
            && claim.availableAt <= claim.retrievedAt && 1 <= |claim.evidence| <= 16 && NoDuplicates(claim.evidence))
      && (r.Ok? ==> r.value == Request(claim, facts, cutoff, completeness))
  {
  }

  // ----- financing -----

  /** A potentially dilutive instrument that is active and issuable. */
  predicate CountsAsDilutive(term: Term) {
    && term.instrument in {ConvertibleDebt, PreferredEquity, Warrant, WarrantRepricing, WarrantExerciseInducement, EquityLine}
    && term.status in {RegisteredStatus, Proposed, Priced, Closed, Available, Amended}
    && term.issuable.Some? && term.issuable.value > 0.0
  }

  lemma DilutiveIff(term: Term)
    ensures CountsAsDilutive(term) <==> term.Dilutive()
  {
  }

  /** A claim's one piece of evidence is derived from what it claims. */
  predicate OwnEvidence(claim: Claim) {
    claim.evidence == [ClaimEvidence(claim.issuer, claim.subject, claim.assertedTruth, claim.scope, claim.asOf,
                                     claim.sourceRecord, claim.sourceHash)]
  }

  /** The claim and the fact carry the filing's own fields: one is named after the routing, the other after the
      filing. */
  predicate DrawnFrom(request: Request, receipt: FinancingReceipt, routingHash: Hash, cutoff: Instant) {
    && request.cutoff == cutoff && request.completeness == RequiredFactsComplete && |request.facts| == 1
    && var claim, fact := request.claim, request.facts[0];
       && claim.subject == DilutionExposurePresent && claim.assertedTruth && claim.issuer == fact.issuer == receipt.issuer
       && claim.scope == fact.scope == FinancingScope(receipt.accession)
       && claim.availableAt == fact.availableAt == receipt.acceptedAt
       && claim.retrievedAt == fact.retrievedAt == receipt.retrievedAt
       && claim.asOf == fact.asOf && claim.asOf * DAY <= receipt.acceptedAt < (claim.asOf + 1) * DAY
       && claim.sourceRecord == FinancingRouting(receipt.accession) && claim.sourceHash == routingHash
       && fact.sourceRecord == Filing(receipt.accession) && fact.sourceHash == receipt.hash
       && fact.kind == InstrumentCount && fact.unit == CountUnit && OwnEvidence(claim)
  }

  /** The evidence is that of the dilutive terms, each piece once. */
  ghost predicate EvidenceOfDilutive(evidence: seq<EvidenceId>, terms: seq<Term>) {
    && NoDuplicates(evidence)
    && forall id :: Extracted(id) in evidence <==> InDilutive(id, terms)
  }

  ghost predicate InDilutive(id: nat, terms: seq<Term>) {
    exists term :: term in terms && CountsAsDilutive(term) && id in term.evidence
  }

  lemma EvidenceIsListed(terms: seq<Term>, id: nat)
    ensures Extracted(id) in EvidenceIds(terms) <==> id in EvidenceOf(terms)
  {
    NatOrder();
    var sorted := Ascending(EvidenceOf(terms), NatLeq);
    var ids := EvidenceIds(terms);
    if id in EvidenceOf(terms) {
      var i :| 0 <= i < |sorted| && sorted[i] == id;
      assert ids[i] == Extracted(id);
    }
    if Extracted(id) in ids {
      var i :| 0 <= i < |ids| && ids[i] == Extracted(id);
      assert sorted[i] == id;
    }
  }

  lemma NatOrder()
    ensures TotalOrder(NatLeq)
  {
  }

  lemma QualifyingEvidence(terms: seq<Term>)
    ensures EvidenceOfDilutive(EvidenceIds(Qualifying(terms)), terms)
  {
    var qualifying := Qualifying(terms);
    forall id: nat ensures Extracted(id) in EvidenceIds(qualifying) <==> InDilutive(id, terms) {
      EvidenceIsListed(qualifying, id);
      if id in EvidenceOf(qualifying) {
        var term :| term in qualifying && id in term.evidence;
        DilutiveIff(term);
      }
      if InDilutive(id, terms) {
        var term :| term in terms && CountsAsDilutive(term) && id in term.evidence;
        DilutiveIff(term);
        assert term in qualifying;
      }
    }
  }

  ghost function DilutiveCount(terms: seq<Term>): nat { |set i | 0 <= i < |terms| && CountsAsDilutive(terms[i])| }

  lemma QualifyingCount(terms: seq<Term>)
    ensures |Qualifying(terms)| == DilutiveCount(terms)
  {
    var p := (term: Term) => term.Dilutive();
    KeepCountsIndices(terms, p);
    forall i | 0 <= i < |terms| ensures p(terms[i]) == CountsAsDilutive(terms[i]) { DilutiveIff(terms[i]); }
    assert Indices(terms, p) == set i | 0 <= i < |terms| && CountsAsDilutive(terms[i]);
  }

  lemma FinancingJudged(claim: Claim, fact: Fact, cutoff: Instant)
    requires claim.subject == DilutionExposurePresent && fact.kind == InstrumentCount && fact.value > 0.0
    requires Reevaluate(Request(claim, [fact], cutoff, RequiredFactsComplete)).Ok?
    ensures Judged(Reevaluate(Request(claim, [fact], cutoff, RequiredFactsComplete)), true)
  {
    OneRelevantFact(claim, fact);
    OneInstrumentFinding(fact);
    JudgedBy(Request(claim, [fact], cutoff, RequiredFactsComplete), true);
  }

  /** The decision names its source and its reason. */
  predicate Decides(d: Decision, source: Source, record: SourceRecord, hash: Hash, reason: ProducerReason) {
    d.source == source && d.record == record && d.hash == hash && d.reason == reason
  }

  /** A financing filing with at least one dilutive term, and not too much evidence, comes to one request whose
      one fact counts exactly those terms. Once the filing is retrieved the service keeps a receipt of it:
      the exposure is supported. */
  lemma FinancingVerdict(receipt: FinancingReceipt, routingHash: Hash, cutoff: Instant, identify: Identify,
                         name: EvidenceId -> nat)
    requires receipt.Valid() && FinancingDecision(receipt, routingHash, cutoff, identify, name).Ok?
    ensures var d := FinancingDecision(receipt, routingHash, cutoff, identify, name).value;
      if DilutiveCount(receipt.terms) == 0 then
        && d.requests == []
        && Decides(d, FinancingSource, FinancingRouting(receipt.accession), routingHash, NoRelevantFacts)
      else
        && |d.requests| == 1 && DrawnFrom(d.requests[0], receipt, routingHash, cutoff)
        && Decides(d, FinancingSource, FinancingRouting(receipt.accession), routingHash, EligibleComplete)
        && d.requests[0].facts[0].value == DilutiveCount(receipt.terms) as real
        && EvidenceOfDilutive(d.requests[0].facts[0].evidence, receipt.terms)
        && (receipt.retrievedAt <= cutoff ==> Judged(Reevaluate(d.requests[0]), true))
  {
    FinancingDecided(receipt, routingHash, cutoff, identify, name);
    FinancingProducerAgrees(receipt, routingHash, cutoff, identify, name);
    QualifyingCount(receipt.terms);
    var d := FinancingDecision(receipt, routingHash, cutoff, identify, name).value;
    if Qualifying(receipt.terms) != [] {
      var fact, claim := ToFact(FinancingBody(receipt, Qualifying(receipt.terms)), identify),
                         FinancingClaim(receipt, routingHash, name);
      assert d.requests == [Request(claim, [fact], cutoff, RequiredFactsComplete)];
      assert d.requests[0] in d.requests;
      DateHoldsInstant(receipt.acceptedAt);
      QualifyingEvidence(receipt.terms);
      if receipt.retrievedAt <= cutoff { FinancingJudged(claim, fact, cutoff); }
    }
  }

  // ----- ownership -----

  /** A scope's shares are added up over its own transactions of one direction. */
  lemma {:induction false} SharesAreAdditive(a: seq<Transaction>, b: seq<Transaction>, t: Transaction, key: ScopeKey,
                                             acquired: bool)
    ensures SharesOf([], key, acquired) == 0.0
    ensures SharesOf([t], key, acquired)
         == if t.day == key.day && t.derivative == key.derivative && t.acquired == acquired then t.shares else 0.0
    ensures SharesOf(a + b, key, acquired) == SharesOf(a, key, acquired) + SharesOf(b, key, acquired)
  {
    assert [t][..0] == [];
    if |b| == 0 {
      assert a + b == a;
    } else {
      SharesAreAdditive(a, b[..|b| - 1], t, key, acquired);
      assert (a + b)[..|a + b| - 1] == a + b[..|b| - 1];
    }
  }

  lemma TwoFactsJudged(claim: Claim, a: Fact, b: Fact, cutoff: Instant)
    requires claim.subject == NetInsiderAcquisition || claim.subject == CashAtLeastCurrentLiabilities
    requires claim.subject == NetInsiderAcquisition ==> a.kind == Acquired && b.kind == Disposed
    requires claim.subject == CashAtLeastCurrentLiabilities ==> a.kind == Cash && b.kind == CurrentLiabilities
    requires a.asOf == b.asOf && a.currency == b.currency
    requires Reevaluate(Request(claim, [a, b], cutoff, RequiredFactsComplete)).Ok?
    ensures Judged(Reevaluate(Request(claim, [a, b], cutoff, RequiredFactsComplete)),
                   if claim.subject == NetInsiderAcquisition then a.value > b.value else a.value >= b.value)
  {
    TwoRelevantFacts(claim, a, b);
    TwoFactsFinding(claim.subject, a, b);
    JudgedBy(Request(claim, [a, b], cutoff, RequiredFactsComplete),
             if claim.subject == NetInsiderAcquisition then a.value > b.value else a.value >= b.value);
  }

  /** The request of a scope asserts a net acquisition and is judged by the scope's two sums. */
  ghost predicate ScopeJudged(request: Request, receipt: OwnershipReceipt, key: ScopeKey, cutoff: Instant) {
    && request.claim.subject == NetInsiderAcquisition && request.claim.assertedTruth && request.cutoff == cutoff
    && request.claim.issuer == receipt.issuer && request.claim.asOf == key.day
    && (receipt.retrievedAt <= cutoff && key.day * DAY <= cutoff ==>
          Judged(Reevaluate(request), SharesOf(receipt.transactions, key, true) > SharesOf(receipt.transactions, key, false)))
  }

  /** The claim and the facts carry the filing's own fields, under one scope and day. */
  predicate OwnFields(request: Request, receipt: OwnershipReceipt, routingHash: Hash, scope: Scope, day: Day) {
    && request.claim.issuer == receipt.issuer && request.claim.scope == scope && request.claim.asOf == day
    && request.claim.availableAt == receipt.acceptedAt && request.claim.retrievedAt == receipt.retrievedAt
    && request.claim.sourceRecord == OwnershipRouting(receipt.accession) && request.claim.sourceHash == routingHash
    && OwnEvidence(request.claim)
    && forall fact <- request.facts :: FactOf(fact, receipt, scope, day)
  }

  predicate FactOf(fact: Fact, receipt: OwnershipReceipt, scope: Scope, day: Day) {
    && fact.issuer == receipt.issuer && fact.scope == scope && fact.asOf == day
    && fact.availableAt == receipt.acceptedAt && fact.retrievedAt == receipt.retrievedAt
    && fact.sourceRecord == Filing(receipt.accession) && fact.sourceHash == receipt.hash
    && fact.unit == SharesUnit && fact.currency == None && fact.evidence == [OwnershipSource(receipt.accession, receipt.hash)]
  }

  lemma ScopeFieldsHold(receipt: OwnershipReceipt, key: ScopeKey, routingHash: Hash, cutoff: Instant,
                        identify: Identify, name: EvidenceId -> nat)
    requires receipt.Valid() && KindsApart(identify)
    ensures var r := ScopeRequest(receipt, key, routingHash, cutoff, identify, name);
      r.Ok? && OwnFields(r.value, receipt, routingHash, SectionSixteenScope(receipt.accession, key.day, key.derivative), key.day)
  {
    ScopeRequestIs(receipt, key, routingHash, cutoff, identify, name);
    var scope := SectionSixteenScope(receipt.accession, key.day, key.derivative);
    assert FactOf(ScopeFact(receipt, key, true, identify), receipt, scope, key.day);
    assert FactOf(ScopeFact(receipt, key, false, identify), receipt, scope, key.day);
  }

  lemma ScopeRequestIs(receipt: OwnershipReceipt, key: ScopeKey, routingHash: Hash, cutoff: Instant,
                       identify: Identify, name: EvidenceId -> nat)
    requires receipt.Valid() && KindsApart(identify)
    ensures var acquired, disposed := ScopeFact(receipt, key, true, identify), ScopeFact(receipt, key, false, identify);
      var claim := OwnershipClaim(receipt, true, acquired.scope, key.day, routingHash, name);
      ScopeRequest(receipt, key, routingHash, cutoff, identify, name)
      == Ok(Request(claim, [acquired, disposed], cutoff, RequiredFactsComplete))
  {
    ScopeParts(receipt, key, true, routingHash, identify, name);
    ScopeParts(receipt, key, false, routingHash, identify, name);
    ScopeTwins(receipt, key, identify);
    var acquired, disposed := ScopeFact(receipt, key, true, identify), ScopeFact(receipt, key, false, identify);
    RequestIsBuilt(OwnershipClaim(receipt, true, acquired.scope, key.day, routingHash, name), [acquired, disposed], cutoff,
                   RequiredFactsComplete);
  }

  lemma DayHasCome(day: Day, at: Instant)
    ensures day <= DateOf(at) <==> day * DAY <= at
  {
  }

  lemma TakenWhenInTime(request: Request, retrievedAt: Instant, day: Day, cutoff: Instant)
    requires AcceptedInTime(request) && request.cutoff == cutoff
    requires request.claim.retrievedAt == retrievedAt && request.claim.asOf == day
    ensures retrievedAt <= cutoff && day * DAY <= cutoff ==> Reevaluate(request).Ok?
  {
    DayHasCome(day, cutoff);
  }

  lemma ScopeRequestTaken(receipt: OwnershipReceipt, key: ScopeKey, request: Request, cutoff: Instant)
    requires Agrees(Ok(request), receipt, key, cutoff)
    ensures receipt.retrievedAt <= cutoff && key.day * DAY <= cutoff ==> Reevaluate(request).Ok?
  {
    TakenWhenInTime(request, receipt.retrievedAt, key.day, cutoff);
  }

  lemma ScopeRequestJudged(receipt: OwnershipReceipt, key: ScopeKey, routingHash: Hash, cutoff: Instant,
                           identify: Identify, name: EvidenceId -> nat)
    requires receipt.Valid() && KindsApart(identify)
    ensures var r := ScopeRequest(receipt, key, routingHash, cutoff, identify, name);
      r.Ok? && ScopeJudged(r.value, receipt, key, cutoff)
  {
    ScopeRequestAgrees(receipt, key, routingHash, cutoff, identify, name);
    ScopeRequestIs(receipt, key, routingHash, cutoff, identify, name);
    var acquired, disposed := ScopeFact(receipt, key, true, identify), ScopeFact(receipt, key, false, identify);
    var claim := OwnershipClaim(receipt, true, acquired.scope, key.day, routingHash, name);
    ScopeRequestTaken(receipt, key, Request(claim, [acquired, disposed], cutoff, RequiredFactsComplete), cutoff);
    ScopeFactsJudged(receipt, key, claim, acquired, disposed, cutoff);
  }

  lemma ScopeFactsJudged(receipt: OwnershipReceipt, key: ScopeKey, claim: Claim, acquired: Fact, disposed: Fact,
                         cutoff: Instant)
    requires claim.subject == NetInsiderAcquisition && claim.assertedTruth
    requires claim.issuer == receipt.issuer && claim.asOf == key.day
    requires acquired.kind == Acquired && disposed.kind == Disposed
    requires acquired.asOf == disposed.asOf && acquired.currency == disposed.currency
    requires acquired.value == SharesOf(receipt.transactions, key, true)
    requires disposed.value == SharesOf(receipt.transactions, key, false)
    requires receipt.retrievedAt <= cutoff && key.day * DAY <= cutoff
      ==> Reevaluate(Request(claim, [acquired, disposed], cutoff, RequiredFactsComplete)).Ok?
    ensures ScopeJudged(Request(claim, [acquired, disposed], cutoff, RequiredFactsComplete), receipt, key, cutoff)
  {
    if receipt.retrievedAt <= cutoff && key.day * DAY <= cutoff { TwoFactsJudged(claim, acquired, disposed, cutoff); }
  }

  /** Some transaction is of that day and that kind. */
  ghost predicate HasTransaction(transactions: seq<Transaction>, key: ScopeKey) {
    exists t :: t in transactions && t.day == key.day && t.derivative == key.derivative
  }

  predicate ScopeFirst(a: ScopeKey, b: ScopeKey) {
    a.day < b.day || (a.day == b.day && !a.derivative && b.derivative)
  }

  /** Exactly the scopes of the transactions, each once, days first and the non-derivative one before the
      derivative one. */
  ghost predicate ScopesOf(keys: seq<ScopeKey>, transactions: seq<Transaction>) {
    && (forall t <- transactions :: ScopeKey(t.day, t.derivative) in keys)
    && (forall key <- keys :: HasTransaction(transactions, key))
    && (forall i, j | 0 <= i < j < |keys| :: ScopeFirst(keys[i], keys[j]))
  }

  lemma ScopesCover(transactions: seq<Transaction>, keys: seq<ScopeKey>)
    requires forall key :: key in keys <==> key in ScopeSet(transactions)
    ensures forall t <- transactions :: ScopeKey(t.day, t.derivative) in keys
    ensures forall key <- keys :: HasTransaction(transactions, key)
  {
    forall t | t in transactions ensures ScopeKey(t.day, t.derivative) in keys { assert t.Key() in ScopeSet(transactions); }
    forall key | key in keys ensures HasTransaction(transactions, key) {
      assert key in ScopeSet(transactions);
      var t :| t in transactions && t.Key() == key;
    }
  }

  lemma ScopeComesFirst(a: ScopeKey, b: ScopeKey)
    requires ScopeLeq(a, b) && a != b
    ensures ScopeFirst(a, b)
  {
  }

  lemma ScopesAscend(keys: seq<ScopeKey>)
    requires SortedBy(keys, ScopeLeq) && NoDuplicates(keys)
    ensures forall i, j | 0 <= i < j < |keys| :: ScopeFirst(keys[i], keys[j])
  {
    forall i, j | 0 <= i < j < |keys| ensures ScopeFirst(keys[i], keys[j]) { ScopeComesFirst(keys[i], keys[j]); }
  }

  lemma AscendingScopesAreThose(keys: seq<ScopeKey>, transactions: seq<Transaction>)
    requires SortedBy(keys, ScopeLeq) && NoDuplicates(keys)
    requires forall key :: key in keys <==> key in ScopeSet(transactions)
    ensures ScopesOf(keys, transactions)
  {
    ScopesCover(transactions, keys);
    ScopesAscend(keys);
  }

  lemma ScopesAreThose(transactions: seq<Transaction>)
    ensures ScopesOf(Scopes(transactions), transactions)
  {
    AscendingScopesAreThose(Scopes(transactions), transactions);
  }

  ghost predicate ScopeStated(request: Request, receipt: OwnershipReceipt, key: ScopeKey, routingHash: Hash, cutoff: Instant) {
    && ScopeJudged(request, receipt, key, cutoff)
    && OwnFields(request, receipt, routingHash, SectionSixteenScope(receipt.accession, key.day, key.derivative), key.day)
  }

  ghost predicate RequestsJudged(requests: seq<Request>, receipt: OwnershipReceipt, keys: seq<ScopeKey>, routingHash: Hash,
                                 cutoff: Instant) {
    |keys| == |requests| && forall i | 0 <= i < |keys| :: ScopeStated(requests[i], receipt, keys[i], routingHash, cutoff)
  }

  lemma GatheredJudged(results: seq<Result<Request, ProducerError>>, receipt: OwnershipReceipt, keys: seq<ScopeKey>,
                       routingHash: Hash, cutoff: Instant)
    requires |results| == |keys|
    requires forall i | 0 <= i < |keys| :: results[i].Ok? && ScopeStated(results[i].value, receipt, keys[i], routingHash, cutoff)
    ensures Gather(results).Ok? && RequestsJudged(Gather(results).value, receipt, keys, routingHash, cutoff)
  {
    forall r | r in results ensures r.Ok? {
      var i :| 0 <= i < |results| && results[i] == r;
      assert results[i].Ok?;
    }
  }

  lemma SixteenGathers(receipt: OwnershipReceipt, routingHash: Hash, cutoff: Instant, identify: Identify,
                       name: EvidenceId -> nat)
    requires receipt.Valid() && receipt.form.SectionSixteen?
    requires OwnershipDecision(receipt, routingHash, cutoff, identify, name).Ok?
    ensures var gathered := Gather(ScopeRequests(receipt, Scopes(receipt.transactions), routingHash, cutoff, identify, name));
      gathered.Ok? && OwnershipDecision(receipt, routingHash, cutoff, identify, name).value.requests == gathered.value
    ensures var d := OwnershipDecision(receipt, routingHash, cutoff, identify, name).value;
      Decides(d, SectionSixteenSource, OwnershipRouting(receipt.accession), routingHash,
              if d.requests == [] then NoRelevantFacts else EligibleComplete)
  {
  }

  /** The decision on a Section 16 filing has one request per scope; the service keeps the receipt of each one
      that is in time: net acquisition is supported when the shares acquired in that scope exceed those
      disposed of, and conflicted otherwise. */
  lemma SectionSixteenVerdict(receipt: OwnershipReceipt, routingHash: Hash, cutoff: Instant, identify: Identify,
                              name: EvidenceId -> nat)
    requires receipt.Valid() && KindsApart(identify) && receipt.form.SectionSixteen?
    requires OwnershipDecision(receipt, routingHash, cutoff, identify, name).Ok?
    ensures var d := OwnershipDecision(receipt, routingHash, cutoff, identify, name).value;
      Decides(d, SectionSixteenSource, OwnershipRouting(receipt.accession), routingHash,
              if d.requests == [] then NoRelevantFacts else EligibleComplete)
    ensures var requests := OwnershipDecision(receipt, routingHash, cutoff, identify, name).value.requests;
      exists keys :: ScopesOf(keys, receipt.transactions) && RequestsJudged(requests, receipt, keys, routingHash, cutoff)
  {
    var keys := Scopes(receipt.transactions);
    ScopesAreThose(receipt.transactions);
    ScopesJudged(receipt, keys, routingHash, cutoff, identify, name);
    SixteenGathers(receipt, routingHash, cutoff, identify, name);
  }

  lemma ScopesJudged(receipt: OwnershipReceipt, keys: seq<ScopeKey>, routingHash: Hash, cutoff: Instant, identify: Identify,
                     name: EvidenceId -> nat)
    requires receipt.Valid() && KindsApart(identify)
    ensures var gathered := Gather(ScopeRequests(receipt, keys, routingHash, cutoff, identify, name));
      gathered.Ok? && RequestsJudged(gathered.value, receipt, keys, routingHash, cutoff)
  {
    var results := ScopeRequests(receipt, keys, routingHash, cutoff, identify, name);
    forall i | 0 <= i < |keys| ensures results[i].Ok? && ScopeStated(results[i].value, receipt, keys[i], routingHash, cutoff) {
      ScopeRequestJudged(receipt, keys[i], routingHash, cutoff, identify, name);
      ScopeFieldsHold(receipt, keys[i], routingHash, cutoff, identify, name);
    }
    GatheredJudged(results, receipt, keys, routingHash, cutoff);
  }

  /** A Form 144 request that is taken is kept as not applicable. */
  lemma PlannedSaleVerdict(receipt: OwnershipReceipt, routingHash: Hash, cutoff: Instant, identify: Identify,
                           name: EvidenceId -> nat)
    requires receipt.Valid() && receipt.form.Form144?
    ensures var r := OwnershipDecision(receipt, routingHash, cutoff, identify, name);
      && r.Ok? && |r.value.requests| == 1
      && Decides(r.value, Form144Source, OwnershipRouting(receipt.accession), routingHash, EligibleNotApplicable)
      && OwnFields(r.value.requests[0], receipt, routingHash, PlannedSaleScope(receipt.accession), receipt.periodDay)
      && (Reevaluate(r.value.requests[0]).Ok? <==> receipt.retrievedAt <= cutoff && receipt.periodDay * DAY <= cutoff)
      && (Reevaluate(r.value.requests[0]).Ok? ==>
            Reevaluate(r.value.requests[0]).value.evaluation.disposition == NotApplicable)
  {
    OtherFormsAgree(receipt, routingHash, cutoff, identify, name);
    DayHasCome(receipt.periodDay, cutoff);
    ServiceTakesIff(OwnershipDecision(receipt, routingHash, cutoff, identify, name).value.requests[0]);
  }

  /** A schedule is an unsupported context and requests nothing. */
  lemma ScheduleVerdict(receipt: OwnershipReceipt, routingHash: Hash, cutoff: Instant, identify: Identify,
                        name: EvidenceId -> nat)
    requires receipt.Valid() && receipt.form.Schedule13?
    ensures var r := OwnershipDecision(receipt, routingHash, cutoff, identify, name);
      && r.Ok? && r.value.requests == []
      && Decides(r.value, SectionSixteenSource, OwnershipRouting(receipt.accession), routingHash, UnsupportedContext)
  {
  }

  // ----- XBRL -----

  /** An instant in dollars of one of the three tags, from this filing and known by the cutoff. */
  predicate Reported(f: SecFact, issuer: Cik, accession: Accession, form: string, cutoff: Instant) {
    && f.cik == issuer && f.accession == accession && f.form == form && f.inDollars && f.periodStart == None
    && f.tag in {CashTag, RestrictedCashTag, LiabilitiesTag} && f.availableAt <= cutoff && f.retrievedAt <= cutoff
  }

  lemma ReportedIff(f: SecFact, issuer: Cik, accession: Accession, form: string, cutoff: Instant)
    ensures Reported(f, issuer, accession, form, cutoff) <==> f.Applies(issuer, accession, form, cutoff)
    ensures f.IsCash() <==> f.tag in {CashTag, RestrictedCashTag}
    ensures f.IsLiabilities() <==> f.tag == LiabilitiesTag
  {
  }

  /** The two reported facts are the only cash and the only current liabilities of the latest period that is
      reported at all. */
  ghost predicate OnlyPair(facts: seq<SecFact>, i: nat, j: nat, reported: SecFact -> bool) {
    && i < |facts| && j < |facts| && reported(facts[i]) && reported(facts[j])
    && facts[i].tag in {CashTag, RestrictedCashTag} && facts[j].tag == LiabilitiesTag
    && facts[i].periodEnd == facts[j].periodEnd
    && forall k | 0 <= k < |facts| && reported(facts[k]) ::
         && facts[k].periodEnd <= facts[i].periodEnd
         && (facts[k].periodEnd == facts[i].periodEnd && facts[k].tag in {CashTag, RestrictedCashTag} ==> k == i)
         && (facts[k].periodEnd == facts[i].periodEnd && facts[k].tag == LiabilitiesTag ==> k == j)
  }

  lemma SingleMember(s: set<int>) returns (i: int)
    requires |s| == 1
    ensures i in s && forall k <- s :: k == i
  {
    i := SomeMember(s);
    var rest := s - {i};
    assert |rest| == 0;
    assert forall k <- s :: k == i || k in rest;
  }

  lemma OneKept<T(!new)>(s: seq<T>, p: T -> bool) returns (i: nat)
    requires |Keep(s, p)| == 1
    ensures i < |s| && p(s[i]) && Keep(s, p)[0] == s[i] && forall k | 0 <= k < |s| && p(s[k]) :: k == i
  {
    KeepCountsIndices(s, p);
    i := SingleMember(Indices(s, p));
    assert s[i] in Keep(s, p);
  }

  lemma KeepsOne<T(!new)>(s: seq<T>, p: T -> bool, i: nat)
    requires i < |s| && p(s[i]) && forall k | 0 <= k < |s| && p(s[k]) :: k == i
    ensures Keep(s, p) == [s[i]]
  {
    KeepCountsIndices(s, p);
    assert Indices(s, p) == {i};
    assert s[i] in Keep(s, p);
  }

  ghost function ReportedBy(issuer: Cik, accession: Accession, form: string, cutoff: Instant): SecFact -> bool {
    (f: SecFact) => Reported(f, issuer, accession, form, cutoff)
  }

  lemma ApplicableAreReported(facts: seq<SecFact>, issuer: Cik, accession: Accession, form: string, cutoff: Instant)
    ensures Applicable(facts, issuer, accession, form, cutoff) == Keep(facts, ReportedBy(issuer, accession, form, cutoff))
  {
    forall f | f in facts
      ensures f.Applies(issuer, accession, form, cutoff) == ReportedBy(issuer, accession, form, cutoff)(f)
    {
      ReportedIff(f, issuer, accession, form, cutoff);
    }
    KeepSame(facts, (f: SecFact) => f.Applies(issuer, accession, form, cutoff), ReportedBy(issuer, accession, form, cutoff));
  }

  /** The sides of one day among the reported facts. */
  ghost function CashThen(reported: SecFact -> bool, day: Day): SecFact -> bool {
    (f: SecFact) => reported(f) && f.periodEnd == day && f.tag in {CashTag, RestrictedCashTag}
  }

  ghost function LiabilitiesThen(reported: SecFact -> bool, day: Day): SecFact -> bool {
    (f: SecFact) => reported(f) && f.periodEnd == day && f.tag == LiabilitiesTag
  }

  lemma SidesThen(facts: seq<SecFact>, reported: SecFact -> bool, day: Day)
    ensures CashAt(Keep(facts, reported), day) == Keep(facts, CashThen(reported, day))
    ensures LiabilitiesAt(Keep(facts, reported), day) == Keep(facts, LiabilitiesThen(reported, day))
  {
    KeepKept(facts, reported, DatedCash(day), CashThen(reported, day));
    KeepKept(facts, reported, DatedLiabilities(day), LiabilitiesThen(reported, day));
  }

  /** A complete latest period has its only pair. */
  lemma CompleteHasPair(facts: seq<SecFact>, reported: SecFact -> bool) returns (i: nat, j: nat)
    requires |Keep(facts, reported)| > 0 && CompleteAt(Keep(facts, reported), Latest(Keep(facts, reported)))
    ensures OnlyPair(facts, i, j, reported)
    ensures facts[i].periodEnd == Latest(Keep(facts, reported))
    ensures CashAt(Keep(facts, reported), facts[i].periodEnd) == [facts[i]]
    ensures LiabilitiesAt(Keep(facts, reported), facts[i].periodEnd) == [facts[j]]
  {
    var same := Keep(facts, reported);
    var day := Latest(same);
    LatestIsGreatest(same);
    SidesThen(facts, reported, day);
    i := OneKept(facts, CashThen(reported, day));
    j := OneKept(facts, LiabilitiesThen(reported, day));
    forall k | 0 <= k < |facts| && reported(facts[k]) ensures facts[k].periodEnd <= day { assert facts[k] in same; }
  }

  lemma PairIsComplete(facts: seq<SecFact>, reported: SecFact -> bool, i: nat, j: nat)
    requires OnlyPair(facts, i, j, reported)
    ensures var same := Keep(facts, reported);
      && |same| > 0 && Latest(same) == facts[i].periodEnd && CompleteAt(same, Latest(same))
      && CashAt(same, Latest(same)) == [facts[i]] && LiabilitiesAt(same, Latest(same)) == [facts[j]]
  {
    var same := Keep(facts, reported);
    var day := facts[i].periodEnd;
    assert facts[i] in same;
    LatestIsGreatest(same);
    var f :| f in same && f.periodEnd == Latest(same);
    var k :| 0 <= k < |facts| && facts[k] == f;
    assert Latest(same) == day;
    SidesThen(facts, reported, day);
    KeepsOne(facts, CashThen(reported, day), i);
    KeepsOne(facts, LiabilitiesThen(reported, day), j);
  }

  /** The selection is a pair exactly when the facts have an only pair, and it is that one. */
  lemma SelectionIff(facts: seq<SecFact>, reported: SecFact -> bool)
    ensures PairSelection(Keep(facts, reported)).Pair? <==> exists i: nat, j: nat :: OnlyPair(facts, i, j, reported)
    ensures forall i: nat, j: nat | OnlyPair(facts, i, j, reported) ::
      PairSelection(Keep(facts, reported)) == Pair(facts[i].periodEnd, facts[i], facts[j])
  {
    var same := Keep(facts, reported);
    CompleteLatest(same);
    if PairSelection(same).Pair? { var i, j := CompleteHasPair(facts, reported); }
    forall i: nat, j: nat | OnlyPair(facts, i, j, reported)
      ensures PairSelection(same) == Pair(facts[i].periodEnd, facts[i], facts[j])
    {
      PairIsComplete(facts, reported, i, j);
      LatestIsGreatest(same);
    }
  }

  /** Two readings that can be compared: from one source, non-negative, two records, retrieved no earlier
      than both were available. */
  predicate Comparable(cash: SecFact, liabilities: SecFact) {
    && cash.hash == liabilities.hash && cash.value >= 0.0 && liabilities.value >= 0.0
    && cash.recordId != liabilities.recordId
    && (cash.availableAt <= cash.retrievedAt || cash.availableAt <= liabilities.retrievedAt)
    && (liabilities.availableAt <= cash.retrievedAt || liabilities.availableAt <= liabilities.retrievedAt)
  }

  lemma ComparableIff(cash: SecFact, liabilities: SecFact)
    ensures Comparable(cash, liabilities) <==> PairUsable(cash, liabilities)
  {
  }

  /** The request asserts that cash covers the liabilities, of the day of the pair; once that day has come the
      service keeps its receipt, judged by the two values. */
  predicate PairJudged(request: Request, cash: SecFact, liabilities: SecFact, cutoff: Instant) {
    && request.claim.subject == CashAtLeastCurrentLiabilities && request.claim.assertedTruth && request.cutoff == cutoff
    && request.claim.issuer == cash.cik && request.claim.asOf == cash.periodEnd
    && (cash.periodEnd * DAY <= cutoff ==> Judged(Reevaluate(request), cash.value >= liabilities.value))
    && (cash.periodEnd * DAY > cutoff ==> Reevaluate(request).Err?)
  }

  ghost function PairRequestOf(cash: SecFact, liabilities: SecFact, manifestHash: Hash, cutoff: Instant, identify: Identify,
                               name: EvidenceId -> nat): Request {
    Request(LiquidityClaim(cash.periodEnd, cash, liabilities, manifestHash, name),
            [ToFact(LiquidityBody(Cash, cash.value, cash.periodEnd, cash, liabilities), identify),
             ToFact(LiquidityBody(CurrentLiabilities, liabilities.value, cash.periodEnd, cash, liabilities), identify)],
            cutoff, RequiredFactsComplete)
  }

  /** One instant is the later of two. */
  predicate LaterOf(at: Instant, x: Instant, y: Instant) { at >= x && at >= y && (at == x || at == y) }

  /** A fact of the pair: in dollars, under the company facts of the filing and the day. */
  predicate PairFact(fact: Fact, kind: Kind, value: real, cash: SecFact, liabilities: SecFact) {
    && fact.kind == kind && fact.value == value && fact.unit == CurrencyUnit && fact.currency == Some("USD")
    && fact.issuer == cash.cik && fact.scope == LiquidityScope(cash.accession, cash.periodEnd) && fact.asOf == cash.periodEnd
    && LaterOf(fact.availableAt, cash.availableAt, liabilities.availableAt)
    && LaterOf(fact.retrievedAt, cash.retrievedAt, liabilities.retrievedAt)
    && fact.sourceRecord == CompanyFacts(cash.accession, cash.periodEnd) && fact.sourceHash == cash.hash
    && fact.evidence == [XbrlFact(cash.recordId), XbrlFact(liabilities.recordId)]
  }

  /** The claim and the two facts carry the fields of the pair. */
  predicate PairFields(request: Request, cash: SecFact, liabilities: SecFact, manifestHash: Hash) {
    && request.claim.scope == LiquidityScope(cash.accession, cash.periodEnd)
    && LaterOf(request.claim.availableAt, cash.availableAt, liabilities.availableAt)
    && LaterOf(request.claim.retrievedAt, cash.retrievedAt, liabilities.retrievedAt)
    && request.claim.sourceRecord == XbrlLiquidity(cash.accession) && request.claim.sourceHash == manifestHash
    && OwnEvidence(request.claim)
    && |request.facts| == 2
    && PairFact(request.facts[0], Cash, cash.value, cash, liabilities)
    && PairFact(request.facts[1], CurrentLiabilities, liabilities.value, cash, liabilities)
  }

  lemma PairFieldsHold(cash: SecFact, liabilities: SecFact, manifestHash: Hash, cutoff: Instant, identify: Identify,
                       name: EvidenceId -> nat)
    ensures PairFields(PairRequestOf(cash, liabilities, manifestHash, cutoff, identify, name), cash, liabilities, manifestHash)
  {
  }

  lemma PairRequestIs(cash: SecFact, liabilities: SecFact, manifestHash: Hash, cutoff: Instant, identify: Identify,
                      name: EvidenceId -> nat)
    requires PairRequest(cash.periodEnd, cash, liabilities, manifestHash, cutoff, identify, name).Ok?
    ensures PairRequest(cash.periodEnd, cash, liabilities, manifestHash, cutoff, identify, name)
         == Ok(PairRequestOf(cash, liabilities, manifestHash, cutoff, identify, name))
  {
  }

  lemma PairRequestJudged(cash: SecFact, liabilities: SecFact, manifestHash: Hash, cutoff: Instant, identify: Identify,
                          name: EvidenceId -> nat)
    requires KindsApart(identify) && Comparable(cash, liabilities)
    requires cash.retrievedAt <= cutoff && liabilities.retrievedAt <= cutoff
    ensures var r := PairRequest(cash.periodEnd, cash, liabilities, manifestHash, cutoff, identify, name);
      && r.Ok? && PairJudged(r.value, cash, liabilities, cutoff)
      && PairFields(r.value, cash, liabilities, manifestHash)
  {
    PairFieldsHold(cash, liabilities, manifestHash, cutoff, identify, name);
    ComparableIff(cash, liabilities);
    PairRequestAgrees(cash.periodEnd, cash, liabilities, manifestHash, cutoff, identify, name);
    PairRequestIs(cash, liabilities, manifestHash, cutoff, identify, name);
    var request := PairRequestOf(cash, liabilities, manifestHash, cutoff, identify, name);
    DayHasCome(cash.periodEnd, cutoff);
    PairFactsJudged(cash, liabilities, request.claim, request.facts[0], request.facts[1], cutoff);
  }

  lemma PairFactsJudged(cash: SecFact, liabilities: SecFact, claim: Claim, a: Fact, b: Fact, cutoff: Instant)
    requires claim.subject == CashAtLeastCurrentLiabilities && claim.assertedTruth
    requires claim.issuer == cash.cik && claim.asOf == cash.periodEnd
    requires a.kind == Cash && b.kind == CurrentLiabilities && a.asOf == b.asOf && a.currency == b.currency
    requires a.value == cash.value && b.value == liabilities.value
    requires Reevaluate(Request(claim, [a, b], cutoff, RequiredFactsComplete)).Ok? <==> cash.periodEnd * DAY <= cutoff
    ensures PairJudged(Request(claim, [a, b], cutoff, RequiredFactsComplete), cash, liabilities, cutoff)
  {
    if cash.periodEnd * DAY <= cutoff { TwoFactsJudged(claim, a, b, cutoff); }
  }

  /** The decision without a selected pair. */
  lemma UnselectedVerdict(selection: Selection, accession: Accession, cutoff: Instant, manifestHash: Hash,
                          identify: Identify, name: EvidenceId -> nat)
    requires !selection.Pair?
    ensures var r := DecisionFor(selection, accession, cutoff, manifestHash, identify, name);
      && r.Ok? && r.value.requests == []
      && Decides(r.value, XbrlLiquiditySource, XbrlLiquidity(accession), manifestHash,
                 if selection.NoPair? then NoRelevantFacts else AmbiguousContext)
  {
  }

  /** The decision is that of the pair's request. */
  lemma DecisionOfPair(cash: SecFact, liabilities: SecFact, accession: Accession, cutoff: Instant, manifestHash: Hash,
                       identify: Identify, name: EvidenceId -> nat)
    ensures var day := cash.periodEnd; var built := PairRequest(day, cash, liabilities, manifestHash, cutoff, identify, name);
      DecisionFor(Pair(day, cash, liabilities), accession, cutoff, manifestHash, identify, name) ==
        match built
        case Err(e) => Err(e)
        case Ok(request) => Ok(Decision(XbrlLiquiditySource, XbrlLiquidity(accession), manifestHash, EligibleComplete, [request]))
  {
  }

  lemma PairRequestedIff(cash: SecFact, liabilities: SecFact, manifestHash: Hash, cutoff: Instant, identify: Identify,
                         name: EvidenceId -> nat)
    requires KindsApart(identify)
    ensures PairRequest(cash.periodEnd, cash, liabilities, manifestHash, cutoff, identify, name).Ok?
       <==> Comparable(cash, liabilities)
  {
    ComparableIff(cash, liabilities);
    PairRequestAgrees(cash.periodEnd, cash, liabilities, manifestHash, cutoff, identify, name);
  }

  /** The decision over a selected pair. */
  lemma SelectedVerdict(cash: SecFact, liabilities: SecFact, accession: Accession, cutoff: Instant, manifestHash: Hash,
                        identify: Identify, name: EvidenceId -> nat)
    requires KindsApart(identify) && cash.retrievedAt <= cutoff && liabilities.retrievedAt <= cutoff
    ensures var r := DecisionFor(Pair(cash.periodEnd, cash, liabilities), accession, cutoff, manifestHash, identify, name);
      && (r.Ok? <==> Comparable(cash, liabilities))
      && (r.Ok? ==>
            && |r.value.requests| == 1
            && Decides(r.value, XbrlLiquiditySource, XbrlLiquidity(accession), manifestHash, EligibleComplete)
            && PairFields(r.value.requests[0], cash, liabilities, manifestHash)
            && PairJudged(r.value.requests[0], cash, liabilities, cutoff))
  {
    DecisionOfPair(cash, liabilities, accession, cutoff, manifestHash, identify, name);
    PairRequestedIff(cash, liabilities, manifestHash, cutoff, identify, name);
    if Comparable(cash, liabilities) { PairRequestJudged(cash, liabilities, manifestHash, cutoff, identify, name); }
  }

  ghost predicate HasPair(facts: seq<SecFact>, reported: SecFact -> bool) {
    exists i: nat, j: nat :: OnlyPair(facts, i, j, reported)
  }

  lemma SelectionIsPair(facts: seq<SecFact>, reported: SecFact -> bool, i: nat, j: nat)
    requires OnlyPair(facts, i, j, reported)
    ensures PairSelection(Keep(facts, reported)) == Pair(facts[i].periodEnd, facts[i], facts[j])
  {
    SelectionIff(facts, reported);
  }

  /** Some reported cash and some reported current liabilities are of one day. */
  ghost predicate BothSides(facts: seq<SecFact>, reported: SecFact -> bool) {
    exists f, g ::
      && f in facts && g in facts && reported(f) && reported(g) && f.periodEnd == g.periodEnd
      && f.tag in {CashTag, RestrictedCashTag} && g.tag == LiabilitiesTag
  }

  /** Both sides are among the facts of the day. */
  predicate BothAt(same: seq<SecFact>, day: Day) { CashAt(same, day) != [] && LiabilitiesAt(same, day) != [] }

  lemma BothAtIsPeriod(same: seq<SecFact>, day: Day)
    requires BothAt(same, day)
    ensures day in Periods(same)
  {
    assert CashAt(same, day)[0] in CashAt(same, day);
  }

  lemma NoPairIff(same: seq<SecFact>)
    ensures PairSelection(same) == NoPair <==> forall day :: !BothAt(same, day)
  {
    forall day | BothAt(same, day) ensures day in Periods(same) { BothAtIsPeriod(same, day); }
    assert forall day :: BothAt(same, day) <==> CompleteAt(same, day) || ContestedAt(same, day);
  }

  lemma BothAtReported(facts: seq<SecFact>, reported: SecFact -> bool, day: Day)
    requires BothAt(Keep(facts, reported), day)
    ensures BothSides(facts, reported)
  {
    var same := Keep(facts, reported);
    var f, g := CashAt(same, day)[0], LiabilitiesAt(same, day)[0];
    assert f in CashAt(same, day) && g in LiabilitiesAt(same, day);
    assert f in same && g in same;
  }

  lemma ReportedBothAt(facts: seq<SecFact>, reported: SecFact -> bool) returns (day: Day)
    requires BothSides(facts, reported)
    ensures BothAt(Keep(facts, reported), day)
  {
    var same := Keep(facts, reported);
    var f, g :| f in facts && g in facts && reported(f) && reported(g) && f.periodEnd == g.periodEnd
      && f.tag in {CashTag, RestrictedCashTag} && g.tag == LiabilitiesTag;
    day := f.periodEnd;
    assert f in same && g in same;
    assert f in CashAt(same, day) && g in LiabilitiesAt(same, day);
  }

  lemma ContestedIff(facts: seq<SecFact>, reported: SecFact -> bool)
    ensures PairSelection(Keep(facts, reported)) == NoPair <==> !BothSides(facts, reported)
  {
    var same := Keep(facts, reported);
    NoPairIff(same);
    forall day | BothAt(same, day) ensures BothSides(facts, reported) { BothAtReported(facts, reported, day); }
    if BothSides(facts, reported) { var day := ReportedBothAt(facts, reported); }
  }

  /** Without an only pair in the latest reported period nothing is requested: the filing is ambiguous if cash
      and current liabilities are reported for some one day, and otherwise has no relevant facts. */
  lemma NoPairVerdict(facts: seq<SecFact>, issuer: Cik, accession: Accession, form: string, cutoff: Instant,
                      manifestHash: Hash, identify: Identify, name: EvidenceId -> nat)
    requires KindsApart(identify) && !HasPair(facts, ReportedBy(issuer, accession, form, cutoff))
    ensures var r := XbrlDecision(facts, issuer, accession, form, cutoff, manifestHash, identify, name);
      && r.Ok? && r.value.requests == []
      && Decides(r.value, XbrlLiquiditySource, XbrlLiquidity(accession), manifestHash,
                 if BothSides(facts, ReportedBy(issuer, accession, form, cutoff)) then AmbiguousContext else NoRelevantFacts)
  {
    var reported := ReportedBy(issuer, accession, form, cutoff);
    ApplicableAreReported(facts, issuer, accession, form, cutoff);
    SelectionIff(facts, reported);
    ContestedIff(facts, reported);
    UnselectedVerdict(PairSelection(Keep(facts, reported)), accession, cutoff, manifestHash, identify, name);
  }

  /** An XBRL filing whose latest reported period has one cash and one current-liabilities reading comes to
      one request about that day if the two can be compared, and to an error otherwise. Once the day has
      come the service keeps the receipt: supported when the cash is at least the liabilities, and
      conflicted otherwise. */
  lemma XbrlVerdict(facts: seq<SecFact>, i: nat, j: nat, issuer: Cik, accession: Accession, form: string, cutoff: Instant,
                    manifestHash: Hash, identify: Identify, name: EvidenceId -> nat)
    requires KindsApart(identify) && OnlyPair(facts, i, j, ReportedBy(issuer, accession, form, cutoff))
    ensures var r := XbrlDecision(facts, issuer, accession, form, cutoff, manifestHash, identify, name);
      && (r.Ok? <==> Comparable(facts[i], facts[j]))
      && (r.Ok? ==>
            && |r.value.requests| == 1
            && Decides(r.value, XbrlLiquiditySource, XbrlLiquidity(accession), manifestHash, EligibleComplete)
            && PairFields(r.value.requests[0], facts[i], facts[j], manifestHash)
            && PairJudged(r.value.requests[0], facts[i], facts[j], cutoff))
  {
    var reported := ReportedBy(issuer, accession, form, cutoff);
    ApplicableAreReported(facts, issuer, accession, form, cutoff);
    SelectionIsPair(facts, reported, i, j);
    SelectedVerdict(facts[i], facts[j], accession, cutoff, manifestHash, identify, name);
  }
}
