/** The service that re-evaluates an eligible request and keeps its receipt only when the declared
    completeness agrees with the deterministic disposition. */
module ConvergenceService {
  import opened Calendar
  import opened Outcomes
  import opened Ordering
  import opened Contradictions

  datatype Completeness = RequiredFactsComplete | PartialValidatedFacts | NotApplicableContext

  datatype Request = Request(claim: Claim, facts: seq<Fact>, cutoff: Instant, completeness: Completeness)

  predicate Expected(completeness: Completeness, disposition: Disposition) {
    match completeness
    case RequiredFactsComplete => disposition.Supported? || disposition.Conflicted?
    case PartialValidatedFacts => disposition.Insufficient?
    case NotApplicableContext => disposition.NotApplicable?
  }

  datatype ServiceError = CheckFailed(error: CheckError) | Misclassified

  function Reevaluate(request: Request): Result<Receipt, ServiceError> {
    match Check(request.claim, request.facts, request.cutoff)
    case Err(e) => Err(CheckFailed(e))
    case Ok(receipt) =>
      if Expected(request.completeness, receipt.evaluation.disposition) then Ok(receipt) else Err(Misclassified)
  }

  /** The service with the list its sink appends to. */
  class ConvergenceValidationService {
    var receipts: seq<Receipt>

    constructor ()
      ensures receipts == []
    {
      receipts := [];
    }

    method EvaluateAndPersist(request: Request) returns (r: Result<Receipt, ServiceError>)
      modifies this
      ensures r == Reevaluate(request)
      ensures receipts == if r.Ok? then old(receipts) + [r.value] else old(receipts)
      ensures r.Ok? ==> r.value.Valid()
    {
      r := Reevaluate(request);
      if r.Ok? { receipts := receipts + [r.value]; }
    }
  }

  // ----- requests with one or two facts -----

  lemma OneRelevantFact(claim: Claim, fact: Fact)
    requires Relevant(claim.subject, fact.kind)
    ensures RelevantFacts(claim, [fact]) == [fact]
  {
    FilterIdentity([fact], claim.subject);
    SortIdentity([fact], FactLeq);
  }

  lemma TwoRelevantFacts(claim: Claim, a: Fact, b: Fact)
    requires Relevant(claim.subject, a.kind) && Relevant(claim.subject, b.kind) && Rank(a.kind) < Rank(b.kind)
    ensures RelevantFacts(claim, [a, b]) == [a, b]
  {
    FilterIdentity([a, b], claim.subject);
    SortIdentity([a, b], FactLeq);
  }

  /** A fact drawn from the same filing as the claim: same issuer, scope, times, no later day. */
  predicate Companion(fact: Fact, claim: Claim) {
    && fact.Valid()
    && fact.issuer == claim.issuer && fact.scope == claim.scope
    && fact.availableAt == claim.availableAt && fact.retrievedAt == claim.retrievedAt && fact.asOf == claim.asOf
  }

  lemma CompanionAdmittedIff(fact: Fact, claim: Claim, cutoff: Instant)
    requires Companion(fact, claim) && claim.Valid()
    ensures FactsAdmitted([fact], claim, cutoff) <==> claim.retrievedAt <= cutoff
  {
    assert FactAdmitted(fact, claim, cutoff) <==> claim.retrievedAt <= cutoff;
    assert Consistent(fact, fact);
    if FactsAdmitted([fact], claim, cutoff) { assert fact in [fact]; }
  }

  predicate Twins(a: Fact, b: Fact) {
    && a.kind != b.kind && a.factId != b.factId && a.sourceRecord == b.sourceRecord && a.sourceHash == b.sourceHash
    && a.currency == b.currency
  }

  lemma CompanionsAdmittedIff(a: Fact, b: Fact, claim: Claim, cutoff: Instant)
    requires Companion(a, claim) && Companion(b, claim) && claim.Valid() && Twins(a, b)
    ensures FactsAdmitted([a, b], claim, cutoff) <==> claim.retrievedAt <= cutoff
  {
    assert FactAdmitted(a, claim, cutoff) <==> claim.retrievedAt <= cutoff;
    assert FactAdmitted(b, claim, cutoff) <==> claim.retrievedAt <= cutoff;
    assert Consistent(a, a) && Consistent(a, b) && Consistent(b, a) && Consistent(b, b);
    if FactsAdmitted([a, b], claim, cutoff) { assert a in [a, b]; }
  }
}

/** The three source-specific producers of convergence requests. */
module ConvergenceProducers {
  import opened Calendar
  import opened Filtering
  import opened Outcomes
  import opened Ordering
  import opened Contradictions
  import opened ConvergenceService

  datatype Source = XbrlLiquiditySource | FinancingSource | SectionSixteenSource | Form144Source

  datatype ProducerReason = EligibleComplete | EligibleNotApplicable | NoRelevantFacts | AmbiguousContext | UnsupportedContext

  datatype ProducerError = EvidenceExceeded | InvalidFact | SharedLineage | SharedEvidence | InvalidClaim | TooManyRequests
    | DifferentSources

  datatype Decision = Decision(source: Source, record: SourceRecord, hash: Hash, reason: ProducerReason, requests: seq<Request>)
  {
    /** The record's validator. */
    predicate Closed() {
      (reason.EligibleComplete? || reason.EligibleNotApplicable?) == (requests != []) && |requests| <= 16
    }
  }

  function Close(d: Decision): Result<Decision, ProducerError> {
    if d.Closed() then Ok(d) else Err(TooManyRequests)
  }

  /** What identifies a fact: everything but its identifier, which is derived from it. */
  datatype Body = Body(issuer: Cik, kind: Kind, value: real, unit: Unit, currency: Option<string>, scope: Scope, asOf: Day,
                       availableAt: Instant, retrievedAt: Instant, sourceRecord: SourceRecord, sourceHash: Hash,
                       evidence: seq<EvidenceId>)

  type Identify = Body -> nat

  /** The derived identifiers of facts of different kinds differ. */
  ghost predicate KindsApart(identify: Identify) {
    forall a: Body, b: Body :: a.kind != b.kind ==> identify(a) != identify(b)
  }

  /** What is assumed of derived identifiers can be met. */
  lemma SomeKindsApart()
    ensures KindsApart((b: Body) => Rank(b.kind))
  {
  }

  function ToFact(b: Body, identify: Identify): Fact {
    Fact(identify(b), b.issuer, b.kind, b.value, b.unit, b.currency, b.scope, b.asOf, b.availableAt, b.retrievedAt,
         b.sourceRecord, b.sourceHash, b.evidence)
  }

  function BuildFact(b: Body, identify: Identify): Result<Fact, ProducerError> {
    if ToFact(b, identify).Valid() then Ok(ToFact(b, identify)) else Err(InvalidFact)
  }

  /** The claim a producer states about its own routing record. */
  function ClaimFor(issuer: Cik, subject: Predicate, assertedTruth: bool, scope: Scope, asOf: Day, availableAt: Instant,
                    retrievedAt: Instant, record: SourceRecord, hash: Hash, identify: EvidenceId -> nat): Claim {
    var evidence := ClaimEvidence(issuer, subject, assertedTruth, scope, asOf, record, hash);
    Claim(identify(evidence), issuer, FamilyOf(subject), subject, assertedTruth, scope, asOf, availableAt, retrievedAt,
          record, hash, [evidence])
  }

  /** Wraps claim and facts into a request; their lineage and their evidence must stay apart. */
  function BuildRequest(claim: Claim, facts: seq<Fact>, cutoff: Instant, completeness: Completeness):
    Result<Request, ProducerError>
  {
    if exists fact <- facts :: fact.sourceRecord == claim.sourceRecord && fact.sourceHash == claim.sourceHash
    then Err(SharedLineage)
    else if exists fact <- facts, id <- fact.evidence :: id in claim.evidence then Err(SharedEvidence)
    else if !claim.Valid() then Err(InvalidClaim)
    else Ok(Request(claim, facts, cutoff, completeness))
  }

  /** The service takes a request exactly when it is evaluated late enough to have retrieved it and no
      earlier than the day it speaks about. */
  predicate AcceptedInTime(request: Request) {
    Reevaluate(request).Ok? <==>
      request.claim.retrievedAt <= request.cutoff && request.claim.asOf <= DateOf(request.cutoff)
  }

  predicate Sound(r: Result<Decision, ProducerError>) {
    r.Ok? ==> forall request <- r.value.requests :: AcceptedInTime(request)
  }

  lemma OneFactAccepted(claim: Claim, fact: Fact, cutoff: Instant, completeness: Completeness)
    requires claim.Valid() && Companion(fact, claim) && Relevant(claim.subject, fact.kind)
    requires claim.subject.DilutionExposurePresent? ==>
      fact.kind.InstrumentCount? && fact.value > 0.0 && completeness.RequiredFactsComplete?
    requires claim.subject.NetInsiderAcquisition? ==> fact.kind.PlannedSale? && completeness.NotApplicableContext?
    requires !claim.subject.CashAtLeastCurrentLiabilities?
    ensures AcceptedInTime(Request(claim, [fact], cutoff, completeness))
  {
    OneRelevantFact(claim, fact);
    CompanionAdmittedIff(fact, claim, cutoff);
    CheckSucceedsIff(claim, [fact], cutoff);
    if claim.subject.DilutionExposurePresent? { OneInstrumentFinding(fact); } else { OnePlannedSaleFinding(fact); }
  }

  lemma OneFactByKind(fact: Fact, kind: Kind)
    ensures ByKind([fact], kind) == if kind == fact.kind then Some(fact) else None
  {
    assert [fact][..0] == [];
  }

  lemma OneInstrumentFinding(fact: Fact)
    requires fact.kind.InstrumentCount? && fact.value > 0.0
    ensures DilutionFinding([fact]).Observed? && DilutionFinding([fact]).truth
  {
    OneFactByKind(fact, SharesPrior);
    OneFactByKind(fact, SharesCurrent);
    OneFactByKind(fact, InstrumentCount);
    OneFactByKind(fact, Issuable);
  }

  lemma OnePlannedSaleFinding(fact: Fact)
    requires fact.kind.PlannedSale?
    ensures InsiderFinding([fact]) == Open(Evaluation(NotApplicable, None, PlannedSaleOnly, [fact.factId]))
  {
    OneFactByKind(fact, Acquired);
    OneFactByKind(fact, Disposed);
    OneFactByKind(fact, PlannedSale);
  }

  lemma TwoFactsFinding(p: Predicate, a: Fact, b: Fact)
    requires a.asOf == b.asOf && a.currency == b.currency
    requires (p.NetInsiderAcquisition? && a.kind.Acquired? && b.kind.Disposed?)
      || (p.CashAtLeastCurrentLiabilities? && a.kind.Cash? && b.kind.CurrentLiabilities?)
    ensures FindingOf(p, [a, b]).Ok? && FindingOf(p, [a, b]).value.Observed?
    ensures p.NetInsiderAcquisition? ==> FindingOf(p, [a, b]).value.truth == (a.value > b.value)
    ensures p.CashAtLeastCurrentLiabilities? ==> FindingOf(p, [a, b]).value.truth == (a.value >= b.value)
  {
    TwoFactsByKind(a, b);
    match p
    case NetInsiderAcquisition =>
      assert ByKind([a, b], Acquired) == Some(a) && ByKind([a, b], Disposed) == Some(b);
    case CashAtLeastCurrentLiabilities =>
      assert ByKind([a, b], Cash) == Some(a) && ByKind([a, b], CurrentLiabilities) == Some(b);
  }

  lemma TwoFactsByKind(a: Fact, b: Fact)
    requires a.kind != b.kind
    ensures ByKind([a, b], a.kind) == Some(a) && ByKind([a, b], b.kind) == Some(b)
  {
    assert [a, b][..1] == [a];
    assert ByKind([a], a.kind) == Some(a);
  }

  lemma TwoFactsAccepted(claim: Claim, a: Fact, b: Fact, cutoff: Instant)
    requires claim.Valid() && Companion(a, claim) && Companion(b, claim) && Twins(a, b)
    requires (claim.subject.NetInsiderAcquisition? && a.kind.Acquired? && b.kind.Disposed?)
      || (claim.subject.CashAtLeastCurrentLiabilities? && a.kind.Cash? && b.kind.CurrentLiabilities?)
    ensures AcceptedInTime(Request(claim, [a, b], cutoff, RequiredFactsComplete))
  {
    TwoRelevantFacts(claim, a, b);
    CompanionsAdmittedIff(a, b, claim, cutoff);
    CheckSucceedsIff(claim, [a, b], cutoff);
    TwoFactsFinding(claim.subject, a, b);
  }

  // ----- financing -----

  datatype Instrument = ShelfRegistration | ResaleRegistration | AtmProgram | PublicOffering | Pipe | ConvertibleDebt
    | PreferredEquity | Warrant | WarrantRepricing | WarrantExerciseInducement | EquityLine | PlainDebt

  datatype EventStatus = RegisteredStatus | Proposed | Priced | Closed | Available | Amended | Terminated | Unknown

  datatype Term = Term(instrument: Instrument, status: EventStatus, issuable: Option<real>, evidence: seq<nat>)
  {
    predicate Dilutive() {
      && (instrument.ConvertibleDebt? || instrument.PreferredEquity? || instrument.Warrant? || instrument.WarrantRepricing?
          || instrument.WarrantExerciseInducement? || instrument.EquityLine?)
      && !status.Terminated? && !status.Unknown?
      && issuable.Some? && issuable.value > 0.0
    }
  }

  datatype FinancingReceipt = FinancingReceipt(
    accession: Accession, issuer: Cik, terms: seq<Term>, hash: Hash, acceptedAt: Instant, retrievedAt: Instant)
  {
    predicate Valid() {
      acceptedAt <= retrievedAt && 1 <= |terms| <= 32 && forall term <- terms :: 1 <= |term.evidence| <= 16
    }
  }

  function Qualifying(terms: seq<Term>): (kept: seq<Term>)
    ensures forall term :: term in kept <==> term in terms && term.Dilutive()
  {
    Keep(terms, (term: Term) => term.Dilutive())
  }

  function EvidenceOf(terms: seq<Term>): set<nat> { set term <- terms, id <- term.evidence :: id }

  predicate NatLeq(a: nat, b: nat) { a <= b }

  ghost function EvidenceIds(terms: seq<Term>): (ids: seq<EvidenceId>)
    ensures NoDuplicates(ids) && |ids| == |EvidenceOf(terms)|
    ensures forall id <- ids :: id.Extracted?
  {
    var sorted := Ascending(EvidenceOf(terms), NatLeq);
    seq(|sorted|, i requires 0 <= i < |sorted| => Extracted(sorted[i]))
  }

  ghost function FinancingBody(receipt: FinancingReceipt, qualifying: seq<Term>): Body {
    Body(receipt.issuer, InstrumentCount, |qualifying| as real, CountUnit, None,
         FinancingScope(receipt.accession), DateOf(receipt.acceptedAt), receipt.acceptedAt,
         receipt.retrievedAt, Filing(receipt.accession), receipt.hash, EvidenceIds(qualifying))
  }

  function FinancingClaim(receipt: FinancingReceipt, routingHash: Hash, name: EvidenceId -> nat): Claim {
    ClaimFor(receipt.issuer, DilutionExposurePresent, true, FinancingScope(receipt.accession), DateOf(receipt.acceptedAt),
             receipt.acceptedAt, receipt.retrievedAt, FinancingRouting(receipt.accession), routingHash, name)
  }

  /** The one dilution fact of a filing: how many active, issuable, dilutive instruments it reports. */
  ghost function FinancingFacts(receipt: FinancingReceipt, identify: Identify): Result<seq<Fact>, ProducerError> {
    var qualifying := Qualifying(receipt.terms);
    if qualifying == [] then Ok([])
    else if |EvidenceOf(qualifying)| > 16 then Err(EvidenceExceeded)
    else
      match BuildFact(FinancingBody(receipt, qualifying), identify)
      case Err(e) => Err(e)
      case Ok(fact) => Ok([fact])
  }

  ghost function FinancingDecision(receipt: FinancingReceipt, routingHash: Hash, cutoff: Instant, identify: Identify,
                                   name: EvidenceId -> nat): Result<Decision, ProducerError> {
    var record := FinancingRouting(receipt.accession);
    match FinancingFacts(receipt, identify)
    case Err(e) => Err(e)
    case Ok(facts) =>
      if facts == [] then Close(Decision(FinancingSource, record, routingHash, NoRelevantFacts, []))
      else
        match BuildRequest(FinancingClaim(receipt, routingHash, name), facts, cutoff, RequiredFactsComplete)
        case Err(e) => Err(e)
        case Ok(request) => Close(Decision(FinancingSource, record, routingHash, EligibleComplete, [request]))
  }

  lemma DatesAreMonotone(a: Instant, b: Instant)
    requires a <= b
    ensures DateOf(a) <= DateOf(b)
  {
  }

  lemma EvidencePresent(terms: seq<Term>)
    requires terms != [] && |terms[0].evidence| >= 1
    ensures |EvidenceOf(terms)| >= 1
  {
    var term := terms[0];
    var id := term.evidence[0];
    assert term in terms && id in term.evidence;
    assert id in EvidenceOf(terms);
  }

  /** Claim and facts come from differently named records and different kinds of evidence. */
  predicate Apart(claim: Claim, fact: Fact) {
    && claim.sourceRecord != fact.sourceRecord
    && (forall id <- claim.evidence :: id.ClaimEvidence?) && (forall id <- fact.evidence :: !id.ClaimEvidence?)
  }

  lemma RequestIsBuilt(claim: Claim, facts: seq<Fact>, cutoff: Instant, completeness: Completeness)
    requires claim.Valid() && forall fact <- facts :: Apart(claim, fact)
    ensures BuildRequest(claim, facts, cutoff, completeness) == Ok(Request(claim, facts, cutoff, completeness))
  {
    forall fact | fact in facts
      ensures fact.sourceRecord != claim.sourceRecord && forall id <- fact.evidence :: id !in claim.evidence
    {
      assert Apart(claim, fact);
    }
  }

  lemma FinancingParts(receipt: FinancingReceipt, qualifying: seq<Term>, routingHash: Hash, identify: Identify,
                       name: EvidenceId -> nat)
    requires receipt.acceptedAt <= receipt.retrievedAt
    requires qualifying != [] && 1 <= |EvidenceOf(qualifying)| <= 16
    ensures var fact, claim := ToFact(FinancingBody(receipt, qualifying), identify), FinancingClaim(receipt, routingHash, name);
      && fact.Valid() && claim.Valid() && Companion(fact, claim) && Apart(claim, fact) && fact.value > 0.0
  {
  }

  lemma FinancingRequestAgrees(receipt: FinancingReceipt, qualifying: seq<Term>, routingHash: Hash, cutoff: Instant,
                               identify: Identify, name: EvidenceId -> nat)
    requires receipt.acceptedAt <= receipt.retrievedAt
    requires qualifying != [] && 1 <= |EvidenceOf(qualifying)| <= 16
    ensures var fact, claim := ToFact(FinancingBody(receipt, qualifying), identify), FinancingClaim(receipt, routingHash, name);
      && fact.Valid()
      && BuildRequest(claim, [fact], cutoff, RequiredFactsComplete) == Ok(Request(claim, [fact], cutoff, RequiredFactsComplete))
      && (Reevaluate(Request(claim, [fact], cutoff, RequiredFactsComplete)).Ok? <==> receipt.retrievedAt <= cutoff)
  {
    var fact, claim := ToFact(FinancingBody(receipt, qualifying), identify), FinancingClaim(receipt, routingHash, name);
    FinancingParts(receipt, qualifying, routingHash, identify, name);
    OneRequest(claim, fact, cutoff, RequiredFactsComplete);
    if receipt.retrievedAt <= cutoff { DatesAreMonotone(receipt.acceptedAt, cutoff); }
  }

  lemma OneRequest(claim: Claim, fact: Fact, cutoff: Instant, completeness: Completeness)
    requires claim.Valid() && Companion(fact, claim) && Relevant(claim.subject, fact.kind) && Apart(claim, fact)
    requires claim.subject.DilutionExposurePresent? ==>
      fact.kind.InstrumentCount? && fact.value > 0.0 && completeness.RequiredFactsComplete?
    requires claim.subject.NetInsiderAcquisition? ==> fact.kind.PlannedSale? && completeness.NotApplicableContext?
    requires !claim.subject.CashAtLeastCurrentLiabilities?
    ensures BuildRequest(claim, [fact], cutoff, completeness) == Ok(Request(claim, [fact], cutoff, completeness))
    ensures AcceptedInTime(Request(claim, [fact], cutoff, completeness))
  {
    RequestIsBuilt(claim, [fact], cutoff, completeness);
    OneFactAccepted(claim, fact, cutoff, completeness);
  }

  /** What the financing producer decides: nothing without a dilutive term, an error beyond sixteen pieces of
      evidence, and otherwise one request whose lineage and evidence checks never fail. */
  lemma FinancingDecided(receipt: FinancingReceipt, routingHash: Hash, cutoff: Instant, identify: Identify,
                         name: EvidenceId -> nat)
    requires receipt.Valid()
    ensures var qualifying := Qualifying(receipt.terms); var record := FinancingRouting(receipt.accession);
      var fact, claim := ToFact(FinancingBody(receipt, qualifying), identify), FinancingClaim(receipt, routingHash, name);
      FinancingDecision(receipt, routingHash, cutoff, identify, name) ==
        if qualifying == [] then Ok(Decision(FinancingSource, record, routingHash, NoRelevantFacts, []))
        else if |EvidenceOf(qualifying)| > 16 then Err(EvidenceExceeded)
        else Ok(Decision(FinancingSource, record, routingHash, EligibleComplete,
                         [Request(claim, [fact], cutoff, RequiredFactsComplete)]))
  {
    var qualifying := Qualifying(receipt.terms);
    if qualifying != [] && |EvidenceOf(qualifying)| <= 16 {
      assert qualifying[0] in receipt.terms;
      EvidencePresent(qualifying);
      FinancingRequestAgrees(receipt, qualifying, routingHash, cutoff, identify, name);
    }
  }

  /** Every financing request is accepted by the service exactly when the filing was retrieved by the
      cutoff; there is one exactly when some active term is dilutive. */
  lemma FinancingProducerAgrees(receipt: FinancingReceipt, routingHash: Hash, cutoff: Instant, identify: Identify,
                                name: EvidenceId -> nat)
    requires receipt.Valid()
    ensures var r := FinancingDecision(receipt, routingHash, cutoff, identify, name);
      && (r.Ok? <==> |EvidenceOf(Qualifying(receipt.terms))| <= 16)
      && (r.Ok? ==> (r.value.requests != [] <==> exists term <- receipt.terms :: term.Dilutive()))
      && (r.Ok? ==> forall request <- r.value.requests :: Reevaluate(request).Ok? <==> receipt.retrievedAt <= cutoff)
  {
    var qualifying := Qualifying(receipt.terms);
    FinancingDecided(receipt, routingHash, cutoff, identify, name);
    if qualifying == [] {
      assert EvidenceOf(qualifying) == {};
    } else {
      assert qualifying[0] in receipt.terms;
      EvidencePresent(qualifying);
      if |EvidenceOf(qualifying)| <= 16 {
        FinancingRequestAgrees(receipt, qualifying, routingHash, cutoff, identify, name);
      }
    }
  }
}

/** The ownership producer: one request per Section 16 scope, or one planned-sale context. */
module OwnershipProducer {
  import opened Calendar
  import opened Outcomes
  import opened Ordering
  import opened Contradictions
  import opened ConvergenceService
  import opened ConvergenceProducers

  /** Forms 3, 4 and 5; Form 144; Schedules 13D and 13G; each with its amendments. */
  datatype FormFamily = SectionSixteen | Form144 | Schedule13

  datatype Transaction = Transaction(day: Day, derivative: bool, shares: real, acquired: bool)
  {
    function Key(): ScopeKey { ScopeKey(day, derivative) }
  }

  datatype ScopeKey = ScopeKey(day: Day, derivative: bool)

  /** Days first, and the non-derivative scope of a day before its derivative one. */
  predicate ScopeLeq(a: ScopeKey, b: ScopeKey) {
    a.day < b.day || (a.day == b.day && (b.derivative || !a.derivative))
  }

  lemma ScopeOrder()
    ensures TotalOrder(ScopeLeq)
  {
  }

  datatype OwnershipReceipt = OwnershipReceipt(
    accession: Accession,
    form: FormFamily,
    issuer: Cik,
    periodDay: Day,
    transactions: seq<Transaction>,
    plannedSale: Option<real>,
    hash: Hash,
    acceptedAt: Instant,
    retrievedAt: Instant)
  {
    predicate Valid() {
      && acceptedAt <= retrievedAt
      && (form.Form144? ==> plannedSale.Some? && plannedSale.value >= 0.0)
      && (forall t <- transactions :: t.shares >= 0.0)
    }

    function Record(): SourceRecord { OwnershipRouting(accession) }

    function Evidence(): seq<EvidenceId> { [OwnershipSource(accession, hash)] }
  }

  /** The shares acquired, or disposed of, in one scope. */
  function SharesOf(transactions: seq<Transaction>, key: ScopeKey, acquired: bool): real {
    if |transactions| == 0 then 0.0
    else
      var last := transactions[|transactions| - 1];
      SharesOf(transactions[..|transactions| - 1], key, acquired)
      + if last.Key() == key && last.acquired == acquired then last.shares else 0.0
  }

  function FactBody(receipt: OwnershipReceipt, kind: Kind, value: real, scope: Scope, day: Day): Body {
    Body(receipt.issuer, kind, value, SharesUnit, None, scope, day, receipt.acceptedAt, receipt.retrievedAt,
         Filing(receipt.accession), receipt.hash, receipt.Evidence())
  }

  function PlannedFact(receipt: OwnershipReceipt, identify: Identify): Fact
    requires receipt.plannedSale.Some?
  {
    ToFact(FactBody(receipt, PlannedSale, receipt.plannedSale.value, PlannedSaleScope(receipt.accession), receipt.periodDay),
           identify)
  }

  function ScopeFact(receipt: OwnershipReceipt, key: ScopeKey, acquired: bool, identify: Identify): Fact {
    ToFact(FactBody(receipt, if acquired then Acquired else Disposed, SharesOf(receipt.transactions, key, acquired),
                    SectionSixteenScope(receipt.accession, key.day, key.derivative), key.day), identify)
  }

  function OwnershipClaim(receipt: OwnershipReceipt, assertedTruth: bool, scope: Scope, day: Day, routingHash: Hash,
                          name: EvidenceId -> nat): Claim {
    ClaimFor(receipt.issuer, NetInsiderAcquisition, assertedTruth, scope, day, receipt.acceptedAt, receipt.retrievedAt,
             receipt.Record(), routingHash, name)
  }

  function PlannedRequest(receipt: OwnershipReceipt, routingHash: Hash, cutoff: Instant, identify: Identify,
                          name: EvidenceId -> nat): Result<Request, ProducerError>
    requires receipt.plannedSale.Some?
  {
    var fact := PlannedFact(receipt, identify);
    if !fact.Valid() then Err(InvalidFact)
    else BuildRequest(OwnershipClaim(receipt, false, fact.scope, receipt.periodDay, routingHash, name), [fact], cutoff,
                      NotApplicableContext)
  }

  function ScopeRequest(receipt: OwnershipReceipt, key: ScopeKey, routingHash: Hash, cutoff: Instant, identify: Identify,
                        name: EvidenceId -> nat): Result<Request, ProducerError> {
    var acquired, disposed := ScopeFact(receipt, key, true, identify), ScopeFact(receipt, key, false, identify);
    if !acquired.Valid() || !disposed.Valid() then Err(InvalidFact)
    else BuildRequest(OwnershipClaim(receipt, true, acquired.scope, key.day, routingHash, name), [acquired, disposed],
                      cutoff, RequiredFactsComplete)
  }

  /** All the results, or the first error. */
  function Gather(results: seq<Result<Request, ProducerError>>): (all: Result<seq<Request>, ProducerError>)
    ensures (forall r <- results :: r.Ok?) ==> all.Ok? && |all.value| == |results|
    ensures (forall r <- results :: r.Ok?) ==> forall i | 0 <= i < |results| :: all.value[i] == results[i].value
  {
    if |results| == 0 then Ok([])
    else
      var front := results[..|results| - 1];
      assert forall r <- front :: r in results;
      match Gather(front)
      case Err(e) => Err(e)
      case Ok(requests) =>
        match results[|results| - 1]
        case Err(e) => Err(e)
        case Ok(request) => Ok(requests + [request])
  }

  function ScopeRequests(receipt: OwnershipReceipt, keys: seq<ScopeKey>, routingHash: Hash, cutoff: Instant,
                         identify: Identify, name: EvidenceId -> nat): (results: seq<Result<Request, ProducerError>>)
    ensures |results| == |keys|
  {
    seq(|keys|, i requires 0 <= i < |keys| => ScopeRequest(receipt, keys[i], routingHash, cutoff, identify, name))
  }

  function ScopeSet(transactions: seq<Transaction>): set<ScopeKey> { set t <- transactions :: t.Key() }

  ghost function Scopes(transactions: seq<Transaction>): (keys: seq<ScopeKey>)
    ensures NoDuplicates(keys) && SortedBy(keys, ScopeLeq) && |keys| == |ScopeSet(transactions)|
    ensures forall key :: key in keys <==> key in ScopeSet(transactions)
  {
    ScopeOrder();
    Ascending(ScopeSet(transactions), ScopeLeq)
  }

  ghost function OwnershipDecision(receipt: OwnershipReceipt, routingHash: Hash, cutoff: Instant, identify: Identify,
                                   name: EvidenceId -> nat): Result<Decision, ProducerError>
    requires receipt.Valid()
  {
    var record := receipt.Record();
    match receipt.form
    case Schedule13 => Close(Decision(SectionSixteenSource, record, routingHash, UnsupportedContext, []))
    case Form144 =>
      (match PlannedRequest(receipt, routingHash, cutoff, identify, name)
       case Err(e) => Err(e)
       case Ok(request) => Close(Decision(Form144Source, record, routingHash, EligibleNotApplicable, [request])))
    case SectionSixteen =>
      match Gather(ScopeRequests(receipt, Scopes(receipt.transactions), routingHash, cutoff, identify, name))
      case Err(e) => Err(e)
      case Ok(requests) =>
        Close(Decision(SectionSixteenSource, record, routingHash,
                       if requests == [] then NoRelevantFacts else EligibleComplete, requests))
  }

  // ----- agreement with the service -----

  lemma {:induction false} SharesNonNegative(transactions: seq<Transaction>, key: ScopeKey, acquired: bool)
    requires forall t <- transactions :: t.shares >= 0.0
    ensures SharesOf(transactions, key, acquired) >= 0.0
  {
    if |transactions| != 0 { SharesNonNegative(transactions[..|transactions| - 1], key, acquired); }
  }

  lemma PlannedParts(receipt: OwnershipReceipt, routingHash: Hash, identify: Identify, name: EvidenceId -> nat)
    requires receipt.Valid() && receipt.form.Form144?
    ensures var fact := PlannedFact(receipt, identify);
      var claim := OwnershipClaim(receipt, false, fact.scope, receipt.periodDay, routingHash, name);
      fact.Valid() && claim.Valid() && Companion(fact, claim) && Apart(claim, fact)
  {
  }

  lemma ScopeParts(receipt: OwnershipReceipt, key: ScopeKey, acquired: bool, routingHash: Hash, identify: Identify,
                   name: EvidenceId -> nat)
    requires receipt.Valid()
    ensures var fact := ScopeFact(receipt, key, acquired, identify);
      var claim := OwnershipClaim(receipt, true, SectionSixteenScope(receipt.accession, key.day, key.derivative), key.day,
                                  routingHash, name);
      fact.Valid() && claim.Valid() && Companion(fact, claim) && Apart(claim, fact)
  {
    SharesNonNegative(receipt.transactions, key, acquired);
  }

  lemma ScopeTwins(receipt: OwnershipReceipt, key: ScopeKey, identify: Identify)
    requires KindsApart(identify)
    ensures Twins(ScopeFact(receipt, key, true, identify), ScopeFact(receipt, key, false, identify))
  {
  }

  /** The request of one scope carries the scope's own two sums and is taken in time. */
  predicate SpeaksFor(request: Request, receipt: OwnershipReceipt, key: ScopeKey) {
    && request.claim.asOf == key.day && request.claim.retrievedAt == receipt.retrievedAt
    && |request.facts| == 2
    && request.facts[0].kind.Acquired? && request.facts[0].value == SharesOf(receipt.transactions, key, true)
    && request.facts[1].kind.Disposed? && request.facts[1].value == SharesOf(receipt.transactions, key, false)
  }

  predicate Agrees(r: Result<Request, ProducerError>, receipt: OwnershipReceipt, key: ScopeKey, cutoff: Instant) {
    r.Ok? && SpeaksFor(r.value, receipt, key) && r.value.cutoff == cutoff && AcceptedInTime(r.value)
  }

  lemma ScopeRequestAgrees(receipt: OwnershipReceipt, key: ScopeKey, routingHash: Hash, cutoff: Instant,
                           identify: Identify, name: EvidenceId -> nat)
    requires receipt.Valid() && KindsApart(identify)
    ensures Agrees(ScopeRequest(receipt, key, routingHash, cutoff, identify, name), receipt, key, cutoff)
  {
    var acquired, disposed := ScopeFact(receipt, key, true, identify), ScopeFact(receipt, key, false, identify);
    var claim := OwnershipClaim(receipt, true, acquired.scope, key.day, routingHash, name);
    ScopeParts(receipt, key, true, routingHash, identify, name);
    ScopeParts(receipt, key, false, routingHash, identify, name);
    ScopeTwins(receipt, key, identify);
    RequestIsBuilt(claim, [acquired, disposed], cutoff, RequiredFactsComplete);
    TwoFactsAccepted(claim, acquired, disposed, cutoff);
  }

  /** A context that is declared not applicable and carries the planned shares, asserting no acquisition. */
  predicate PlannedContext(request: Request, receipt: OwnershipReceipt)
    requires receipt.plannedSale.Some?
  {
    && request.completeness.NotApplicableContext? && !request.claim.assertedTruth
    && request.claim.subject.NetInsiderAcquisition? && request.claim.asOf == receipt.periodDay
    && |request.facts| == 1 && request.facts[0].kind.PlannedSale? && request.facts[0].value == receipt.plannedSale.value
  }

  lemma PlannedRequestAgrees(receipt: OwnershipReceipt, routingHash: Hash, cutoff: Instant, identify: Identify,
                             name: EvidenceId -> nat)
    requires receipt.Valid() && receipt.form.Form144?
    ensures var r := PlannedRequest(receipt, routingHash, cutoff, identify, name);
      && r.Ok? && PlannedContext(r.value, receipt) && r.value.claim.retrievedAt == receipt.retrievedAt
      && r.value.cutoff == cutoff && AcceptedInTime(r.value)
  {
    var fact := PlannedFact(receipt, identify);
    PlannedParts(receipt, routingHash, identify, name);
    OneRequest(OwnershipClaim(receipt, false, fact.scope, receipt.periodDay, routingHash, name), fact, cutoff,
               NotApplicableContext);
  }

  lemma ScopeRequestsAgree(receipt: OwnershipReceipt, keys: seq<ScopeKey>, routingHash: Hash, cutoff: Instant,
                           identify: Identify, name: EvidenceId -> nat)
    requires receipt.Valid() && KindsApart(identify)
    ensures forall i | 0 <= i < |keys| ::
      Agrees(ScopeRequests(receipt, keys, routingHash, cutoff, identify, name)[i], receipt, keys[i], cutoff)
  {
    forall i | 0 <= i < |keys|
      ensures Agrees(ScopeRequests(receipt, keys, routingHash, cutoff, identify, name)[i], receipt, keys[i], cutoff)
    {
      ScopeRequestAgrees(receipt, keys[i], routingHash, cutoff, identify, name);
    }
  }

  lemma GatheredAgree(results: seq<Result<Request, ProducerError>>, receipt: OwnershipReceipt, keys: seq<ScopeKey>,
                      cutoff: Instant)
    requires |results| == |keys| && forall i | 0 <= i < |keys| :: Agrees(results[i], receipt, keys[i], cutoff)
    ensures Gather(results).Ok? && |Gather(results).value| == |keys|
    ensures forall i | 0 <= i < |keys| :: Agrees(Ok(Gather(results).value[i]), receipt, keys[i], cutoff)
  {
    forall r | r in results ensures r.Ok? {
      var i :| 0 <= i < |results| && results[i] == r;
      assert Agrees(results[i], receipt, keys[i], cutoff);
    }
    forall i | 0 <= i < |keys| ensures Agrees(Ok(Gather(results).value[i]), receipt, keys[i], cutoff) {
      assert Agrees(results[i], receipt, keys[i], cutoff);
      assert results[i] == Ok(Gather(results).value[i]);
    }
  }

  /** A Section 16 filing is decided exactly when it has at most sixteen scopes. It then has one request per
      date-and-derivative scope, in order, with that scope's own acquired and disposed shares, each taken
      by the service exactly when retrieved by the cutoff and not about a later day. */
  lemma SectionSixteenAgrees(receipt: OwnershipReceipt, routingHash: Hash, cutoff: Instant, identify: Identify,
                             name: EvidenceId -> nat)
    requires receipt.Valid() && KindsApart(identify) && receipt.form.SectionSixteen?
    ensures var r := OwnershipDecision(receipt, routingHash, cutoff, identify, name); var keys := Scopes(receipt.transactions);
      && (r.Ok? <==> |keys| <= 16)
      && (r.Ok? ==> |r.value.requests| == |keys|)
      && (r.Ok? ==> forall i | 0 <= i < |keys| :: Agrees(Ok(r.value.requests[i]), receipt, keys[i], cutoff))
  {
    var keys := Scopes(receipt.transactions);
    var results := ScopeRequests(receipt, keys, routingHash, cutoff, identify, name);
    ScopeRequestsAgree(receipt, keys, routingHash, cutoff, identify, name);
    GatheredAgree(results, receipt, keys, cutoff);
  }

  /** A Form 144 filing always yields one not-applicable context, about its planned shares; a schedule
      yields none. */
  lemma OtherFormsAgree(receipt: OwnershipReceipt, routingHash: Hash, cutoff: Instant, identify: Identify,
                        name: EvidenceId -> nat)
    requires receipt.Valid() && !receipt.form.SectionSixteen?
    ensures var r := OwnershipDecision(receipt, routingHash, cutoff, identify, name);
      && r.Ok?
      && (receipt.form.Schedule13? ==> r.value.requests == [])
      && (receipt.form.Form144? ==>
            && |r.value.requests| == 1
            && PlannedContext(r.value.requests[0], receipt)
            && (Reevaluate(r.value.requests[0]).Ok? <==>
                  receipt.retrievedAt <= cutoff && receipt.periodDay <= DateOf(cutoff)))
  {
    if receipt.form.Form144? { PlannedRequestAgrees(receipt, routingHash, cutoff, identify, name); }
  }

  /** A Form 4 about a transaction on the day after it was retrieved: nothing in the record forbids it. */
  const EARLY_FILING := OwnershipReceipt(1, SectionSixteen, 1, 0, [Transaction(1, false, 100.0, true)], None, 1, 0, 0)

  /** The producer makes a request of it, and the service refuses that request. */
  lemma EarlyFilingIsRefused(routingHash: Hash, identify: Identify, name: EvidenceId -> nat)
    requires KindsApart(identify)
    ensures EARLY_FILING.Valid()
    ensures var r := OwnershipDecision(EARLY_FILING, routingHash, 0, identify, name);
      r.Ok? && |r.value.requests| == 1 && Reevaluate(r.value.requests[0]).Err?
  {
    var key := ScopeKey(1, false);
    assert EARLY_FILING.transactions[0].Key() == key;
    assert ScopeSet(EARLY_FILING.transactions) == {key};
    SectionSixteenAgrees(EARLY_FILING, routingHash, 0, identify, name);
    assert Scopes(EARLY_FILING.transactions)[0] in Scopes(EARLY_FILING.transactions);
  }

  // ----- no share is lost or counted twice -----

  function TotalShares(transactions: seq<Transaction>, acquired: bool): real {
    if |transactions| == 0 then 0.0
    else
      var last := transactions[|transactions| - 1];
      TotalShares(transactions[..|transactions| - 1], acquired) + if last.acquired == acquired then last.shares else 0.0
  }

  function ScopeTotal(transactions: seq<Transaction>, keys: seq<ScopeKey>, acquired: bool): real {
    if |keys| == 0 then 0.0
    else ScopeTotal(transactions, keys[..|keys| - 1], acquired) + SharesOf(transactions, keys[|keys| - 1], acquired)
  }

  lemma {:induction false} ScopeTotalOfNone(keys: seq<ScopeKey>, acquired: bool)
    ensures ScopeTotal([], keys, acquired) == 0.0
  {
    if |keys| != 0 { ScopeTotalOfNone(keys[..|keys| - 1], acquired); }
  }

  lemma SharesSnoc(transactions: seq<Transaction>, last: Transaction, key: ScopeKey, acquired: bool)
    ensures SharesOf(transactions + [last], key, acquired) == SharesOf(transactions, key, acquired)
      + if last.Key() == key && last.acquired == acquired then last.shares else 0.0
  {
    assert (transactions + [last])[..|transactions|] == transactions;
  }

  lemma {:induction false} ScopeTotalStep(transactions: seq<Transaction>, last: Transaction, keys: seq<ScopeKey>, acquired: bool)
    requires NoDuplicates(keys)
    ensures ScopeTotal(transactions + [last], keys, acquired) == ScopeTotal(transactions, keys, acquired)
      + if last.Key() in keys && last.acquired == acquired then last.shares else 0.0
  {
    if |keys| != 0 {
      var front, key := keys[..|keys| - 1], keys[|keys| - 1];
      assert keys == front + [key];
      ScopeTotalStep(transactions, last, front, acquired);
      SharesSnoc(transactions, last, key, acquired);
    }
  }

  /** Added up over the requests' scopes, the shares are those of all the transactions. */
  lemma {:induction false} ScopesConserveShares(transactions: seq<Transaction>, keys: seq<ScopeKey>, acquired: bool)
    requires NoDuplicates(keys) && forall t <- transactions :: t.Key() in keys
    ensures ScopeTotal(transactions, keys, acquired) == TotalShares(transactions, acquired)
  {
    if |transactions| == 0 {
      ScopeTotalOfNone(keys, acquired);
    } else {
      var front, last := transactions[..|transactions| - 1], transactions[|transactions| - 1];
      assert transactions == front + [last];
      ScopesConserveShares(front, keys, acquired);
      ScopeTotalStep(front, last, keys, acquired);
    }
  }
}

/** The XBRL producer: one unambiguous pair of cash and current liabilities of the latest period. */
module XbrlProducer {
  import opened Calendar
  import opened Filtering
  import opened Outcomes
  import opened Ordering
  import opened Contradictions
  import opened ConvergenceService
  import opened ConvergenceProducers

  datatype Tag = CashTag | RestrictedCashTag | LiabilitiesTag | OtherTag

  datatype SecFact = SecFact(
    recordId: nat,
    cik: Cik,
    accession: Accession,
    form: string,
    inDollars: bool,
    periodStart: Option<Day>,
    periodEnd: Day,
    tag: Tag,
    value: real,
    availableAt: Instant,
    retrievedAt: Instant,
    hash: Hash)
  {
    predicate IsCash() { tag.CashTag? || tag.RestrictedCashTag? }

    predicate IsLiabilities() { tag.LiabilitiesTag? }

    predicate Applies(issuer: Cik, filing: Accession, filingForm: string, cutoff: Instant) {
      && cik == issuer && accession == filing && form == filingForm && inDollars && periodStart.None?
      && (IsCash() || IsLiabilities())
      && availableAt <= cutoff && retrievedAt <= cutoff
    }
  }

  function DatedCash(day: Day): SecFact -> bool { (f: SecFact) => f.periodEnd == day && f.IsCash() }
  function DatedLiabilities(day: Day): SecFact -> bool { (f: SecFact) => f.periodEnd == day && f.IsLiabilities() }
  function Dated(day: Day): SecFact -> bool { (f: SecFact) => f.periodEnd == day }
  function CashSide(): SecFact -> bool { (f: SecFact) => f.IsCash() }
  function LiabilitiesSide(): SecFact -> bool { (f: SecFact) => f.IsLiabilities() }

  function CashAt(facts: seq<SecFact>, day: Day): seq<SecFact> { Keep(facts, DatedCash(day)) }

  function LiabilitiesAt(facts: seq<SecFact>, day: Day): seq<SecFact> { Keep(facts, DatedLiabilities(day)) }

  predicate CompleteAt(facts: seq<SecFact>, day: Day) { |CashAt(facts, day)| == 1 && |LiabilitiesAt(facts, day)| == 1 }

  /** Both sides are reported, but not once each. */
  predicate ContestedAt(facts: seq<SecFact>, day: Day) {
    CashAt(facts, day) != [] && LiabilitiesAt(facts, day) != [] && !CompleteAt(facts, day)
  }

  function Periods(facts: seq<SecFact>): set<Day> { set f <- facts :: f.periodEnd }

  function Latest(facts: seq<SecFact>): Day
    requires |facts| > 0
  {
    if |facts| == 1 then facts[0].periodEnd
    else
      var before := Latest(facts[..|facts| - 1]);
      if facts[|facts| - 1].periodEnd > before then facts[|facts| - 1].periodEnd else before
  }

  datatype Selection = NoPair | Contested | Pair(day: Day, cash: SecFact, liabilities: SecFact)

  /** What the pairs of all periods come to: the latest period's pair, if that one is complete. */
  function PairSelection(facts: seq<SecFact>): Selection {
    if forall day <- Periods(facts) :: !CompleteAt(facts, day) then
      if exists day <- Periods(facts) :: ContestedAt(facts, day) then Contested else NoPair
    else
      LatestIsLast(facts);
      var day := Latest(facts);
      if CompleteAt(facts, day) then Pair(day, CashAt(facts, day)[0], LiabilitiesAt(facts, day)[0]) else Contested
  }

  lemma LatestIsLast(facts: seq<SecFact>)
    requires Periods(facts) != {}
    ensures |facts| > 0
  {
  }

  lemma {:induction false} LatestIsGreatest(facts: seq<SecFact>)
    requires |facts| > 0
    ensures Latest(facts) in Periods(facts) && forall f <- facts :: f.periodEnd <= Latest(facts)
  {
    if |facts| > 1 {
      var front := facts[..|facts| - 1];
      assert facts == front + [facts[|facts| - 1]];
      LatestIsGreatest(front);
      var f :| f in front && f.periodEnd == Latest(front);
      assert f in facts && facts[|facts| - 1] in facts;
    } else {
      assert facts[0] in facts;
    }
  }

  // ----- the selection loops -----

  function At(facts: seq<SecFact>, day: Day): seq<SecFact> { Keep(facts, Dated(day)) }

  function CashOf(facts: seq<SecFact>): seq<SecFact> { Keep(facts, CashSide()) }

  function LiabilitiesOf(facts: seq<SecFact>): seq<SecFact> { Keep(facts, LiabilitiesSide()) }

  lemma SidesOfPeriod(facts: seq<SecFact>, day: Day)
    ensures CashOf(At(facts, day)) == CashAt(facts, day)
    ensures LiabilitiesOf(At(facts, day)) == LiabilitiesAt(facts, day)
  {
    KeepKept(facts, Dated(day), CashSide(), DatedCash(day));
    KeepKept(facts, Dated(day), LiabilitiesSide(), DatedLiabilities(day));
  }

  ghost predicate Grouped(groups: map<Day, seq<SecFact>>, facts: seq<SecFact>) {
    groups.Keys == Periods(facts) && forall day <- groups :: groups[day] == At(facts, day)
  }

  lemma PeriodsSnoc(facts: seq<SecFact>, last: SecFact)
    ensures Periods(facts + [last]) == Periods(facts) + {last.periodEnd}
  {
    forall day ensures day in Periods(facts + [last]) <==> day in Periods(facts) || day == last.periodEnd {
      if day in Periods(facts) { var f :| f in facts && f.periodEnd == day; assert f in facts + [last]; }
      if day == last.periodEnd { assert last in facts + [last]; }
    }
  }

  lemma GroupGrows(groups: map<Day, seq<SecFact>>, facts: seq<SecFact>, last: SecFact, group: seq<SecFact>)
    requires Grouped(groups, facts) && group == At(facts, last.periodEnd) + [last]
    ensures Grouped(groups[last.periodEnd := group], facts + [last])
  {
    PeriodsSnoc(facts, last);
    forall day | day in groups[last.periodEnd := group]
      ensures groups[last.periodEnd := group][day] == At(facts + [last], day)
    {
      KeepSnoc(facts, last, Dated(day));
    }
  }

  lemma NothingAt(facts: seq<SecFact>, day: Day)
    requires day !in Periods(facts)
    ensures At(facts, day) == []
  {
    forall f | f in facts ensures !Dated(day)(f) { assert f.periodEnd in Periods(facts); }
    KeepNone(facts, Dated(day));
  }

  function AddFact(groups: map<Day, seq<SecFact>>, f: SecFact): map<Day, seq<SecFact>> {
    groups[f.periodEnd := (if f.periodEnd in groups then groups[f.periodEnd] else []) + [f]]
  }

  lemma AddedFact(groups: map<Day, seq<SecFact>>, facts: seq<SecFact>, i: nat)
    requires i < |facts| && Grouped(groups, facts[..i])
    ensures Grouped(AddFact(groups, facts[i]), facts[..i + 1])
  {
    var f := facts[i];
    if f.periodEnd !in groups { NothingAt(facts[..i], f.periodEnd); }
    GroupGrows(groups, facts[..i], f, At(facts[..i], f.periodEnd) + [f]);
    assert facts[..i + 1] == facts[..i] + [f];
  }

  method GroupByPeriod(facts: seq<SecFact>) returns (groups: map<Day, seq<SecFact>>)
    ensures Grouped(groups, facts)
  {
    groups := map[];
    for i := 0 to |facts|
      invariant Grouped(groups, facts[..i])
    {
      AddedFact(groups, facts, i);
      groups := AddFact(groups, facts[i]);
    }
    assert facts[..|facts|] == facts;
  }

  function PairAt(facts: seq<SecFact>, day: Day): (SecFact, SecFact)
    requires CompleteAt(facts, day)
  {
    (CashAt(facts, day)[0], LiabilitiesAt(facts, day)[0])
  }

  type Pairs = map<Day, (SecFact, SecFact)>

  /** Among the visited periods, the complete ones are paired and the contested ones collected. */
  ghost predicate Sorted(complete: Pairs, contested: set<Day>, facts: seq<SecFact>, visited: set<Day>) {
    && (forall day <- visited :: CompleteAt(facts, day) <==> day in complete)
    && (forall day <- complete :: day in visited && CompleteAt(facts, day) && complete[day] == PairAt(facts, day))
    && (forall day :: day in contested <==> day in visited && ContestedAt(facts, day))
  }

  /** What one visited period, with its cash and liabilities facts, adds. */
  function Visit(complete: Pairs, contested: set<Day>, day: Day, cash: seq<SecFact>, liabilities: seq<SecFact>):
    (Pairs, set<Day>)
  {
    if |cash| == 1 && |liabilities| == 1 then (complete[day := (cash[0], liabilities[0])], contested)
    else if cash != [] && liabilities != [] then (complete, contested + {day})
    else (complete, contested)
  }

  lemma VisitKeeps(complete: Pairs, contested: set<Day>, facts: seq<SecFact>, visited: set<Day>, day: Day)
    requires Sorted(complete, contested, facts, visited) && day !in visited
    ensures var (c, d) := Visit(complete, contested, day, CashAt(facts, day), LiabilitiesAt(facts, day));
      Sorted(c, d, facts, visited + {day})
  {
  }

  lemma VisitedPeriod(complete: Pairs, contested: set<Day>, groups: map<Day, seq<SecFact>>, facts: seq<SecFact>,
                      rest: set<Day>, day: Day)
    requires Grouped(groups, facts) && rest <= groups.Keys && day in rest
    requires Sorted(complete, contested, facts, groups.Keys - rest)
    ensures var (c, d) := Visit(complete, contested, day, CashOf(groups[day]), LiabilitiesOf(groups[day]));
      Sorted(c, d, facts, groups.Keys - (rest - {day}))
  {
    SidesOfPeriod(facts, day);
    VisitKeeps(complete, contested, facts, groups.Keys - rest, day);
    assert groups.Keys - (rest - {day}) == (groups.Keys - rest) + {day};
  }

  lemma NothingVisited(facts: seq<SecFact>)
    ensures Sorted(map[], {}, facts, {})
  {
  }

  /** Visits the periods in any order and keeps the complete pairs and the contested periods. */
  method VisitPeriods(groups: map<Day, seq<SecFact>>, ghost facts: seq<SecFact>)
    returns (complete: Pairs, contested: set<Day>)
    requires Grouped(groups, facts)
    ensures Sorted(complete, contested, facts, groups.Keys)
  {
    complete, contested := map[], {};
    var rest := groups.Keys;
    NothingVisited(facts);
    assert groups.Keys - rest == {};
    while rest != {}
      invariant rest <= groups.Keys
      invariant Sorted(complete, contested, facts, groups.Keys - rest)
      decreases |rest|
    {
      var day :| day in rest;
      VisitedPeriod(complete, contested, groups, facts, rest, day);
      var next := Visit(complete, contested, day, CashOf(groups[day]), LiabilitiesOf(groups[day]));
      complete, contested, rest := next.0, next.1, rest - {day};
    }
    assert groups.Keys - rest == groups.Keys;
  }

  method LatestPeriod(groups: map<Day, seq<SecFact>>, ghost facts: seq<SecFact>) returns (latest: Day)
    requires Grouped(groups, facts) && |facts| > 0
    ensures latest == Latest(facts)
  {
    LatestIsGreatest(facts);
    latest :| latest in groups && forall day <- groups :: day <= latest;
  }

  /** The selection the loops arrive at is the order-free one. */
  method SelectPair(facts: seq<SecFact>) returns (selection: Selection)
    ensures selection == PairSelection(facts)
  {
    var groups := GroupByPeriod(facts);
    var complete, contested := VisitPeriods(groups, facts);
    if complete.Keys == {} {
      NoneComplete(facts, complete, contested);
      return if contested != {} then Contested else NoPair;
    }
    SomeComplete(facts, complete, contested);
    var latest := LatestPeriod(groups, facts);
    LatestIsGreatest(facts);
    if latest in complete { return Pair(latest, complete[latest].0, complete[latest].1); }
    return Contested;
  }

  lemma NoneComplete(facts: seq<SecFact>, complete: Pairs, contested: set<Day>)
    requires Sorted(complete, contested, facts, Periods(facts)) && complete.Keys == {}
    ensures PairSelection(facts) == if contested != {} then Contested else NoPair
  {
    forall day | day in Periods(facts) ensures !CompleteAt(facts, day) { assert day !in complete; }
    if contested != {} {
      var day := SomeMember(contested);
      assert day in Periods(facts) && ContestedAt(facts, day);
    }
  }

  lemma SomeComplete(facts: seq<SecFact>, complete: Pairs, contested: set<Day>)
    requires Sorted(complete, contested, facts, Periods(facts)) && complete.Keys != {}
    ensures |facts| > 0 && exists day <- Periods(facts) :: CompleteAt(facts, day)
  {
    var day := SomeMember(complete.Keys);
    assert day in Periods(facts) && CompleteAt(facts, day);
  }

  // ----- the producer -----

  const USD := "USD"

  function LiquidityBody(kind: Kind, value: real, day: Day, cash: SecFact, liabilities: SecFact): Body {
    Body(cash.cik, kind, value, CurrencyUnit, Some(USD), LiquidityScope(cash.accession, day), day,
         Larger(cash.availableAt, liabilities.availableAt), Larger(cash.retrievedAt, liabilities.retrievedAt),
         CompanyFacts(cash.accession, day), cash.hash, [XbrlFact(cash.recordId), XbrlFact(liabilities.recordId)])
  }

  function LiquidityClaim(day: Day, cash: SecFact, liabilities: SecFact, manifestHash: Hash, name: EvidenceId -> nat): Claim {
    ClaimFor(cash.cik, CashAtLeastCurrentLiabilities, true, LiquidityScope(cash.accession, day), day,
             Larger(cash.availableAt, liabilities.availableAt), Larger(cash.retrievedAt, liabilities.retrievedAt),
             XbrlLiquidity(cash.accession), manifestHash, name)
  }

  /** The request for one pair; both facts must come from one source and be valid records. */
  function PairRequest(day: Day, cash: SecFact, liabilities: SecFact, manifestHash: Hash, cutoff: Instant,
                       identify: Identify, name: EvidenceId -> nat): Result<Request, ProducerError> {
    var a := ToFact(LiquidityBody(Cash, cash.value, day, cash, liabilities), identify);
    var b := ToFact(LiquidityBody(CurrentLiabilities, liabilities.value, day, cash, liabilities), identify);
    if cash.hash != liabilities.hash then Err(DifferentSources)
    else if !a.Valid() || !b.Valid() then Err(InvalidFact)
    else BuildRequest(LiquidityClaim(day, cash, liabilities, manifestHash, name), [a, b], cutoff, RequiredFactsComplete)
  }

  /** The facts of this filing that count: dollar instants of the three tags, known by the cutoff. */
  function Applicable(facts: seq<SecFact>, issuer: Cik, accession: Accession, form: string, cutoff: Instant): (same: seq<SecFact>)
    ensures forall f <- same :: f.Applies(issuer, accession, form, cutoff)
  {
    Keep(facts, (f: SecFact) => f.Applies(issuer, accession, form, cutoff))
  }

  function XbrlDecision(facts: seq<SecFact>, issuer: Cik, accession: Accession, form: string, cutoff: Instant,
                        manifestHash: Hash, identify: Identify, name: EvidenceId -> nat): Result<Decision, ProducerError> {
    DecisionFor(PairSelection(Applicable(facts, issuer, accession, form, cutoff)), accession, cutoff, manifestHash,
                identify, name)
  }

  function DecisionFor(selection: Selection, accession: Accession, cutoff: Instant, manifestHash: Hash, identify: Identify,
                       name: EvidenceId -> nat): Result<Decision, ProducerError> {
    var record := XbrlLiquidity(accession);
    match selection
    case NoPair => Close(Decision(XbrlLiquiditySource, record, manifestHash, NoRelevantFacts, []))
    case Contested => Close(Decision(XbrlLiquiditySource, record, manifestHash, AmbiguousContext, []))
    case Pair(day, cash, liabilities) =>
      match PairRequest(day, cash, liabilities, manifestHash, cutoff, identify, name)
      case Err(e) => Err(e)
      case Ok(request) => Close(Decision(XbrlLiquiditySource, record, manifestHash, EligibleComplete, [request]))
  }

  /** Two different records, retrieved no earlier than they were available. */
  predicate PairDated(cash: SecFact, liabilities: SecFact) {
    && cash.recordId != liabilities.recordId
    && Larger(cash.availableAt, liabilities.availableAt) <= Larger(cash.retrievedAt, liabilities.retrievedAt)
  }

  predicate PairUsable(cash: SecFact, liabilities: SecFact) {
    cash.hash == liabilities.hash && cash.value >= 0.0 && liabilities.value >= 0.0 && PairDated(cash, liabilities)
  }

  lemma PairParts(kind: Kind, value: real, day: Day, cash: SecFact, liabilities: SecFact, manifestHash: Hash,
                  identify: Identify, name: EvidenceId -> nat)
    requires kind.Cash? || kind.CurrentLiabilities?
    ensures var fact := ToFact(LiquidityBody(kind, value, day, cash, liabilities), identify);
      fact.Valid() <==> value >= 0.0 && PairDated(cash, liabilities)
    ensures var fact := ToFact(LiquidityBody(kind, value, day, cash, liabilities), identify);
      var claim := LiquidityClaim(day, cash, liabilities, manifestHash, name);
      fact.Valid() ==> claim.Valid() && Companion(fact, claim) && Apart(claim, fact)
  {
    var fact := ToFact(LiquidityBody(kind, value, day, cash, liabilities), identify);
    assert fact.evidence[0] == XbrlFact(cash.recordId) && fact.evidence[1] == XbrlFact(liabilities.recordId);
  }

  /** A pair becomes a request exactly when it is usable; the service then takes it exactly when it was
      retrieved by the cutoff and its period has ended by then. */
  lemma PairRequestAgrees(day: Day, cash: SecFact, liabilities: SecFact, manifestHash: Hash, cutoff: Instant,
                          identify: Identify, name: EvidenceId -> nat)
    requires KindsApart(identify)
    ensures var r := PairRequest(day, cash, liabilities, manifestHash, cutoff, identify, name);
      && (r.Ok? <==> PairUsable(cash, liabilities))
      && (r.Ok? ==> r.value.cutoff == cutoff && r.value.claim.asOf == day && AcceptedInTime(r.value))
      && (r.Ok? ==> r.value.claim.retrievedAt == Larger(cash.retrievedAt, liabilities.retrievedAt))
  {
    var a := ToFact(LiquidityBody(Cash, cash.value, day, cash, liabilities), identify);
    var b := ToFact(LiquidityBody(CurrentLiabilities, liabilities.value, day, cash, liabilities), identify);
    var claim := LiquidityClaim(day, cash, liabilities, manifestHash, name);
    PairParts(Cash, cash.value, day, cash, liabilities, manifestHash, identify, name);
    PairParts(CurrentLiabilities, liabilities.value, day, cash, liabilities, manifestHash, identify, name);
    if PairUsable(cash, liabilities) {
      PairTwins(day, cash, liabilities, identify);
      RequestIsBuilt(claim, [a, b], cutoff, RequiredFactsComplete);
      TwoFactsAccepted(claim, a, b, cutoff);
    }
  }

  lemma PairTwins(day: Day, cash: SecFact, liabilities: SecFact, identify: Identify)
    requires KindsApart(identify)
    ensures Twins(ToFact(LiquidityBody(Cash, cash.value, day, cash, liabilities), identify),
                  ToFact(LiquidityBody(CurrentLiabilities, liabilities.value, day, cash, liabilities), identify))
  {
  }

  lemma SelectedApply(facts: seq<SecFact>)
    requires PairSelection(facts).Pair?
    ensures var s := PairSelection(facts);
      s.cash in facts && s.liabilities in facts && s.day == Latest(facts) && CompleteAt(facts, s.day)
  {
    var s := PairSelection(facts);
    assert s.cash in CashAt(facts, s.day) && s.liabilities in LiabilitiesAt(facts, s.day);
  }

  lemma SelectedInTime(facts: seq<SecFact>, issuer: Cik, accession: Accession, form: string, cutoff: Instant)
    ensures var same := Applicable(facts, issuer, accession, form, cutoff); var s := PairSelection(same);
      s.Pair? ==> Larger(s.cash.retrievedAt, s.liabilities.retrievedAt) <= cutoff
  {
    var same := Applicable(facts, issuer, accession, form, cutoff);
    if PairSelection(same).Pair? { SelectedApply(same); }
  }

  /** The request speaks about the day, and the service takes it exactly when that day has come. */
  predicate TakenFrom(request: Request, day: Day, cutoff: Instant) {
    request.claim.asOf == day && (Reevaluate(request).Ok? <==> day <= DateOf(cutoff))
  }

  /** The decision over one selection: an unusable pair is refused, a usable one requested for its day. */
  lemma DecisionAgrees(selection: Selection, accession: Accession, cutoff: Instant, manifestHash: Hash, identify: Identify,
                       name: EvidenceId -> nat)
    requires KindsApart(identify)
    requires selection.Pair? ==> Larger(selection.cash.retrievedAt, selection.liabilities.retrievedAt) <= cutoff
    ensures var r := DecisionFor(selection, accession, cutoff, manifestHash, identify, name);
      && (r.Err? <==> selection.Pair? && !PairUsable(selection.cash, selection.liabilities))
      && (r.Ok? ==> (r.value.requests != [] <==> selection.Pair?))
      && (r.Ok? ==> forall request <- r.value.requests :: TakenFrom(request, selection.day, cutoff))
  {
    if selection.Pair? {
      PairRequestAgrees(selection.day, selection.cash, selection.liabilities, manifestHash, cutoff, identify, name);
    }
  }

  /** The producer makes a request exactly when the latest period with any applicable fact reports cash and
      current liabilities once each and the pair is usable; the request speaks about that period, and the
      service takes it exactly when the period has ended by the cutoff. */
  lemma XbrlProducerAgrees(facts: seq<SecFact>, issuer: Cik, accession: Accession, form: string, cutoff: Instant,
                           manifestHash: Hash, identify: Identify, name: EvidenceId -> nat)
    requires KindsApart(identify)
    ensures var same := Applicable(facts, issuer, accession, form, cutoff); var s := PairSelection(same);
      var r := XbrlDecision(facts, issuer, accession, form, cutoff, manifestHash, identify, name);
      && (r.Err? <==> s.Pair? && !PairUsable(s.cash, s.liabilities))
      && (r.Ok? ==> (r.value.requests != [] <==> |same| > 0 && CompleteAt(same, Latest(same))))
      && (r.Ok? ==> forall request <- r.value.requests :: TakenFrom(request, Latest(same), cutoff))
  {
    var same := Applicable(facts, issuer, accession, form, cutoff);
    CompleteLatest(same);
    SelectedInTime(facts, issuer, accession, form, cutoff);
    DecisionAgrees(PairSelection(same), accession, cutoff, manifestHash, identify, name);
    if PairSelection(same).Pair? { SelectedApply(same); }
  }

  lemma CompleteLatest(facts: seq<SecFact>)
    ensures PairSelection(facts).Pair? <==> |facts| > 0 && CompleteAt(facts, Latest(facts))
  {
    if |facts| > 0 { LatestIsGreatest(facts); }
  }

  /** Cash and current liabilities of a period that ends on the day after the cutoff. */
  const EARLY_CASH := SecFact(1, 1, 1, "10-Q", true, None, 1, CashTag, 200.0, 0, 0, 1)
  const EARLY_LIABILITIES := EARLY_CASH.(recordId := 2, tag := LiabilitiesTag, value := 100.0)

  /** The producer makes a request of the pair, and the service refuses that request. */
  lemma EarlyPeriodIsRefused(manifestHash: Hash, identify: Identify, name: EvidenceId -> nat)
    requires KindsApart(identify)
    ensures var r := XbrlDecision([EARLY_CASH, EARLY_LIABILITIES], 1, 1, "10-Q", 0, manifestHash, identify, name);
      r.Ok? && |r.value.requests| == 1 && Reevaluate(r.value.requests[0]).Err?
  {
    var facts := [EARLY_CASH, EARLY_LIABILITIES];
    EarlyPairIsComplete();
    KeepAll(facts, (f: SecFact) => f.Applies(1, 1, "10-Q", 0));
    XbrlProducerAgrees(facts, 1, 1, "10-Q", 0, manifestHash, identify, name);
    var r := XbrlDecision(facts, 1, 1, "10-Q", 0, manifestHash, identify, name);
    assert r.value.requests[0] in r.value.requests;
    assert TakenFrom(r.value.requests[0], 1, 0);
  }

  lemma EarlyPairIsComplete()
    ensures var facts := [EARLY_CASH, EARLY_LIABILITIES];
      Latest(facts) == 1 && CompleteAt(facts, 1)
      && PairSelection(facts) == Pair(1, EARLY_CASH, EARLY_LIABILITIES)
  {
    var facts := [EARLY_CASH, EARLY_LIABILITIES];
    assert facts[..1] == [EARLY_CASH];
    assert Keep([EARLY_CASH], DatedCash(1)) == [EARLY_CASH] && Keep([EARLY_CASH], DatedLiabilities(1)) == [];
    assert CashAt(facts, 1) == [EARLY_CASH] && LiabilitiesAt(facts, 1) == [EARLY_LIABILITIES];
    assert EARLY_CASH in facts && EARLY_CASH.periodEnd in Periods(facts);
  }
}
