/** Deterministic checks of narrowly stated claims against exact facts. */
module Contradictions {
  import opened Calendar
  import opened Outcomes
  import opened Filtering
  import opened Ordering

  type Hash = nat
  type Accession = nat
  type Cik = nat

  const MAXIMUM_FACTS: nat := 8
  const MAXIMUM_EVIDENCE: nat := 16

  datatype Family = Liquidity | Dilution | Insider

  datatype Predicate = CashAtLeastCurrentLiabilities | DilutionExposurePresent | NetInsiderAcquisition

  datatype Disposition = Supported | Conflicted | Insufficient | NotApplicable

  datatype Reason = FactsSupport | FactsConflict | FactsMissing | PeriodsIncomparable | PlannedSaleOnly

  /** The closed fact kinds, in the order of their names. */
  datatype Kind = Cash | CurrentLiabilities | InstrumentCount | PlannedSale | Acquired | Disposed | Issuable | Registered
    | SharesCurrent | SharesPrior

  datatype Unit = CurrencyUnit | SharesUnit | CountUnit

  /** The identifiers the code formats as text, kept as what they are formatted from. */
  datatype Scope = FinancingScope(accession: Accession) | PlannedSaleScope(accession: Accession)
    | SectionSixteenScope(accession: Accession, day: Day, derivative: bool) | LiquidityScope(accession: Accession, day: Day)

  datatype SourceRecord = Filing(accession: Accession) | CompanyFacts(accession: Accession, day: Day)
    | FinancingRouting(accession: Accession) | OwnershipRouting(accession: Accession) | XbrlLiquidity(accession: Accession)

  datatype EvidenceId = Extracted(id: nat) | OwnershipSource(accession: Accession, hash: Hash) | XbrlFact(recordId: nat)
    | ClaimEvidence(issuer: Cik, subject: Predicate, assertedTruth: bool, scope: Scope, asOf: Day,
                    sourceRecord: SourceRecord, sourceHash: Hash)

  function FamilyOf(p: Predicate): Family {
    match p
    case CashAtLeastCurrentLiabilities => Liquidity
    case DilutionExposurePresent => Dilution
    case NetInsiderAcquisition => Insider
  }

  function UnitOf(kind: Kind): Unit {
    if kind.Cash? || kind.CurrentLiabilities? then CurrencyUnit
    else if kind.InstrumentCount? then CountUnit
    else SharesUnit
  }

  predicate Relevant(p: Predicate, kind: Kind) {
    match p
    case CashAtLeastCurrentLiabilities => kind.Cash? || kind.CurrentLiabilities?
    case DilutionExposurePresent =>
      kind.SharesPrior? || kind.SharesCurrent? || kind.Registered? || kind.Issuable? || kind.InstrumentCount?
    case NetInsiderAcquisition => kind.Acquired? || kind.Disposed? || kind.PlannedSale?
  }

  function Rank(kind: Kind): nat {
    match kind
    case Cash => 0 case CurrentLiabilities => 1 case InstrumentCount => 2 case PlannedSale => 3 case Acquired => 4
    case Disposed => 5 case Issuable => 6 case Registered => 7 case SharesCurrent => 8 case SharesPrior => 9
  }

  predicate ValidEvidence(ids: seq<EvidenceId>) { 1 <= |ids| <= MAXIMUM_EVIDENCE && NoDuplicates(ids) }

  datatype Claim = Claim(
    claimId: nat,
    issuer: Cik,
    family: Family,
    subject: Predicate,
    assertedTruth: bool,
    scope: Scope,
    asOf: Day,
    availableAt: Instant,
    retrievedAt: Instant,
    sourceRecord: SourceRecord,
    sourceHash: Hash,
    evidence: seq<EvidenceId>)
  {
    predicate Valid() {
      family == FamilyOf(subject) && availableAt <= retrievedAt && ValidEvidence(evidence)
    }

    predicate KnownBy(cutoff: Instant) {
      availableAt <= cutoff && retrievedAt <= cutoff && asOf <= DateOf(cutoff)
    }

    function Flipped(): Claim { this.(assertedTruth := !assertedTruth) }
  }

  datatype Fact = Fact(
    factId: nat,
    issuer: Cik,
    kind: Kind,
    value: real,
    unit: Unit,
    currency: Option<string>,
    scope: Scope,
    asOf: Day,
    availableAt: Instant,
    retrievedAt: Instant,
    sourceRecord: SourceRecord,
    sourceHash: Hash,
    evidence: seq<EvidenceId>)
  {
    predicate Valid() {
      && value >= 0.0 && unit == UnitOf(kind) && (unit.CurrencyUnit? <==> currency.Some?)
      && availableAt <= retrievedAt && ValidEvidence(evidence)
    }
  }

  datatype Evaluation = Evaluation(
    disposition: Disposition, observed: Option<bool>, reason: Reason, consumed: seq<nat>)

  datatype CheckError = CurrencyMismatch | InvalidReceipt

  // ----- evaluation -----

  /** The fact a kind is looked up as: the last one of that kind. */
  function ByKind(facts: seq<Fact>, kind: Kind): (found: Option<Fact>)
    ensures found.Some? ==> found.value in facts && found.value.kind == kind
  {
    if |facts| == 0 then None
    else if facts[|facts| - 1].kind == kind then Some(facts[|facts| - 1])
    else ByKind(facts[..|facts| - 1], kind)
  }

  function IdsOf(facts: seq<Fact>): (ids: seq<nat>)
    ensures |ids| == |facts|
  {
    seq(|facts|, i requires 0 <= i < |facts| => facts[i].factId)
  }

  function Missing(facts: seq<Fact>): Evaluation { Evaluation(Insufficient, None, FactsMissing, IdsOf(facts)) }

  function Incomparable(facts: seq<Fact>): Evaluation { Evaluation(Insufficient, None, PeriodsIncomparable, IdsOf(facts)) }

  /** What the facts say, before the claim is looked at: a truth value with the facts consumed, or why
      there is none. */
  datatype Finding = Observed(truth: bool, consumed: seq<nat>) | Open(evaluation: Evaluation)

  function Optional(fact: Option<Fact>): seq<Fact> { if fact.Some? then [fact.value] else [] }

  function LiquidityFinding(facts: seq<Fact>): Result<Finding, CheckError> {
    var cash, liabilities := ByKind(facts, Cash), ByKind(facts, CurrentLiabilities);
    if cash.None? || liabilities.None? then Ok(Open(Missing(facts)))
    else if cash.value.asOf != liabilities.value.asOf then Ok(Open(Incomparable(facts)))
    else if cash.value.currency != liabilities.value.currency then Err(CurrencyMismatch)
    else Ok(Observed(cash.value.value >= liabilities.value.value, [cash.value.factId, liabilities.value.factId]))
  }

  predicate IsPositive(fact: Option<Fact>) { fact.Some? && fact.value.value > 0.0 }

  function DilutionFinding(facts: seq<Fact>): Finding {
    var prior, current := ByKind(facts, SharesPrior), ByKind(facts, SharesCurrent);
    var issuable, count := ByKind(facts, Issuable), ByKind(facts, InstrumentCount);
    var direct := Optional(issuable) + Optional(count);
    if prior.Some? && current.Some? && prior.value.asOf >= current.value.asOf then Open(Incomparable(facts))
    else if IsPositive(issuable) || IsPositive(count) then Observed(true, IdsOf(direct))
    else if prior.Some? && current.Some? then
      if current.value.value > prior.value.value
      then Observed(true, [prior.value.factId, current.value.factId] + IdsOf(direct))
      else if count.None? || count.value.value != 0.0 || IsPositive(ByKind(facts, Registered)) then Open(Missing(facts))
      else Observed(false, [prior.value.factId, current.value.factId, count.value.factId])
    else Open(Missing(facts))
  }

  function InsiderFinding(facts: seq<Fact>): Finding {
    var acquired, disposed := ByKind(facts, Acquired), ByKind(facts, Disposed);
    var planned := ByKind(facts, PlannedSale);
    if acquired.None? && disposed.None? && planned.Some? then
      Open(Evaluation(NotApplicable, None, PlannedSaleOnly, [planned.value.factId]))
    else if acquired.None? || disposed.None? then Open(Missing(facts))
    else if acquired.value.asOf != disposed.value.asOf then Open(Incomparable(facts))
    else Observed(acquired.value.value > disposed.value.value, [acquired.value.factId, disposed.value.factId])
  }

  function FindingOf(p: Predicate, facts: seq<Fact>): Result<Finding, CheckError> {
    match p
    case CashAtLeastCurrentLiabilities => LiquidityFinding(facts)
    case DilutionExposurePresent => Ok(DilutionFinding(facts))
    case NetInsiderAcquisition => Ok(InsiderFinding(facts))
  }

  function Judge(assertedTruth: bool, finding: Finding): Evaluation {
    match finding
    case Open(evaluation) => evaluation
    case Observed(truth, consumed) =>
      if truth == assertedTruth then Evaluation(Supported, Some(truth), FactsSupport, consumed)
      else Evaluation(Conflicted, Some(truth), FactsConflict, consumed)
  }

  function Evaluate(claim: Claim, facts: seq<Fact>): Result<Evaluation, CheckError> {
    match FindingOf(claim.subject, facts)
    case Err(e) => Err(e)
    case Ok(finding) => Ok(Judge(claim.assertedTruth, finding))
  }

  // ----- the receipt and its validator -----

  /** Deterministic fact order: by kind name, then by identifier. */
  predicate FactLeq(a: Fact, b: Fact) {
    Rank(a.kind) < Rank(b.kind) || (Rank(a.kind) == Rank(b.kind) && a.factId <= b.factId)
  }

  function KindOf(fact: Fact): Kind { fact.kind }
  function FactIdOf(fact: Fact): nat { fact.factId }

  predicate SameSource(a: Fact, b: Fact) {
    a.sourceRecord == b.sourceRecord ==>
      a.sourceHash == b.sourceHash && a.availableAt == b.availableAt && a.retrievedAt == b.retrievedAt
  }

  predicate SameEvidence(a: Fact, b: Fact, ids: seq<EvidenceId>) {
    forall id <- a.evidence :: id in ids ==> a.sourceRecord == b.sourceRecord && a.sourceHash == b.sourceHash
  }

  /** Two facts do not tell different stories about one source record or one piece of evidence. */
  predicate Agree(a: Fact, b: Fact) { SameSource(a, b) && SameEvidence(a, b, b.evidence) }

  predicate Consistent(a: Fact, b: Fact) {
    Agree(a, b) && (a.currency.Some? && b.currency.Some? ==> a.currency == b.currency)
  }

  predicate FactAdmitted(fact: Fact, claim: Claim, cutoff: Instant) {
    && fact.Valid()
    && fact.issuer == claim.issuer && fact.scope == claim.scope
    && fact.availableAt <= cutoff && fact.retrievedAt <= cutoff && fact.asOf <= claim.asOf
  }

  predicate FactsAdmitted(facts: seq<Fact>, claim: Claim, cutoff: Instant) {
    && |facts| <= MAXIMUM_FACTS
    && DistinctKeys(facts, KindOf) && DistinctKeys(facts, FactIdOf)
    && (forall fact <- facts :: FactAdmitted(fact, claim, cutoff))
    && (forall a <- facts, b <- facts :: Consistent(a, b))
  }

  datatype Receipt = Receipt(claim: Claim, facts: seq<Fact>, cutoff: Instant, evaluation: Evaluation)
  {
    /** The record's validator: everything is known by the cutoff and the result recomputes. */
    predicate Valid() {
      && claim.Valid() && claim.KnownBy(cutoff)
      && SortedBy(facts, FactLeq)
      && FactsAdmitted(facts, claim, cutoff)
      && |evaluation.consumed| <= MAXIMUM_FACTS
      && Evaluate(claim, facts) == Ok(evaluation)
    }
  }

  function RelevantTo(p: Predicate): Fact -> bool { (fact: Fact) => Relevant(p, fact.kind) }

  /** The facts a predicate looks at. */
  function Filter(facts: seq<Fact>, p: Predicate): (kept: seq<Fact>)
    ensures |kept| <= |facts|
    ensures forall fact :: fact in kept <==> fact in facts && Relevant(p, fact.kind)
  {
    Keep(facts, RelevantTo(p))
  }

  function RelevantFacts(claim: Claim, facts: seq<Fact>): seq<Fact> { Sort(Filter(facts, claim.subject), FactLeq) }

  function Check(claim: Claim, facts: seq<Fact>, cutoff: Instant): Result<Receipt, CheckError> {
    var relevant := RelevantFacts(claim, facts);
    match Evaluate(claim, relevant)
    case Err(e) => Err(e)
    case Ok(evaluation) =>
      var receipt := Receipt(claim, relevant, cutoff, evaluation);
      if receipt.Valid() then Ok(receipt) else Err(InvalidReceipt)
  }

  // ----- re-checking and flipping -----

  lemma FactOrder()
    ensures TotalPreorder(FactLeq)
  {
  }

  lemma FilterIdentity(facts: seq<Fact>, p: Predicate)
    requires forall fact <- facts :: Relevant(p, fact.kind)
    ensures Filter(facts, p) == facts
  {
    KeepAll(facts, RelevantTo(p));
  }

  lemma RelevantFactsFacts(claim: Claim, facts: seq<Fact>)
    ensures SortedBy(RelevantFacts(claim, facts), FactLeq)
    ensures forall fact :: fact in RelevantFacts(claim, facts) <==> fact in facts && Relevant(claim.subject, fact.kind)
    ensures RelevantFacts(claim, RelevantFacts(claim, facts)) == RelevantFacts(claim, facts)
  {
    FactOrder();
    var kept := Filter(facts, claim.subject);
    SortSorts(kept, FactLeq);
    MembersOfMultiset(kept, Sort(kept, FactLeq));
    FilterIdentity(Sort(kept, FactLeq), claim.subject);
    SortIdentity(Sort(kept, FactLeq), FactLeq);
  }

  /** Re-checking a receipt's own claim and facts at its cutoff reproduces it. */
  lemma RecheckReproduces(claim: Claim, facts: seq<Fact>, cutoff: Instant)
    requires Check(claim, facts, cutoff).Ok?
    ensures var receipt := Check(claim, facts, cutoff).value;
      receipt.Valid() && Check(receipt.claim, receipt.facts, receipt.cutoff) == Ok(receipt)
  {
    RelevantFactsFacts(claim, facts);
  }

  function FlippedEvaluation(e: Evaluation): Evaluation {
    match e.disposition
    case Supported => e.(disposition := Conflicted, reason := FactsConflict)
    case Conflicted => e.(disposition := Supported, reason := FactsSupport)
    case _ => e
  }

  lemma FlippedJudgement(truth: bool, p: Predicate, facts: seq<Fact>)
    requires FindingOf(p, facts).Ok?
    ensures Judge(!truth, FindingOf(p, facts).value) == FlippedEvaluation(Judge(truth, FindingOf(p, facts).value))
    ensures |Judge(!truth, FindingOf(p, facts).value).consumed| == |Judge(truth, FindingOf(p, facts).value).consumed|
  {
  }

  lemma AdmissionIgnoresAssertion(claim: Claim, facts: seq<Fact>, cutoff: Instant)
    ensures FactsAdmitted(facts, claim.Flipped(), cutoff) <==> FactsAdmitted(facts, claim, cutoff)
    ensures RelevantFacts(claim.Flipped(), facts) == RelevantFacts(claim, facts)
  {
    forall fact ensures FactAdmitted(fact, claim.Flipped(), cutoff) <==> FactAdmitted(fact, claim, cutoff) {}
  }

  /** Asserting the opposite only swaps supported and conflicted: the same facts are consumed, the same
      truth is observed, and the check fails in the same cases. */
  lemma FlippingSwapsSupport(claim: Claim, facts: seq<Fact>, cutoff: Instant)
    ensures Check(claim.Flipped(), facts, cutoff) ==
      match Check(claim, facts, cutoff)
      case Err(e) => Err(e)
      case Ok(receipt) => Ok(receipt.(claim := claim.Flipped(), evaluation := FlippedEvaluation(receipt.evaluation)))
  {
    var relevant := RelevantFacts(claim, facts);
    AdmissionIgnoresAssertion(claim, facts, cutoff);
    AdmissionIgnoresAssertion(claim, relevant, cutoff);
    if FindingOf(claim.subject, relevant).Ok? { FlippedJudgement(claim.assertedTruth, claim.subject, relevant); }
  }

  // ----- exactly when a check succeeds -----

  predicate AllConsumed(ids: seq<nat>, facts: seq<Fact>) { |ids| <= 8 && forall id <- ids :: id in IdsOf(facts) }

  lemma {:induction false} KindIsListed(facts: seq<Fact>, kind: Kind)
    ensures ByKind(facts, kind).Some? ==> ByKind(facts, kind).value.factId in IdsOf(facts)
  {
    if ByKind(facts, kind).Some? {
      var i :| 0 <= i < |facts| && facts[i] == ByKind(facts, kind).value;
      assert IdsOf(facts)[i] == facts[i].factId;
    }
  }

  lemma IdsListed(few: seq<Fact>, facts: seq<Fact>)
    requires forall fact <- few :: fact in facts
    ensures forall id <- IdsOf(few) :: id in IdsOf(facts)
  {
    forall id | id in IdsOf(few) ensures id in IdsOf(facts) {
      var i :| 0 <= i < |few| && IdsOf(few)[i] == id;
      assert few[i] in facts;
      var j :| 0 <= j < |facts| && facts[j] == few[i];
      assert IdsOf(facts)[j] == id;
    }
  }

  lemma DilutionConsumesFacts(facts: seq<Fact>)
    requires |facts| <= 8
    ensures match DilutionFinding(facts)
      case Observed(_, consumed) => AllConsumed(consumed, facts)
      case Open(evaluation) => AllConsumed(evaluation.consumed, facts)
  {
    KindIsListed(facts, SharesPrior);
    KindIsListed(facts, SharesCurrent);
    KindIsListed(facts, InstrumentCount);
    IdsListed(Optional(ByKind(facts, Issuable)) + Optional(ByKind(facts, InstrumentCount)), facts);
  }

  lemma InsiderConsumesFacts(facts: seq<Fact>)
    requires |facts| <= 8
    ensures match InsiderFinding(facts)
      case Observed(_, consumed) => AllConsumed(consumed, facts)
      case Open(evaluation) => AllConsumed(evaluation.consumed, facts)
  {
    KindIsListed(facts, Acquired);
    KindIsListed(facts, Disposed);
    KindIsListed(facts, PlannedSale);
  }

  /** Whatever is consumed comes from the facts, and there are never more than eight. */
  lemma ConsumedAreFacts(truth: bool, p: Predicate, facts: seq<Fact>)
    requires FindingOf(p, facts).Ok? && |facts| <= 8
    ensures AllConsumed(Judge(truth, FindingOf(p, facts).value).consumed, facts)
  {
    match p
    case CashAtLeastCurrentLiabilities =>
      KindIsListed(facts, Cash);
      KindIsListed(facts, CurrentLiabilities);
    case NetInsiderAcquisition => InsiderConsumesFacts(facts);
    case DilutionExposurePresent => DilutionConsumesFacts(facts);
  }

  lemma AdmittedFactsEvaluate(p: Predicate, facts: seq<Fact>, claim: Claim, cutoff: Instant)
    requires FactsAdmitted(facts, claim, cutoff)
    ensures FindingOf(p, facts).Ok?
  {
    var cash, liabilities := ByKind(facts, Cash), ByKind(facts, CurrentLiabilities);
    if cash.Some? && liabilities.Some? {
      assert Consistent(cash.value, liabilities.value);
      assert FactAdmitted(cash.value, claim, cutoff) && FactAdmitted(liabilities.value, claim, cutoff);
    }
  }

  /** A check succeeds exactly when the claim is a valid record known by the cutoff and its relevant
      facts are admitted: distinct kinds and identifiers, one issuer and scope, known in time, no later
      than the claim, and consistent about sources, evidence and currency. */
  lemma CheckSucceedsIff(claim: Claim, facts: seq<Fact>, cutoff: Instant)
    ensures Check(claim, facts, cutoff).Ok? <==>
      claim.Valid() && claim.KnownBy(cutoff) && FactsAdmitted(RelevantFacts(claim, facts), claim, cutoff)
    ensures Check(claim, facts, cutoff).Ok? ==>
      Check(claim, facts, cutoff).value.facts == RelevantFacts(claim, facts)
      && Evaluate(claim, RelevantFacts(claim, facts)) == Ok(Check(claim, facts, cutoff).value.evaluation)
  {
    var relevant := RelevantFacts(claim, facts);
    RelevantFactsFacts(claim, facts);
    if FactsAdmitted(relevant, claim, cutoff) {
      AdmittedFactsEvaluate(claim.subject, relevant, claim, cutoff);
      ConsumedAreFacts(claim.assertedTruth, claim.subject, relevant);
    }
  }

  lemma AdmissionRearranged(a: seq<Fact>, b: seq<Fact>, claim: Claim, cutoff: Instant)
    requires multiset(a) == multiset(b) && FactsAdmitted(a, claim, cutoff)
    ensures FactsAdmitted(b, claim, cutoff)
  {
    MembersOfMultiset(a, b);
    assert |multiset(a)| == |multiset(b)|;
    RearrangedKeys(a, b, KindOf);
    RearrangedKeys(a, b, FactIdOf);
  }

  lemma SameRelevant(claim: Claim, a: seq<Fact>, b: seq<Fact>, cutoff: Instant)
    requires multiset(a) == multiset(b)
    requires FactsAdmitted(RelevantFacts(claim, a), claim, cutoff)
    ensures RelevantFacts(claim, a) == RelevantFacts(claim, b)
  {
    var x, y := Filter(a, claim.subject), Filter(b, claim.subject);
    KeepRearranged(a, b, RelevantTo(claim.subject));
    AdmissionRearranged(Sort(x, FactLeq), x, claim, cutoff);
    forall f, g | f in x && g in x && FactLeq(f, g) && FactLeq(g, f) ensures f == g {
      SameKeySameElement(x, FactIdOf, f, g);
    }
    FactOrder();
    SortIgnoresOrder(x, y, FactLeq);
  }

  /** The order in which facts are handed in never matters: the same checks succeed with the same
      receipt. */
  lemma CheckIgnoresOrder(claim: Claim, a: seq<Fact>, b: seq<Fact>, cutoff: Instant)
    requires multiset(a) == multiset(b)
    ensures Check(claim, a, cutoff).Ok? <==> Check(claim, b, cutoff).Ok?
    ensures Check(claim, a, cutoff).Ok? ==> Check(claim, a, cutoff) == Check(claim, b, cutoff)
  {
    CheckSucceedsIff(claim, a, cutoff);
    CheckSucceedsIff(claim, b, cutoff);
    if Check(claim, a, cutoff).Ok? { SameRelevant(claim, a, b, cutoff); }
    if Check(claim, b, cutoff).Ok? { SameRelevant(claim, b, a, cutoff); }
  }

  // ----- the validator's lineage loop -----

  type Sources = map<SourceRecord, (Hash, Instant, Instant)>
  type Evidence = map<EvidenceId, (SourceRecord, Hash)>

  /** The dictionary holds one entry for the source record of each fact, and no other. */
  ghost predicate HoldsSources(sources: Sources, facts: seq<Fact>) {
    && (forall fact <- facts :: fact.sourceRecord in sources
          && sources[fact.sourceRecord] == (fact.sourceHash, fact.availableAt, fact.retrievedAt))
    && (forall record <- sources :: exists fact <- facts :: fact.sourceRecord == record)
  }

  ghost predicate HoldsEvidence(evidence: Evidence, facts: seq<Fact>) {
    && (forall fact <- facts :: EntersEvidence(evidence, fact, fact.evidence))
    && (forall id <- evidence :: exists fact <- facts :: id in fact.evidence)
  }

  ghost predicate EntersEvidence(evidence: Evidence, fact: Fact, ids: seq<EvidenceId>) {
    forall id <- ids :: id in evidence && evidence[id] == (fact.sourceRecord, fact.sourceHash)
  }

  method EnterSource(fact: Fact, sources: Sources, ghost facts: seq<Fact>) returns (ok: bool, after: Sources)
    requires HoldsSources(sources, facts)
    ensures ok <==> forall other <- facts :: SameSource(other, fact)
    ensures ok ==> HoldsSources(after, facts + [fact])
  {
    var identity := (fact.sourceHash, fact.availableAt, fact.retrievedAt);
    after := if fact.sourceRecord in sources then sources else sources[fact.sourceRecord := identity];
    ok := after[fact.sourceRecord] == identity;
  }

  /** Where an entry of the dictionary after some of a fact's evidence has been entered comes from. */
  ghost predicate ComesFrom(after: Evidence, evidence: Evidence, ids: seq<EvidenceId>) {
    && (forall id <- evidence :: id in after && after[id] == evidence[id])
    && (forall id <- after :: id in ids || id in evidence)
  }

  lemma ForeignEvidence(fact: Fact, id: EvidenceId, evidence: Evidence, facts: seq<Fact>)
    requires HoldsEvidence(evidence, facts) && id in evidence && id in fact.evidence
    requires evidence[id] != (fact.sourceRecord, fact.sourceHash)
    ensures exists other <- facts :: !SameEvidence(other, fact, fact.evidence)
  {
    var other :| other in facts && id in other.evidence;
    assert EntersEvidence(evidence, other, other.evidence);
    assert !SameEvidence(other, fact, fact.evidence);
  }

  lemma EvidenceEntered(fact: Fact, evidence: Evidence, after: Evidence, facts: seq<Fact>)
    requires HoldsEvidence(evidence, facts) && ComesFrom(after, evidence, fact.evidence)
    requires EntersEvidence(after, fact, fact.evidence)
    ensures HoldsEvidence(after, facts + [fact])
    ensures forall other <- facts :: SameEvidence(other, fact, fact.evidence)
  {
    forall other | other in facts
      ensures EntersEvidence(after, other, other.evidence) && SameEvidence(other, fact, fact.evidence)
    {
      assert EntersEvidence(evidence, other, other.evidence);
    }
    forall id | id in after ensures exists other <- facts + [fact] :: id in other.evidence {
      if id in fact.evidence {
        assert fact in facts + [fact];
      } else {
        var other :| other in facts && id in other.evidence;
        assert other in facts + [fact];
      }
    }
  }

  /** Enters the evidence of one fact; `facts` are the earlier ones. */
  method EnterEvidence(fact: Fact, evidence: Evidence, ghost facts: seq<Fact>) returns (ok: bool, after: Evidence)
    requires HoldsEvidence(evidence, facts)
    ensures ok <==> forall other <- facts :: SameEvidence(other, fact, fact.evidence)
    ensures ok ==> HoldsEvidence(after, facts + [fact])
  {
    after := evidence;
    var source := (fact.sourceRecord, fact.sourceHash);
    for i := 0 to |fact.evidence|
      invariant ComesFrom(after, evidence, fact.evidence[..i])
      invariant EntersEvidence(after, fact, fact.evidence[..i])
    {
      var id := fact.evidence[i];
      assert fact.evidence[..i + 1] == fact.evidence[..i] + [id];
      if id in after && after[id] != source {
        ForeignEvidence(fact, id, evidence, facts);
        return false, after;
      }
      after := after[id := source];
    }
    assert fact.evidence[..|fact.evidence|] == fact.evidence;
    EvidenceEntered(fact, evidence, after, facts);
    ok := true;
  }

  predicate AgreesWithAll(fact: Fact, others: seq<Fact>) { forall other <- others :: Agree(other, fact) }

  datatype Lineage = Lineage(sources: Sources, evidence: Evidence)
  {
    ghost predicate Holds(facts: seq<Fact>) { HoldsSources(sources, facts) && HoldsEvidence(evidence, facts) }
  }

  method EnterFact(fact: Fact, lineage: Lineage, ghost facts: seq<Fact>) returns (ok: bool, after: Lineage)
    requires lineage.Holds(facts)
    ensures ok <==> AgreesWithAll(fact, facts)
    ensures ok ==> after.Holds(facts + [fact])
  {
    var sources;
    ok, sources := EnterSource(fact, lineage.sources, facts);
    after := Lineage(sources, lineage.evidence);
    if ok {
      var evidence;
      ok, evidence := EnterEvidence(fact, lineage.evidence, facts);
      after := Lineage(sources, evidence);
    }
  }

  lemma NothingHeld()
    ensures Lineage(map[], map[]).Holds([])
  {
  }

  /** The loop with its two dictionaries accepts exactly the lists in which every fact agrees, on sources
      and on evidence, with every earlier one. */
  method LineageAgrees(facts: seq<Fact>) returns (ok: bool)
    ensures ok <==> forall j | 0 <= j < |facts| :: AgreesWithAll(facts[j], facts[..j])
  {
    var lineage := Lineage(map[], map[]);
    NothingHeld();
    for n := 0 to |facts|
      invariant lineage.Holds(facts[..n])
      invariant forall j | 0 <= j < n :: AgreesWithAll(facts[j], facts[..j])
    {
      ok, lineage := EnterFact(facts[n], lineage, facts[..n]);
      if !ok { return; }
      assert facts[..n + 1] == facts[..n] + [facts[n]];
    }
    ok := true;
  }

  /** What the loop checks is pairwise agreement. */
  lemma AgreementIsPairwise(facts: seq<Fact>)
    ensures (forall j | 0 <= j < |facts| :: AgreesWithAll(facts[j], facts[..j]))
      <==> forall a <- facts, b <- facts :: Agree(a, b)
  {
    if forall a <- facts, b <- facts :: Agree(a, b) {
      forall j | 0 <= j < |facts| ensures AgreesWithAll(facts[j], facts[..j]) {
        forall other | other in facts[..j] ensures Agree(other, facts[j]) { assert other in facts; }
      }
    }
    if forall j | 0 <= j < |facts| :: AgreesWithAll(facts[j], facts[..j]) {
      forall a, b | a in facts && b in facts ensures Agree(a, b) {
        var i :| 0 <= i < |facts| && facts[i] == a;
        var j :| 0 <= j < |facts| && facts[j] == b;
        EitherOrder(facts, i, j);
      }
    }
  }

  lemma EitherOrder(facts: seq<Fact>, i: nat, j: nat)
    requires i < |facts| && j < |facts|
    requires forall k | 0 <= k < |facts| :: AgreesWithAll(facts[k], facts[..k])
    ensures Agree(facts[i], facts[j])
  {
    if i < j {
      assert facts[i] in facts[..j];
    } else if j < i {
      assert facts[j] in facts[..i];
      assert Agree(facts[j], facts[i]);
    }
  }

  predicate OneCurrency(facts: seq<Fact>) {
    forall a <- facts, b <- facts :: a.currency.Some? && b.currency.Some? ==> a.currency == b.currency
  }

  /** The loop over the facts, with the other checks of the record, decides their admission. */
  lemma AdmissionByLineage(facts: seq<Fact>, claim: Claim, cutoff: Instant)
    ensures FactsAdmitted(facts, claim, cutoff) <==>
      && |facts| <= MAXIMUM_FACTS
      && DistinctKeys(facts, KindOf) && DistinctKeys(facts, FactIdOf) && OneCurrency(facts)
      && (forall fact <- facts :: FactAdmitted(fact, claim, cutoff))
      && (forall j | 0 <= j < |facts| :: AgreesWithAll(facts[j], facts[..j]))
  {
    AgreementIsPairwise(facts);
    ConsistencyByParts(facts);
  }

  lemma ConsistencyByParts(facts: seq<Fact>)
    ensures (forall a <- facts, b <- facts :: Consistent(a, b))
       <==> OneCurrency(facts) && forall a <- facts, b <- facts :: Agree(a, b)
  {
  }

  /** The record's validator as it is computed, with the lineage loop: it accepts exactly the valid
      receipts. */
  method ResultRecomputes(receipt: Receipt) returns (ok: bool)
    ensures ok <==> receipt.Valid()
  {
    var claim, facts, cutoff := receipt.claim, receipt.facts, receipt.cutoff;
    AdmissionByLineage(facts, claim, cutoff);
    ok := claim.Valid() && claim.KnownBy(cutoff) && SortedBy(facts, FactLeq) && |facts| <= MAXIMUM_FACTS;
    ok := ok && DistinctKeys(facts, KindOf) && DistinctKeys(facts, FactIdOf) && OneCurrency(facts);
    ok := ok && forall fact <- facts :: FactAdmitted(fact, claim, cutoff);
    if ok { ok := LineageAgrees(facts); }
    ok := ok && |receipt.evaluation.consumed| <= MAXIMUM_FACTS && Evaluate(claim, facts) == Ok(receipt.evaluation);
  }
}
