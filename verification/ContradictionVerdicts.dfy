/** What the verdict of a check means, in terms of the values of the facts that were handed in. */
module ContradictionVerdicts {
  import opened Calendar
  import opened Outcomes
  import opened Ordering
  import opened Contradictions

  // ----- which verdict is given -----

  /** What is left open is insufficient or not applicable, for the matching reason. */
  predicate OpenShape(e: Evaluation) {
    && e.observed == None
    && (|| (e.disposition == Insufficient && (e.reason == FactsMissing || e.reason == PeriodsIncomparable))
        || (e.disposition == NotApplicable && e.reason == PlannedSaleOnly))
  }

  lemma OpenFindings(p: Predicate, facts: seq<Fact>)
    requires FindingOf(p, facts).Ok? && FindingOf(p, facts).value.Open?
    ensures OpenShape(FindingOf(p, facts).value.evaluation)
  {
  }

  predicate VerdictShape(e: Evaluation, assertedTruth: bool) {
    && (e.disposition == Supported <==> e.observed == Some(assertedTruth))
    && (e.disposition == Conflicted <==> e.observed == Some(!assertedTruth))
    && (e.disposition == Supported <==> e.reason == FactsSupport)
    && (e.disposition == Conflicted <==> e.reason == FactsConflict)
    && (e.disposition == NotApplicable <==> e.reason == PlannedSaleOnly)
    && (e.disposition == Insufficient <==> e.reason == FactsMissing || e.reason == PeriodsIncomparable)
  }

  lemma JudgedShape(assertedTruth: bool, finding: Finding)
    requires finding.Open? ==> OpenShape(finding.evaluation)
    ensures VerdictShape(Judge(assertedTruth, finding), assertedTruth)
  {
  }

  /** A successful check judges what its relevant facts show, one fact of a kind. */
  lemma CheckJudges(claim: Claim, facts: seq<Fact>, cutoff: Instant)
    requires Check(claim, facts, cutoff).Ok?
    ensures var relevant := RelevantFacts(claim, facts);
      && DistinctKeys(relevant, KindOf) && FindingOf(claim.subject, relevant).Ok?
      && Check(claim, facts, cutoff).value.evaluation == Judge(claim.assertedTruth, FindingOf(claim.subject, relevant).value)
  {
    CheckSucceedsIff(claim, facts, cutoff);
  }

  lemma CheckedShape(claim: Claim, facts: seq<Fact>, cutoff: Instant)
    requires Check(claim, facts, cutoff).Ok?
    ensures VerdictShape(Check(claim, facts, cutoff).value.evaluation, claim.assertedTruth)
  {
    CheckJudges(claim, facts, cutoff);
    var finding := FindingOf(claim.subject, RelevantFacts(claim, facts)).value;
    if finding.Open? { OpenFindings(claim.subject, RelevantFacts(claim, facts)); }
    JudgedShape(claim.assertedTruth, finding);
  }

  /** A claim is supported when the facts show the truth it asserts and conflicted when they show the
      opposite; the reason says which, and what is not observed is insufficient or not applicable. */
  lemma VerdictIff(claim: Claim, facts: seq<Fact>, cutoff: Instant)
    requires Check(claim, facts, cutoff).Ok?
    ensures var e := Check(claim, facts, cutoff).value.evaluation;
      && (e.disposition == Supported <==> e.observed == Some(claim.assertedTruth))
      && (e.disposition == Conflicted <==> e.observed == Some(!claim.assertedTruth))
      && (e.disposition == Supported <==> e.reason == FactsSupport)
      && (e.disposition == Conflicted <==> e.reason == FactsConflict)
      && (e.disposition == NotApplicable <==> e.reason == PlannedSaleOnly)
      && (e.disposition == Insufficient <==> e.reason == FactsMissing || e.reason == PeriodsIncomparable)
  {
    CheckedShape(claim, facts, cutoff);
  }

  // ----- which truth is observed -----

  /** Some fact of the kind passes the test. */
  ghost predicate Lists(facts: seq<Fact>, kind: Kind, test: Fact -> bool) {
    exists a :: a in facts && a.kind == kind && test(a)
  }

  /** Some two facts of the two kinds are related. */
  ghost predicate Pairs(facts: seq<Fact>, j: Kind, k: Kind, related: (Fact, Fact) -> bool) {
    exists a, b :: a in facts && b in facts && a.kind == j && b.kind == k && related(a, b)
  }

  /** The fact found is the only one of its kind. */
  ghost predicate TheOne(found: Option<Fact>, facts: seq<Fact>, kind: Kind) {
    && (found.Some? ==> found.value in facts && found.value.kind == kind)
    && (forall fact <- facts :: fact.kind == kind ==> found == Some(fact))
  }

  lemma {:induction false} FindsTheOne(facts: seq<Fact>, kind: Kind)
    requires DistinctKeys(facts, KindOf)
    ensures TheOne(ByKind(facts, kind), facts, kind)
  {
    if |facts| != 0 {
      var front, last := facts[..|facts| - 1], facts[|facts| - 1];
      assert facts == front + [last];
      FindsTheOne(front, kind);
      forall fact | fact in facts && fact.kind == kind ensures ByKind(facts, kind) == Some(fact) {
        if last.kind == kind { SameKeySameElement(facts, KindOf, fact, last); }
      }
    }
  }

  lemma OneOfMore(found: Option<Fact>, few: seq<Fact>, facts: seq<Fact>, kind: Kind, p: Predicate)
    requires TheOne(found, few, kind) && Relevant(p, kind)
    requires forall fact :: fact in few <==> fact in facts && Relevant(p, fact.kind)
    ensures TheOne(found, facts, kind)
  {
  }

  lemma FindsAmongAll(claim: Claim, facts: seq<Fact>, cutoff: Instant, kind: Kind)
    requires Check(claim, facts, cutoff).Ok? && Relevant(claim.subject, kind)
    ensures TheOne(ByKind(RelevantFacts(claim, facts), kind), facts, kind)
  {
    CheckJudges(claim, facts, cutoff);
    RelevantFactsFacts(claim, facts);
    FindsTheOne(RelevantFacts(claim, facts), kind);
    OneOfMore(ByKind(RelevantFacts(claim, facts), kind), RelevantFacts(claim, facts), facts, kind, claim.subject);
  }

  lemma ListsIff(found: Option<Fact>, facts: seq<Fact>, kind: Kind, test: Fact -> bool)
    requires TheOne(found, facts, kind)
    ensures Lists(facts, kind, test) <==> found.Some? && test(found.value)
  {
  }

  lemma PairsIff(x: Option<Fact>, y: Option<Fact>, facts: seq<Fact>, j: Kind, k: Kind, related: (Fact, Fact) -> bool)
    requires TheOne(x, facts, j) && TheOne(y, facts, k)
    ensures Pairs(facts, j, k, related) <==> x.Some? && y.Some? && related(x.value, y.value)
  {
  }

  /** Liquidity: cash and current liabilities of one day, cash being at least the liabilities. */
  ghost predicate LiquidityTruth(e: Evaluation, facts: seq<Fact>) {
    && (e.observed == Some(true) <==>
          Pairs(facts, Cash, CurrentLiabilities, (a: Fact, b: Fact) => a.asOf == b.asOf && a.value >= b.value))
    && (e.observed == Some(false) <==>
          Pairs(facts, Cash, CurrentLiabilities, (a: Fact, b: Fact) => a.asOf == b.asOf && a.value < b.value))
    && (e.reason == PeriodsIncomparable <==>
          Pairs(facts, Cash, CurrentLiabilities, (a: Fact, b: Fact) => a.asOf != b.asOf))
    && (e.reason == FactsMissing <==>
          !Lists(facts, Cash, (a: Fact) => true) || !Lists(facts, CurrentLiabilities, (a: Fact) => true))
  }

  lemma LiquidityShows(truth: bool, relevant: seq<Fact>, facts: seq<Fact>)
    requires LiquidityFinding(relevant).Ok?
    requires TheOne(ByKind(relevant, Cash), facts, Cash)
    requires TheOne(ByKind(relevant, CurrentLiabilities), facts, CurrentLiabilities)
    ensures LiquidityTruth(Judge(truth, LiquidityFinding(relevant).value), facts)
  {
    var cash, liabilities := ByKind(relevant, Cash), ByKind(relevant, CurrentLiabilities);
    PairsIff(cash, liabilities, facts, Cash, CurrentLiabilities, (a: Fact, b: Fact) => a.asOf == b.asOf && a.value >= b.value);
    PairsIff(cash, liabilities, facts, Cash, CurrentLiabilities, (a: Fact, b: Fact) => a.asOf == b.asOf && a.value < b.value);
    PairsIff(cash, liabilities, facts, Cash, CurrentLiabilities, (a: Fact, b: Fact) => a.asOf != b.asOf);
    ListsIff(cash, facts, Cash, (a: Fact) => true);
    ListsIff(liabilities, facts, CurrentLiabilities, (a: Fact) => true);
  }

  lemma LiquidityVerdict(claim: Claim, facts: seq<Fact>, cutoff: Instant)
    requires Check(claim, facts, cutoff).Ok? && claim.subject == CashAtLeastCurrentLiabilities
    ensures LiquidityTruth(Check(claim, facts, cutoff).value.evaluation, facts)
  {
    CheckJudges(claim, facts, cutoff);
    FindsAmongAll(claim, facts, cutoff, Cash);
    FindsAmongAll(claim, facts, cutoff, CurrentLiabilities);
    LiquidityShows(claim.assertedTruth, RelevantFacts(claim, facts), facts);
  }

  /** Insiders: acquired and disposed shares of one day, more acquired than disposed; a planned sale
      alone is not applicable. */
  ghost predicate InsiderTruth(e: Evaluation, facts: seq<Fact>) {
    && (e.observed == Some(true) <==>
          Pairs(facts, Acquired, Disposed, (a: Fact, b: Fact) => a.asOf == b.asOf && a.value > b.value))
    && (e.observed == Some(false) <==>
          Pairs(facts, Acquired, Disposed, (a: Fact, b: Fact) => a.asOf == b.asOf && a.value <= b.value))
    && (e.reason == PeriodsIncomparable <==>
          Pairs(facts, Acquired, Disposed, (a: Fact, b: Fact) => a.asOf != b.asOf))
    && (e.disposition == NotApplicable <==>
          && Lists(facts, PlannedSale, (a: Fact) => true)
          && !Lists(facts, Acquired, (a: Fact) => true) && !Lists(facts, Disposed, (a: Fact) => true))
    && (e.reason == FactsMissing <==>
          && (!Lists(facts, Acquired, (a: Fact) => true) || !Lists(facts, Disposed, (a: Fact) => true))
          && e.disposition != NotApplicable)
  }

  lemma InsiderShows(truth: bool, relevant: seq<Fact>, facts: seq<Fact>)
    requires TheOne(ByKind(relevant, Acquired), facts, Acquired)
    requires TheOne(ByKind(relevant, Disposed), facts, Disposed)
    requires TheOne(ByKind(relevant, PlannedSale), facts, PlannedSale)
    ensures InsiderTruth(Judge(truth, InsiderFinding(relevant)), facts)
  {
    var acquired, disposed := ByKind(relevant, Acquired), ByKind(relevant, Disposed);
    PairsIff(acquired, disposed, facts, Acquired, Disposed, (a: Fact, b: Fact) => a.asOf == b.asOf && a.value > b.value);
    PairsIff(acquired, disposed, facts, Acquired, Disposed, (a: Fact, b: Fact) => a.asOf == b.asOf && a.value <= b.value);
    PairsIff(acquired, disposed, facts, Acquired, Disposed, (a: Fact, b: Fact) => a.asOf != b.asOf);
    ListsIff(acquired, facts, Acquired, (a: Fact) => true);
    ListsIff(disposed, facts, Disposed, (a: Fact) => true);
    ListsIff(ByKind(relevant, PlannedSale), facts, PlannedSale, (a: Fact) => true);
  }

  lemma InsiderVerdict(claim: Claim, facts: seq<Fact>, cutoff: Instant)
    requires Check(claim, facts, cutoff).Ok? && claim.subject == NetInsiderAcquisition
    ensures InsiderTruth(Check(claim, facts, cutoff).value.evaluation, facts)
  {
    CheckJudges(claim, facts, cutoff);
    FindsAmongAll(claim, facts, cutoff, Acquired);
    FindsAmongAll(claim, facts, cutoff, Disposed);
    FindsAmongAll(claim, facts, cutoff, PlannedSale);
    InsiderShows(claim.assertedTruth, RelevantFacts(claim, facts), facts);
  }

  /** Two share counts of which the prior one is not dated before the current one. */
  ghost predicate Misordered(facts: seq<Fact>) {
    Pairs(facts, SharesPrior, SharesCurrent, (a: Fact, b: Fact) => a.asOf >= b.asOf)
  }

  /** Shares to be issued, or dilutive instruments. */
  ghost predicate DirectExposure(facts: seq<Fact>) {
    Lists(facts, Issuable, (a: Fact) => a.value > 0.0) || Lists(facts, InstrumentCount, (a: Fact) => a.value > 0.0)
  }

  /** Dilution is shown by shares to be issued, by instruments, or by a share count that grew. It is ruled
      out only by a share count that did not grow together with a count of zero instruments and no
      positive registration. A pair of counts out of order is incomparable, whatever else is known. */
  ghost predicate DilutionTruth(e: Evaluation, facts: seq<Fact>) {
    && (e.observed == Some(true) <==>
          && !Misordered(facts)
          && (|| DirectExposure(facts)
              || Pairs(facts, SharesPrior, SharesCurrent, (a: Fact, b: Fact) => a.value < b.value)))
    && (e.observed == Some(false) <==>
          && !Misordered(facts) && !DirectExposure(facts)
          && Pairs(facts, SharesPrior, SharesCurrent, (a: Fact, b: Fact) => a.value >= b.value)
          && Lists(facts, InstrumentCount, (a: Fact) => a.value == 0.0)
          && !Lists(facts, Registered, (a: Fact) => a.value > 0.0))
    && (e.reason == PeriodsIncomparable <==> Misordered(facts))
    && (e.reason == FactsMissing <==> e.observed == None && !Misordered(facts))
  }

  lemma DilutionShows(truth: bool, relevant: seq<Fact>, facts: seq<Fact>)
    requires TheOne(ByKind(relevant, SharesPrior), facts, SharesPrior)
    requires TheOne(ByKind(relevant, SharesCurrent), facts, SharesCurrent)
    requires TheOne(ByKind(relevant, Issuable), facts, Issuable)
    requires TheOne(ByKind(relevant, InstrumentCount), facts, InstrumentCount)
    requires TheOne(ByKind(relevant, Registered), facts, Registered)
    ensures DilutionTruth(Judge(truth, DilutionFinding(relevant)), facts)
  {
    var prior, current := ByKind(relevant, SharesPrior), ByKind(relevant, SharesCurrent);
    var count := ByKind(relevant, InstrumentCount);
    PairsIff(prior, current, facts, SharesPrior, SharesCurrent, (a: Fact, b: Fact) => a.asOf >= b.asOf);
    PairsIff(prior, current, facts, SharesPrior, SharesCurrent, (a: Fact, b: Fact) => a.value < b.value);
    PairsIff(prior, current, facts, SharesPrior, SharesCurrent, (a: Fact, b: Fact) => a.value >= b.value);
    ListsIff(ByKind(relevant, Issuable), facts, Issuable, (a: Fact) => a.value > 0.0);
    ListsIff(count, facts, InstrumentCount, (a: Fact) => a.value > 0.0);
    ListsIff(count, facts, InstrumentCount, (a: Fact) => a.value == 0.0);
    ListsIff(ByKind(relevant, Registered), facts, Registered, (a: Fact) => a.value > 0.0);
  }

  lemma DilutionVerdict(claim: Claim, facts: seq<Fact>, cutoff: Instant)
    requires Check(claim, facts, cutoff).Ok? && claim.subject == DilutionExposurePresent
    ensures DilutionTruth(Check(claim, facts, cutoff).value.evaluation, facts)
  {
    CheckJudges(claim, facts, cutoff);
    FindsAmongAll(claim, facts, cutoff, SharesPrior);
    FindsAmongAll(claim, facts, cutoff, SharesCurrent);
    FindsAmongAll(claim, facts, cutoff, Issuable);
    FindsAmongAll(claim, facts, cutoff, InstrumentCount);
    FindsAmongAll(claim, facts, cutoff, Registered);
    DilutionShows(claim.assertedTruth, RelevantFacts(claim, facts), facts);
  }

  // ----- which facts are consumed -----

  /** The identifiers are those of the facts of these kinds. */
  ghost predicate ConsumesKinds(consumed: seq<nat>, facts: seq<Fact>, kinds: set<Kind>) {
    forall id :: id in consumed <==> exists fact :: fact in facts && fact.kind in kinds && fact.factId == id
  }

  /** Which facts a verdict names: the pair it compared; of dilution what shows it or rules it out; the
      planned sale alone; and all that the subject looks at when nothing was observed. */
  ghost predicate NamesFacts(subject: Predicate, e: Evaluation, facts: seq<Fact>) {
    match subject
    case CashAtLeastCurrentLiabilities => ConsumesKinds(e.consumed, facts, {Cash, CurrentLiabilities})
    case NetInsiderAcquisition =>
      ConsumesKinds(e.consumed, facts,
                    if e.disposition == NotApplicable then {PlannedSale}
                    else if e.observed.Some? then {Acquired, Disposed}
                    else {Acquired, Disposed, PlannedSale})
    case DilutionExposurePresent =>
      ConsumesKinds(e.consumed, facts,
                    if e.observed == Some(true) && DirectExposure(facts) then {Issuable, InstrumentCount}
                    else if e.observed == Some(true) then {SharesPrior, SharesCurrent, Issuable, InstrumentCount}
                    else if e.observed == Some(false) then {SharesPrior, SharesCurrent, InstrumentCount}
                    else {SharesPrior, SharesCurrent, Issuable, InstrumentCount, Registered})
  }

  lemma IdsOfKinds(few: seq<Fact>, facts: seq<Fact>, kinds: set<Kind>)
    requires forall fact :: fact in few <==> fact in facts && fact.kind in kinds
    ensures ConsumesKinds(IdsOf(few), facts, kinds)
  {
    forall id ensures id in IdsOf(few) <==> exists fact :: fact in facts && fact.kind in kinds && fact.factId == id {
      if id in IdsOf(few) {
        var i :| 0 <= i < |few| && IdsOf(few)[i] == id;
        assert few[i] in facts && few[i].factId == id;
      }
      if exists fact :: fact in facts && fact.kind in kinds && fact.factId == id {
        var fact :| fact in facts && fact.kind in kinds && fact.factId == id;
        var i :| 0 <= i < |few| && few[i] == fact;
        assert IdsOf(few)[i] == id;
      }
    }
  }

  lemma FoundOfKinds(found: seq<Option<Fact>>, kinds: seq<Kind>, few: seq<Fact>, facts: seq<Fact>)
    requires |found| == |kinds| && forall i | 0 <= i < |found| :: TheOne(found[i], facts, kinds[i])
    requires forall fact :: fact in few <==> Some(fact) in found
    ensures ConsumesKinds(IdsOf(few), facts, set kind | kind in kinds)
  {
    forall fact ensures fact in few <==> fact in facts && fact.kind in kinds {
      if fact in few {
        var i :| 0 <= i < |found| && found[i] == Some(fact);
        assert kinds[i] in kinds;
      }
      if fact in facts && fact.kind in kinds {
        var i :| 0 <= i < |kinds| && kinds[i] == fact.kind;
        assert found[i] == Some(fact);
      }
    }
    IdsOfKinds(few, facts, set kind | kind in kinds);
  }

  lemma PairNamed(a: Option<Fact>, j: Kind, b: Option<Fact>, k: Kind, facts: seq<Fact>)
    requires TheOne(a, facts, j) && TheOne(b, facts, k) && a.Some? && b.Some?
    ensures ConsumesKinds([a.value.factId, b.value.factId], facts, {j, k})
  {
    FoundOfKinds([a, b], [j, k], [a.value, b.value], facts);
    assert IdsOf([a.value, b.value]) == [a.value.factId, b.value.factId];
    assert (set kind | kind in [j, k]) == {j, k};
  }

  lemma LiquidityNames(truth: bool, relevant: seq<Fact>, facts: seq<Fact>)
    requires LiquidityFinding(relevant).Ok?
    requires TheOne(ByKind(relevant, Cash), facts, Cash)
    requires TheOne(ByKind(relevant, CurrentLiabilities), facts, CurrentLiabilities)
    requires ConsumesKinds(IdsOf(relevant), facts, {Cash, CurrentLiabilities})
    ensures NamesFacts(CashAtLeastCurrentLiabilities, Judge(truth, LiquidityFinding(relevant).value), facts)
  {
    var cash, liabilities := ByKind(relevant, Cash), ByKind(relevant, CurrentLiabilities);
    if cash.Some? && liabilities.Some? { PairNamed(cash, Cash, liabilities, CurrentLiabilities, facts); }
  }

  lemma InsiderNames(truth: bool, relevant: seq<Fact>, facts: seq<Fact>)
    requires TheOne(ByKind(relevant, Acquired), facts, Acquired)
    requires TheOne(ByKind(relevant, Disposed), facts, Disposed)
    requires TheOne(ByKind(relevant, PlannedSale), facts, PlannedSale)
    requires ConsumesKinds(IdsOf(relevant), facts, {Acquired, Disposed, PlannedSale})
    ensures NamesFacts(NetInsiderAcquisition, Judge(truth, InsiderFinding(relevant)), facts)
  {
    var acquired, disposed := ByKind(relevant, Acquired), ByKind(relevant, Disposed);
    if acquired.Some? && disposed.Some? { PairNamed(acquired, Acquired, disposed, Disposed, facts); }
  }

  lemma DirectNamed(issuable: Option<Fact>, count: Option<Fact>, facts: seq<Fact>)
    requires TheOne(issuable, facts, Issuable) && TheOne(count, facts, InstrumentCount)
    ensures ConsumesKinds(IdsOf(Optional(issuable) + Optional(count)), facts, {Issuable, InstrumentCount})
  {
    FoundOfKinds([issuable, count], [Issuable, InstrumentCount], Optional(issuable) + Optional(count), facts);
    assert (set kind | kind in [Issuable, InstrumentCount]) == {Issuable, InstrumentCount};
  }

  lemma GrowthNamed(prior: Option<Fact>, current: Option<Fact>, issuable: Option<Fact>, count: Option<Fact>, facts: seq<Fact>)
    requires TheOne(prior, facts, SharesPrior) && TheOne(current, facts, SharesCurrent) && prior.Some? && current.Some?
    requires TheOne(issuable, facts, Issuable) && TheOne(count, facts, InstrumentCount)
    ensures ConsumesKinds([prior.value.factId, current.value.factId] + IdsOf(Optional(issuable) + Optional(count)), facts,
                          {SharesPrior, SharesCurrent, Issuable, InstrumentCount})
  {
    PairNamed(prior, SharesPrior, current, SharesCurrent, facts);
    DirectNamed(issuable, count, facts);
    Together([prior.value.factId, current.value.factId], {SharesPrior, SharesCurrent},
             IdsOf(Optional(issuable) + Optional(count)), {Issuable, InstrumentCount}, facts);
    assert {SharesPrior, SharesCurrent} + {Issuable, InstrumentCount} == {SharesPrior, SharesCurrent, Issuable, InstrumentCount};
  }

  lemma Together(a: seq<nat>, j: set<Kind>, b: seq<nat>, k: set<Kind>, facts: seq<Fact>)
    requires ConsumesKinds(a, facts, j) && ConsumesKinds(b, facts, k)
    ensures ConsumesKinds(a + b, facts, j + k)
  {
    forall id ensures id in a + b <==> exists fact :: fact in facts && fact.kind in j + k && fact.factId == id {
      assert id in a + b <==> id in a || id in b;
      if exists fact :: fact in facts && fact.kind in j + k && fact.factId == id {
        var fact :| fact in facts && fact.kind in j + k && fact.factId == id;
        assert fact.kind in j || fact.kind in k;
      }
    }
  }

  lemma AbsenceNamed(prior: Option<Fact>, current: Option<Fact>, count: Option<Fact>, facts: seq<Fact>)
    requires TheOne(prior, facts, SharesPrior) && TheOne(current, facts, SharesCurrent) && TheOne(count, facts, InstrumentCount)
    requires prior.Some? && current.Some? && count.Some?
    ensures ConsumesKinds([prior.value.factId, current.value.factId, count.value.factId], facts,
                          {SharesPrior, SharesCurrent, InstrumentCount})
  {
    var few := [prior.value, current.value, count.value];
    FoundOfKinds([prior, current, count], [SharesPrior, SharesCurrent, InstrumentCount], few, facts);
    assert IdsOf(few) == [prior.value.factId, current.value.factId, count.value.factId];
    assert (set kind | kind in [SharesPrior, SharesCurrent, InstrumentCount]) == {SharesPrior, SharesCurrent, InstrumentCount};
  }

  lemma DilutionNames(truth: bool, relevant: seq<Fact>, facts: seq<Fact>)
    requires TheOne(ByKind(relevant, SharesPrior), facts, SharesPrior)
    requires TheOne(ByKind(relevant, SharesCurrent), facts, SharesCurrent)
    requires TheOne(ByKind(relevant, Issuable), facts, Issuable)
    requires TheOne(ByKind(relevant, InstrumentCount), facts, InstrumentCount)
    requires ConsumesKinds(IdsOf(relevant), facts, {SharesPrior, SharesCurrent, Issuable, InstrumentCount, Registered})
    ensures NamesFacts(DilutionExposurePresent, Judge(truth, DilutionFinding(relevant)), facts)
  {
    var prior, current := ByKind(relevant, SharesPrior), ByKind(relevant, SharesCurrent);
    var issuable, count := ByKind(relevant, Issuable), ByKind(relevant, InstrumentCount);
    ListsIff(issuable, facts, Issuable, (a: Fact) => a.value > 0.0);
    ListsIff(count, facts, InstrumentCount, (a: Fact) => a.value > 0.0);
    DirectNamed(issuable, count, facts);
    if prior.Some? && current.Some? {
      GrowthNamed(prior, current, issuable, count, facts);
      if count.Some? { AbsenceNamed(prior, current, count, facts); }
    }
  }

  lemma AllNamed(claim: Claim, facts: seq<Fact>, kinds: set<Kind>)
    requires forall kind :: Relevant(claim.subject, kind) <==> kind in kinds
    ensures ConsumesKinds(IdsOf(RelevantFacts(claim, facts)), facts, kinds)
  {
    RelevantFactsFacts(claim, facts);
    IdsOfKinds(RelevantFacts(claim, facts), facts, kinds);
  }

  /** Exactly which facts the receipt of a check names as consumed. */
  lemma ConsumedIff(claim: Claim, facts: seq<Fact>, cutoff: Instant)
    requires Check(claim, facts, cutoff).Ok?
    ensures NamesFacts(claim.subject, Check(claim, facts, cutoff).value.evaluation, facts)
  {
    CheckJudges(claim, facts, cutoff);
    var relevant := RelevantFacts(claim, facts);
    match claim.subject
    case CashAtLeastCurrentLiabilities =>
      AllNamed(claim, facts, {Cash, CurrentLiabilities});
      FindsAmongAll(claim, facts, cutoff, Cash);
      FindsAmongAll(claim, facts, cutoff, CurrentLiabilities);
      LiquidityNames(claim.assertedTruth, relevant, facts);
    case NetInsiderAcquisition =>
      AllNamed(claim, facts, {Acquired, Disposed, PlannedSale});
      FindsAmongAll(claim, facts, cutoff, Acquired);
      FindsAmongAll(claim, facts, cutoff, Disposed);
      FindsAmongAll(claim, facts, cutoff, PlannedSale);
      InsiderNames(claim.assertedTruth, relevant, facts);
    case DilutionExposurePresent =>
      AllNamed(claim, facts, {SharesPrior, SharesCurrent, Issuable, InstrumentCount, Registered});
      FindsAmongAll(claim, facts, cutoff, SharesPrior);
      FindsAmongAll(claim, facts, cutoff, SharesCurrent);
      FindsAmongAll(claim, facts, cutoff, Issuable);
      FindsAmongAll(claim, facts, cutoff, InstrumentCount);
      DilutionNames(claim.assertedTruth, relevant, facts);
  }

  // ----- which checks succeed -----

  /** A fact that may enter the receipt of the claim. */
  ghost predicate MayEnter(fact: Fact, claim: Claim, cutoff: Instant) {
    && fact.value >= 0.0
    && (fact.unit == CurrencyUnit <==> fact.kind == Cash || fact.kind == CurrentLiabilities)
    && (fact.unit == CountUnit <==> fact.kind == InstrumentCount)
    && (fact.currency == None <==> fact.unit != CurrencyUnit)
    && fact.availableAt <= fact.retrievedAt <= cutoff && fact.asOf <= claim.asOf
    && fact.issuer == claim.issuer && fact.scope == claim.scope
    && 1 <= |fact.evidence| <= 16 && NoDuplicates(fact.evidence)
  }

  lemma MayEnterIff(fact: Fact, claim: Claim, cutoff: Instant)
    ensures MayEnter(fact, claim, cutoff) <==> FactAdmitted(fact, claim, cutoff)
  {
  }

  /** The claim's own conditions: its family, its times and its evidence. */
  predicate ClaimUsable(claim: Claim, cutoff: Instant) {
    && (claim.family == Liquidity <==> claim.subject == CashAtLeastCurrentLiabilities)
    && (claim.family == Dilution <==> claim.subject == DilutionExposurePresent)
    && claim.availableAt <= claim.retrievedAt <= cutoff && claim.asOf * DAY <= cutoff
    && 1 <= |claim.evidence| <= 16 && NoDuplicates(claim.evidence)
  }

  lemma ClaimUsableIff(claim: Claim, cutoff: Instant)
    ensures ClaimUsable(claim, cutoff) <==> claim.Valid() && claim.KnownBy(cutoff)
  {
  }

  /** Two facts say the same about one source record, about one piece of evidence, and about currency. */
  predicate Compatible(a: Fact, b: Fact) {
    && (a.sourceRecord == b.sourceRecord ==>
          a.sourceHash == b.sourceHash && a.availableAt == b.availableAt && a.retrievedAt == b.retrievedAt)
    && (forall id <- a.evidence | id in b.evidence :: a.sourceRecord == b.sourceRecord && a.sourceHash == b.sourceHash)
    && (a.currency == b.currency || a.currency == None || b.currency == None)
  }

  lemma CompatibleIff(a: Fact, b: Fact)
    ensures Compatible(a, b) <==> Consistent(a, b)
  {
  }

  /** The facts may enter one receipt: few, each with its own kind and identifier, and compatible. */
  ghost predicate MayEnterTogether(facts: seq<Fact>, claim: Claim, cutoff: Instant) {
    && |facts| <= 8
    && (forall i, j | 0 <= i < j < |facts| :: facts[i].kind != facts[j].kind && facts[i].factId != facts[j].factId)
    && (forall fact <- facts :: MayEnter(fact, claim, cutoff))
    && (forall a <- facts, b <- facts :: Compatible(a, b))
  }

  lemma MayEnterTogetherIff(facts: seq<Fact>, claim: Claim, cutoff: Instant)
    ensures MayEnterTogether(facts, claim, cutoff) <==> FactsAdmitted(facts, claim, cutoff)
  {
    forall fact | fact in facts ensures MayEnter(fact, claim, cutoff) <==> FactAdmitted(fact, claim, cutoff) {
      MayEnterIff(fact, claim, cutoff);
    }
    forall a, b | a in facts && b in facts ensures Compatible(a, b) <==> Consistent(a, b) { CompatibleIff(a, b); }
  }

  /** The kinds of facts a subject looks at. */
  function KindsOf(p: Predicate): set<Kind> {
    match p
    case CashAtLeastCurrentLiabilities => {Cash, CurrentLiabilities}
    case DilutionExposurePresent => {SharesPrior, SharesCurrent, Registered, Issuable, InstrumentCount}
    case NetInsiderAcquisition => {Acquired, Disposed, PlannedSale}
  }

  lemma LooksAtKind(p: Predicate, kind: Kind)
    ensures Relevant(p, kind) <==> kind in KindsOf(p)
  {
  }

  lemma LooksAtAmong(p: Predicate, kept: seq<Fact>, facts: seq<Fact>, kinds: set<Kind>)
    requires forall fact :: fact in kept <==> fact in facts && Relevant(p, fact.kind)
    requires forall kind :: Relevant(p, kind) <==> kind in kinds
    ensures forall fact :: fact in kept <==> fact in facts && fact.kind in kinds
  {
  }

  /** The relevant facts are those of these kinds. */
  lemma LooksAt(claim: Claim, facts: seq<Fact>)
    ensures forall fact :: fact in RelevantFacts(claim, facts) <==> fact in facts && fact.kind in KindsOf(claim.subject)
  {
    RelevantFactsFacts(claim, facts);
    forall kind ensures Relevant(claim.subject, kind) <==> kind in KindsOf(claim.subject) { LooksAtKind(claim.subject, kind); }
    LooksAtAmong(claim.subject, RelevantFacts(claim, facts), facts, KindsOf(claim.subject));
  }

  /** The whole condition of a check, field by field, on the claim and on the facts its subject looks at. */
  lemma CheckAcceptsIff(claim: Claim, facts: seq<Fact>, cutoff: Instant)
    ensures Check(claim, facts, cutoff).Ok?
       <==> ClaimUsable(claim, cutoff) && MayEnterTogether(RelevantFacts(claim, facts), claim, cutoff)
  {
    ClaimUsableIff(claim, cutoff);
    MayEnterTogetherIff(RelevantFacts(claim, facts), claim, cutoff);
    AcceptedOnly(claim, facts, cutoff);
  }

  lemma AcceptedOnly(claim: Claim, facts: seq<Fact>, cutoff: Instant)
    ensures Check(claim, facts, cutoff).Ok? <==>
      claim.Valid() && claim.KnownBy(cutoff) && FactsAdmitted(RelevantFacts(claim, facts), claim, cutoff)
  {
    CheckSucceedsIff(claim, facts, cutoff);
  }

  /** A check stops at the currencies exactly on cash and current liabilities of one day in two currencies. */
  lemma CurrencyMismatchIff(claim: Claim, facts: seq<Fact>, cutoff: Instant)
    requires DistinctKeys(RelevantFacts(claim, facts), KindOf)
    ensures Check(claim, facts, cutoff) == Err(CurrencyMismatch) <==>
      && claim.subject == CashAtLeastCurrentLiabilities
      && Pairs(facts, Cash, CurrentLiabilities, (a: Fact, b: Fact) => a.asOf == b.asOf && a.currency != b.currency)
  {
    if claim.subject == CashAtLeastCurrentLiabilities {
      var relevant := RelevantFacts(claim, facts);
      RelevantFactsFacts(claim, facts);
      FindsTheOne(relevant, Cash);
      FindsTheOne(relevant, CurrentLiabilities);
      var cash, liabilities := ByKind(relevant, Cash), ByKind(relevant, CurrentLiabilities);
      OneOfMore(cash, relevant, facts, Cash, claim.subject);
      OneOfMore(liabilities, relevant, facts, CurrentLiabilities, claim.subject);
      PairsIff(cash, liabilities, facts, Cash, CurrentLiabilities, (a: Fact, b: Fact) => a.asOf == b.asOf && a.currency != b.currency);
      MismatchFound(relevant);
    }
  }

  lemma MismatchFound(relevant: seq<Fact>)
    ensures var cash, liabilities := ByKind(relevant, Cash), ByKind(relevant, CurrentLiabilities);
      LiquidityFinding(relevant) == Err(CurrencyMismatch) <==>
        cash.Some? && liabilities.Some? && cash.value.asOf == liabilities.value.asOf
        && cash.value.currency != liabilities.value.currency
    ensures LiquidityFinding(relevant).Err? ==> LiquidityFinding(relevant) == Err(CurrencyMismatch)
  {
  }

  // ----- the order of the facts in a receipt -----

  /** The first of two kinds of one subject in the order of their names. */
  predicate NamedFirst(p: Predicate, a: Kind, b: Kind) {
    match p
    case CashAtLeastCurrentLiabilities => a == Cash && b == CurrentLiabilities
    case NetInsiderAcquisition => (a == PlannedSale && b != PlannedSale) || (a == Acquired && b == Disposed)
    case DilutionExposurePresent =>
      || (a == InstrumentCount && b != InstrumentCount)
      || (a == Issuable && b in {Registered, SharesCurrent, SharesPrior})
      || (a == Registered && b in {SharesCurrent, SharesPrior})
      || (a == SharesCurrent && b == SharesPrior)
  }

  lemma RankedFirst(p: Predicate, a: Fact, b: Fact)
    requires a.kind != b.kind && FactLeq(a, b) && a.kind in KindsOf(p) && b.kind in KindsOf(p)
    ensures NamedFirst(p, a.kind, b.kind)
  {
  }

  /** A receipt lists its facts by the names of their kinds. */
  lemma ReceiptOrder(claim: Claim, facts: seq<Fact>, cutoff: Instant)
    requires Check(claim, facts, cutoff).Ok?
    ensures var listed := Check(claim, facts, cutoff).value.facts;
      forall i, j | 0 <= i < j < |listed| :: NamedFirst(claim.subject, listed[i].kind, listed[j].kind)
  {
    CheckSucceedsIff(claim, facts, cutoff);
    CheckJudges(claim, facts, cutoff);
    ListedInOrder(claim, facts, RelevantFacts(claim, facts));
  }

  lemma ListedInOrder(claim: Claim, facts: seq<Fact>, listed: seq<Fact>)
    requires listed == RelevantFacts(claim, facts) && DistinctKeys(listed, KindOf)
    ensures forall i, j | 0 <= i < j < |listed| :: NamedFirst(claim.subject, listed[i].kind, listed[j].kind)
  {
    LooksAt(claim, facts);
    RelevantFactsFacts(claim, facts);
    forall i, j | 0 <= i < j < |listed| ensures NamedFirst(claim.subject, listed[i].kind, listed[j].kind) {
      assert FactLeq(listed[i], listed[j]) && KindOf(listed[i]) != KindOf(listed[j]);
      RankedFirst(claim.subject, listed[i], listed[j]);
    }
  }
}
