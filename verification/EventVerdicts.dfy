/** What the classification of a disclosure means, in terms of the fields of the disclosures alone. */
module EventVerdicts {
  import opened Calendar
  import opened Outcomes
  import opened Ordering
  import opened SecIdentifiers
  import opened EventNovelty

  // ----- relations between two disclosures -----

  /** Some entity, date or number as written is not among those of the earlier disclosure. */
  ghost predicate SaysMore(earlier: Disclosure, current: Disclosure) {
    || (exists entity :: entity in current.entities && entity !in earlier.entities)
    || (exists day :: day in current.dates && day !in earlier.dates)
    || (exists fact :: fact in current.facts && fact !in earlier.facts)
  }

  /** One document about one event: issuers are compared up to leading zeros. */
  predicate OneDocument(earlier: Disclosure, current: Disclosure) {
    && earlier.source.hash == current.source.hash && SameIssuer(earlier.issuer, current.issuer)
    && earlier.category == current.category && earlier.entities == current.entities
  }

  /** The same issuer and category, and the same entities or some of them only. */
  ghost predicate Precedes(earlier: Disclosure, current: Disclosure) {
    && earlier.issuer == current.issuer && earlier.category == current.category
    && (|| earlier.entities == current.entities
        || (&& earlier.entities != [] && (forall entity <- earlier.entities :: entity in current.entities)
            && exists entity :: entity in current.entities && entity !in earlier.entities))
  }

  ghost predicate SharesEntity(earlier: Disclosure, current: Disclosure) {
    && earlier.issuer == current.issuer && earlier.category == current.category
    && exists entity :: entity in earlier.entities && entity in current.entities
  }

  lemma OneMissing<T>(a: seq<T>, b: seq<T>) returns (x: T)
    requires Members(a) - Members(b) != {}
    ensures x in a && x !in b
  {
    x := SomeMember(Members(a) - Members(b));
  }

  lemma MissingLeaves<T>(a: seq<T>, b: seq<T>, x: T)
    requires x in a && x !in b
    ensures Members(a) - Members(b) != {}
  {
    assert x in Members(a) - Members(b);
  }

  lemma SaysMoreIff(earlier: Disclosure, current: Disclosure)
    ensures SaysMore(earlier, current) <==> AddsMaterial(earlier, current)
  {
    if Members(current.entities) - Members(earlier.entities) != {} {
      var entity := OneMissing(current.entities, earlier.entities);
    } else if Members(current.dates) - Members(earlier.dates) != {} {
      var day := OneMissing(current.dates, earlier.dates);
    } else if Members(current.facts) - Members(earlier.facts) != {} {
      var fact := OneMissing(current.facts, earlier.facts);
    }
    if entity :| entity in current.entities && entity !in earlier.entities {
      MissingLeaves(current.entities, earlier.entities, entity);
    }
    if day :| day in current.dates && day !in earlier.dates { MissingLeaves(current.dates, earlier.dates, day); }
    if fact :| fact in current.facts && fact !in earlier.facts { MissingLeaves(current.facts, earlier.facts, fact); }
  }

  lemma OneDocumentIff(earlier: Disclosure, current: Disclosure)
    ensures OneDocument(earlier, current) <==> SameDocument(earlier, current)
  {
    PaddedEqualIff(earlier.issuer, current.issuer);
  }

  lemma ProperlyAmong(a: seq<string>, b: seq<string>)
    ensures Members(a) < Members(b) <==> (forall x <- a :: x in b) && exists x :: x in b && x !in a
  {
    if Members(a) < Members(b) {
      forall x | x in a ensures x in b { assert x in Members(a); }
      SubsetByDifference(Members(b), Members(a));
      var x := OneMissing(b, a);
    }
    if x :| x in b && x !in a {
      MissingLeaves(b, a, x);
      assert x in Members(b) && x !in Members(a);
    }
  }

  lemma PrecedesIff(earlier: Disclosure, current: Disclosure)
    ensures Precedes(earlier, current) <==> Related(earlier, current)
  {
    ProperlyAmong(earlier.entities, current.entities);
  }

  lemma SharesEntityIff(earlier: Disclosure, current: Disclosure)
    ensures SharesEntity(earlier, current) <==> Overlaps(earlier, current)
  {
    var common := Members(earlier.entities) * Members(current.entities);
    if exists entity :: entity in earlier.entities && entity in current.entities {
      var entity :| entity in earlier.entities && entity in current.entities;
      assert entity in common;
    }
    if common != {} {
      var entity := SomeMember(common);
      assert entity in earlier.entities && entity in current.entities;
    }
  }

  /** When a disclosure is placed: at its publication, or at its retrieval if that is not known. */
  predicate PlacedAt(d: Disclosure, at: Instant) {
    match d.source.publishedAt
    case Some(published) => at == published
    case None => at == d.source.retrievedAt
  }

  ghost predicate PlacedNoLater(a: Disclosure, b: Disclosure) { exists x, y :: PlacedAt(a, x) && PlacedAt(b, y) && x <= y }

  lemma PlacedBefore(a: Disclosure, b: Disclosure, rank: Rank)
    requires NoLater(a, b, rank)
    ensures PlacedNoLater(a, b)
  {
    assert PlacedAt(a, a.OrderTime()) && PlacedAt(b, b.OrderTime());
  }

  // ----- the decision -----

  ghost predicate AnyDocument(priors: seq<Disclosure>, current: Disclosure) {
    exists d :: d in priors && OneDocument(d, current)
  }

  ghost predicate AnyPrecedes(priors: seq<Disclosure>, current: Disclosure) {
    exists d :: d in priors && Precedes(d, current)
  }

  ghost predicate AnyShares(priors: seq<Disclosure>, current: Disclosure) {
    exists d :: d in priors && SharesEntity(d, current)
  }

  /** The latest of the priors that the current disclosure takes up. */
  ghost predicate LatestPreceding(prior: Disclosure, priors: seq<Disclosure>, current: Disclosure) {
    && prior in priors && Precedes(prior, current)
    && forall d <- priors :: Precedes(d, current) ==> PlacedNoLater(d, prior)
  }

  /** The whole decision, one disposition at a time, with the prior that the lineage names. */
  ghost predicate DecidedAs(lineage: Lineage, current: Disclosure, priors: seq<Disclosure>, searchComplete: bool) {
    && lineage.current == current
    && if current.context == HistoricalContext then
         lineage.disposition == HistoricalOnly && lineage.prior == None && lineage.reason == ExplicitHistory
       else if AnyDocument(priors, current) then
         && lineage.disposition == DuplicateDisclosure && lineage.reason == SameSourceDocument
         && lineage.prior.Some? && lineage.prior.value in priors && OneDocument(lineage.prior.value, current)
       else if AnyPrecedes(priors, current) then
         && lineage.prior.Some? && LatestPreceding(lineage.prior.value, priors, current)
         && (if SaysMore(lineage.prior.value, current)
             then lineage.disposition == MaterialUpdate && lineage.reason == MaterialFactChanged
             else lineage.disposition == RecapExistingEvent && lineage.reason == NoNewMaterialFact)
       else
         && lineage.prior == None
         && (if AnyShares(priors, current) then lineage.disposition == UnknownNovelty && lineage.reason == AmbiguousRelationship
             else if searchComplete then lineage.disposition == NewEvent && lineage.reason == NoRelatedEvent
             else lineage.disposition == UnknownNovelty && lineage.reason == SearchIncomplete)
  }

  lemma SameFound(priors: seq<Disclosure>, current: Disclosure)
    ensures FirstSame(priors, current).Some? <==> AnyDocument(priors, current)
    ensures FirstSame(priors, current).Some? ==> OneDocument(FirstSame(priors, current).value, current)
  {
    forall d ensures OneDocument(d, current) <==> SameDocument(d, current) { OneDocumentIff(d, current); }
    var found := FirstSame(priors, current);
    if found.Some? { assert found.value in priors && OneDocument(found.value, current); }
  }

  lemma RelatedFound(priors: seq<Disclosure>, current: Disclosure)
    ensures RelatedOf(priors, current) != [] <==> AnyPrecedes(priors, current)
    ensures forall d :: d in RelatedOf(priors, current) <==> d in priors && Precedes(d, current)
  {
    var related := RelatedOf(priors, current);
    forall d ensures d in related <==> d in priors && Precedes(d, current) { PrecedesIff(d, current); }
    if related != [] { assert related[0] in related; }
  }

  lemma OverlapFound(priors: seq<Disclosure>, current: Disclosure)
    ensures (exists d <- priors :: Overlaps(d, current)) <==> AnyShares(priors, current)
  {
    forall d ensures SharesEntity(d, current) <==> Overlaps(d, current) { SharesEntityIff(d, current); }
    if AnyShares(priors, current) {
      var d :| d in priors && SharesEntity(d, current);
      assert Overlaps(d, current);
    }
  }

  lemma NewestPrecedes(related: seq<Disclosure>, priors: seq<Disclosure>, current: Disclosure, rank: Rank)
    requires related != [] && forall d :: d in related <==> d in priors && Precedes(d, current)
    ensures LatestPreceding(Newest(related, rank), priors, current)
  {
    NewestIsLast(related, rank);
    var newest := Newest(related, rank);
    forall d | d in priors && Precedes(d, current) ensures PlacedNoLater(d, newest) {
      assert d in related;
      PlacedBefore(d, newest, rank);
    }
  }

  lemma DecidedFrom(current: Disclosure, priors: seq<Disclosure>, same: Option<Disclosure>, first: Option<Disclosure>,
                    related: seq<Disclosure>, overlapping: bool, searchComplete: bool, rank: Rank)
    requires same.Some? <==> AnyDocument(priors, current)
    requires same.Some? ==> same.value in priors && OneDocument(same.value, current)
    requires related != [] <==> AnyPrecedes(priors, current)
    requires related != [] ==>
      && LatestPreceding(Newest(related, rank), priors, current)
      && (SaysMore(Newest(related, rank), current) <==> AddsMaterial(Newest(related, rank), current))
    requires overlapping <==> AnyShares(priors, current)
    ensures DecidedAs(Decide(current, same, first, related, overlapping, searchComplete, rank), current, priors, searchComplete)
  {
  }

  /** The classification, decided from the fields: history first, then the same document, then the latest
      prior that the disclosure takes up, an update exactly if it says more than that one; then a shared
      entity makes it unknown, and only a complete search makes it new. */
  lemma ClassifiedIff(current: Disclosure, priors: seq<Disclosure>, searchComplete: bool, rank: Rank)
    ensures DecidedAs(Classify(current, priors, searchComplete, rank), current, priors, searchComplete)
  {
    SameFound(priors, current);
    RelatedFound(priors, current);
    OverlapFound(priors, current);
    var related := RelatedOf(priors, current);
    if related != [] {
      NewestPrecedes(related, priors, current, rank);
      SaysMoreIff(Newest(related, rank), current);
    }
    DecidedFrom(current, priors, FirstSame(priors, current), FirstKnown(priors, rank), related,
                exists d <- priors :: Overlaps(d, current), searchComplete, rank);
  }

  // ----- when the event was first known -----

  /** The first-known time is given exactly when all these disclosures were published at a known time; it is
      the earliest of those times, with the source it comes from. */
  ghost predicate FirstOf(lineage: Lineage, known: seq<Disclosure>) {
    && (lineage.firstKnownAt.Some? <==> forall d <- known :: d.source.publishedAt.Some?)
    && (lineage.firstKnownAt.Some? ==>
          && (exists d :: d in known && lineage.firstKnown == Some(d.source) && lineage.firstKnownAt == d.source.publishedAt)
          && forall d <- known :: lineage.firstKnownAt.value <= d.source.publishedAt.value)
  }

  predicate Names(lineage: Lineage, first: Option<Disclosure>) {
    && lineage.firstKnown == (if first.Some? then Some(first.value.source) else None)
    && lineage.firstKnownAt == (if first.Some? then first.value.source.publishedAt else None)
  }

  lemma NamesFirst(lineage: Lineage, known: seq<Disclosure>, rank: Rank)
    requires known != [] && Names(lineage, FirstKnown(known, rank))
    ensures FirstOf(lineage, known)
  {
    RelatedFirstKnown(known, rank);
    var first := FirstKnown(known, rank);
    if first.Some? { assert first.value in known; }
  }

  predicate IsRevision(disposition: Disposition) { disposition == MaterialUpdate || disposition == RecapExistingEvent }

  lemma DecideNames(current: Disclosure, same: Option<Disclosure>, first: Option<Disclosure>, related: seq<Disclosure>,
                    overlapping: bool, searchComplete: bool, rank: Rank)
    ensures var lineage := Decide(current, same, first, related, overlapping, searchComplete, rank);
      if lineage.disposition == DuplicateDisclosure then same.Some? && Names(lineage, first)
      else if IsRevision(lineage.disposition) then related != [] && Names(lineage, FirstKnown(related, rank))
      else Names(lineage, None)
  {
  }

  /** The disclosures of the priors that the current one takes up. */
  ghost predicate Preceding(related: seq<Disclosure>, priors: seq<Disclosure>, current: Disclosure) {
    forall d :: d in related <==> d in priors && Precedes(d, current)
  }

  lemma NamedAmong(lineage: Lineage, related: seq<Disclosure>, priors: seq<Disclosure>, current: Disclosure, rank: Rank)
    requires related != [] && Preceding(related, priors, current) && Names(lineage, FirstKnown(related, rank))
    ensures FirstOfPreceding(lineage, priors, current)
  {
    NamesFirst(lineage, related, rank);
  }

  ghost predicate FirstOfPreceding(lineage: Lineage, priors: seq<Disclosure>, current: Disclosure) {
    exists related :: Preceding(related, priors, current) && FirstOf(lineage, related)
  }

  /** A duplicate names the first of all priors, an update or a recap the first of those it takes up, and
      nothing else names any. */
  lemma FirstKnownStates(current: Disclosure, priors: seq<Disclosure>, searchComplete: bool, rank: Rank)
    ensures var lineage := Classify(current, priors, searchComplete, rank);
      if lineage.disposition == DuplicateDisclosure then FirstOf(lineage, priors)
      else if IsRevision(lineage.disposition) then FirstOfPreceding(lineage, priors, current)
      else lineage.firstKnown == None && lineage.firstKnownAt == None
  {
    var same, first, related := FirstSame(priors, current), FirstKnown(priors, rank), RelatedOf(priors, current);
    var overlapping := exists d <- priors :: Overlaps(d, current);
    var lineage := Decide(current, same, first, related, overlapping, searchComplete, rank);
    DecideNames(current, same, first, related, overlapping, searchComplete, rank);
    RelatedFound(priors, current);
    if lineage.disposition == DuplicateDisclosure {
      NamesFirst(lineage, priors, rank);
    } else if IsRevision(lineage.disposition) {
      NamedAmong(lineage, related, priors, current, rank);
    }
  }
}
