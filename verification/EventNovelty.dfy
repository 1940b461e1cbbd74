/** Novelty of an event disclosure against the prior disclosures of the same issuer. */
module EventNovelty {
  import opened Calendar
  import opened Codes
  import opened Filtering
  import opened Outcomes
  import opened Ordering
  import opened SecIdentifiers

  datatype Category = StrategicPartnership

  datatype Context = CurrentEvent | HistoricalContext

  datatype NumericKind = Amount | Percentage | ShareCount

  datatype Comparator = Exact | GreaterThan | AtLeast | UpTo | Approximately

  /** A reported number as it is written: its digits and how many of them follow the point. */
  datatype NumericFact = NumericFact(
    kind: NumericKind, digits: nat, places: nat, unit: string, comparator: Comparator, basis: string)
  {
    /** The field's own limits: positive, at most 30 digits, at most 8 of them after the point. */
    predicate Valid() { 0 < digits < Power10(30) && places <= 8 }
  }

  function Power10(n: nat): (p: nat)
    ensures 0 < p
  {
    if n == 0 then 1 else 10 * Power10(n - 1)
  }

  datatype EventSource = EventSource(
    hash: nat, publishedAt: Option<Instant>, availableAt: Option<Instant>, retrievedAt: Instant)
  {
    predicate Valid() {
      && (availableAt.Some? && publishedAt.Some? ==> publishedAt.value <= availableAt.value)
      && (availableAt.Some? ==> availableAt.value <= retrievedAt)
      && (availableAt.None? && publishedAt.Some? ==> publishedAt.value <= retrievedAt)
    }
  }

  /** The event fingerprint as an ideal digest of what it hashes. */
  datatype Fingerprint = Fingerprint(cik: string, category: Category, entities: seq<string>)

  /** What the disclosure identifier is derived from. */
  datatype DisclosureId = DisclosureId(cik: string, sourceHash: nat, event: Fingerprint)

  datatype Disclosure = Disclosure(
    issuer: string,
    category: Category,
    context: Context,
    entities: seq<string>,
    dates: seq<Day>,
    facts: seq<NumericFact>,
    source: EventSource)
  {
    predicate Valid() {
      && 1 <= |issuer| <= 10
      && 1 <= |entities| <= 32 && NoDuplicates(entities) && SortedBy(entities, TextLeq)
      && |dates| <= 8 && NoDuplicates(dates)
      && |facts| <= 24 && (forall f <- facts :: f.Valid())
      && source.Valid()
    }

    predicate NamesEntities() { entities != [] }

    predicate CanonicalIssuer() { |issuer| == 10 }

    function Event(): Fingerprint { Fingerprint(Padded(issuer), category, entities) }

    function Id(): DisclosureId { DisclosureId(Padded(issuer), source.hash, Event()) }

    /** When the source was published or, failing that, retrieved. */
    function OrderTime(): Instant { if source.publishedAt.Some? then source.publishedAt.value else source.retrievedAt }
  }

  datatype Disposition = NewEvent | MaterialUpdate | RecapExistingEvent | DuplicateDisclosure | HistoricalOnly | UnknownNovelty

  datatype Reason = NoRelatedEvent | MaterialFactChanged | NoNewMaterialFact | SameSourceDocument | ExplicitHistory
    | SearchIncomplete | AmbiguousRelationship

  predicate Fits(disposition: Disposition, reason: Reason) {
    match disposition
    case NewEvent => reason.NoRelatedEvent?
    case MaterialUpdate => reason.MaterialFactChanged?
    case RecapExistingEvent => reason.NoNewMaterialFact?
    case DuplicateDisclosure => reason.SameSourceDocument?
    case HistoricalOnly => reason.ExplicitHistory?
    case UnknownNovelty => reason.SearchIncomplete? || reason.AmbiguousRelationship?
  }

  datatype Lineage = Lineage(
    current: Disclosure,
    prior: Option<Disclosure>,
    firstKnown: Option<EventSource>,
    firstKnownAt: Option<Instant>,
    disposition: Disposition,
    reason: Reason,
    searchComplete: bool)
  {
    /** The record's validator. */
    predicate Valid() {
      && (firstKnownAt.Some? ==> firstKnown.Some? && firstKnown.value.publishedAt == firstKnownAt)
      && Fits(disposition, reason)
      && (disposition.MaterialUpdate? || disposition.RecapExistingEvent? || disposition.DuplicateDisclosure? ==> prior.Some?)
      && (disposition.NewEvent? ==> searchComplete)
    }
  }

  // ----- relations between two disclosures -----

  predicate SameIssuerAndCategory(a: Disclosure, b: Disclosure) { a.issuer == b.issuer && a.category == b.category }

  predicate Related(previous: Disclosure, current: Disclosure) {
    && SameIssuerAndCategory(previous, current)
    && (previous.Event() == current.Event()
        || (previous.entities != [] && current.entities != [] && Members(previous.entities) < Members(current.entities)))
  }

  predicate Overlaps(previous: Disclosure, current: Disclosure) {
    SameIssuerAndCategory(previous, current) && Members(previous.entities) * Members(current.entities) != {}
  }

  predicate SameDocument(previous: Disclosure, current: Disclosure) {
    previous.source.hash == current.source.hash && previous.Event() == current.Event()
  }

  predicate AddsMaterial(previous: Disclosure, current: Disclosure) {
    || Members(current.entities) - Members(previous.entities) != {}
    || Members(current.dates) - Members(previous.dates) != {}
    || Members(current.facts) - Members(previous.facts) != {}
  }

  // ----- choosing a prior -----

  type Rank = DisclosureId -> nat

  /** By time, then by the text of the identifier, which `rank` stands for. */
  predicate NoLater(a: Disclosure, b: Disclosure, rank: Rank) {
    a.OrderTime() < b.OrderTime() || (a.OrderTime() == b.OrderTime() && rank(a.Id()) <= rank(b.Id()))
  }

  function SourceOrder(rank: Rank): (Disclosure, Disclosure) -> bool { (a, b) => NoLater(a, b, rank) }

  function FirstSame(priors: seq<Disclosure>, current: Disclosure): (found: Option<Disclosure>)
    ensures found.Some? ==> found.value in priors && SameDocument(found.value, current)
    ensures found.None? ==> forall d <- priors :: !SameDocument(d, current)
  {
    if |priors| == 0 then None
    else if SameDocument(priors[0], current) then Some(priors[0])
    else FirstSame(priors[1..], current)
  }

  function RelatedTo(current: Disclosure): Disclosure -> bool { (d: Disclosure) => Related(d, current) }

  function RelatedOf(priors: seq<Disclosure>, current: Disclosure): (related: seq<Disclosure>)
    ensures forall d :: d in related <==> d in priors && Related(d, current)
  {
    Keep(priors, RelatedTo(current))
  }

  /** The last of the disclosures in source order. */
  function Newest(related: seq<Disclosure>, rank: Rank): (d: Disclosure)
    requires related != []
    ensures d in related
  {
    var sorted := Sort(related, SourceOrder(rank));
    MembersOfMultiset(related, sorted);
    sorted[|sorted| - 1]
  }

  /** The earliest disclosure, the first one of several equally early. */
  function Earliest(priors: seq<Disclosure>, rank: Rank): (d: Disclosure)
    requires priors != []
    ensures d in priors
  {
    var last := priors[|priors| - 1];
    if |priors| == 1 then last
    else
      var before := Earliest(priors[..|priors| - 1], rank);
      if NoLater(before, last, rank) then before else last
  }

  function FirstKnown(priors: seq<Disclosure>, rank: Rank): (first: Option<Disclosure>)
    ensures first.Some? ==> first.value in priors
  {
    if priors == [] then None
    else if |priors| == 1 then Some(priors[0])
    else if exists d <- priors :: d.source.publishedAt.None? then None
    else Some(Earliest(priors, rank))
  }

  function ToLineage(current: Disclosure, prior: Option<Disclosure>, first: Option<Disclosure>, disposition: Disposition,
                     reason: Reason, searchComplete: bool): (lineage: Lineage)
    ensures lineage.Valid() <==>
      && Fits(disposition, reason) && (disposition.NewEvent? ==> searchComplete)
      && (disposition.MaterialUpdate? || disposition.RecapExistingEvent? || disposition.DuplicateDisclosure? ==> prior.Some?)
  {
    var source := if first.Some? then Some(first.value.source) else None;
    Lineage(current, prior, source, if source.Some? then source.value.publishedAt else None, disposition, reason,
            searchComplete)
  }

  function ClassifyRelated(current: Disclosure, related: seq<Disclosure>, searchComplete: bool, rank: Rank): (lineage: Lineage)
    requires related != []
    ensures lineage.Valid()
  {
    var prior := Newest(related, rank);
    if AddsMaterial(prior, current)
    then ToLineage(current, Some(prior), FirstKnown(related, rank), MaterialUpdate, MaterialFactChanged, searchComplete)
    else ToLineage(current, Some(prior), FirstKnown(related, rank), RecapExistingEvent, NoNewMaterialFact, searchComplete)
  }

  /** The decision path, in the order the comparisons are made. The record's own checks never reject. */
  function Classify(current: Disclosure, priors: seq<Disclosure>, searchComplete: bool, rank: Rank): (lineage: Lineage)
    ensures lineage.Valid()
  {
    Decide(current, FirstSame(priors, current), FirstKnown(priors, rank), RelatedOf(priors, current),
           exists d <- priors :: Overlaps(d, current), searchComplete, rank)
  }

  function Decide(current: Disclosure, same: Option<Disclosure>, first: Option<Disclosure>, related: seq<Disclosure>,
                  overlapping: bool, searchComplete: bool, rank: Rank): (lineage: Lineage)
    ensures lineage.Valid()
  {
    if current.context.HistoricalContext? then
      ToLineage(current, None, None, HistoricalOnly, ExplicitHistory, searchComplete)
    else if same.Some? then ToLineage(current, same, first, DuplicateDisclosure, SameSourceDocument, searchComplete)
    else if related != [] then ClassifyRelated(current, related, searchComplete, rank)
    else if overlapping then ToLineage(current, None, None, UnknownNovelty, AmbiguousRelationship, searchComplete)
    else if searchComplete then ToLineage(current, None, None, NewEvent, NoRelatedEvent, true)
    else ToLineage(current, None, None, UnknownNovelty, SearchIncomplete, false)
  }

  // ----- what the classification means -----

  lemma RelatedOverlap(previous: Disclosure, current: Disclosure)
    requires previous.NamesEntities() && current.NamesEntities() && Related(previous, current)
    ensures Overlaps(previous, current)
  {
    assert previous.entities[0] in Members(previous.entities);
    assert previous.entities[0] in Members(previous.entities) * Members(current.entities);
  }

  predicate AllNameEntities(priors: seq<Disclosure>) { forall d <- priors :: d.NamesEntities() }

  /** A new event is declared exactly for a current event after a complete search in which no prior
      disclosure of the same issuer and category shares an entity, and none is the same document. */
  lemma NewEventIff(current: Disclosure, priors: seq<Disclosure>, searchComplete: bool, rank: Rank)
    requires current.NamesEntities() && AllNameEntities(priors)
    ensures Classify(current, priors, searchComplete, rank).disposition.NewEvent? <==>
      && current.context.CurrentEvent? && searchComplete
      && (forall d <- priors :: !Overlaps(d, current) && !SameDocument(d, current))
  {
    var related := RelatedOf(priors, current);
    forall d | d in related ensures d in priors && Overlaps(d, current) { RelatedOverlap(d, current); }
    assert related != [] ==> related[0] in related;
  }

  /** With ten-digit issuer keys the same document always shares an entity, so sharing none is enough. */
  lemma CanonicalNewEventIff(current: Disclosure, priors: seq<Disclosure>, searchComplete: bool, rank: Rank)
    requires current.NamesEntities() && AllNameEntities(priors)
    requires current.CanonicalIssuer() && forall d <- priors :: d.CanonicalIssuer()
    ensures Classify(current, priors, searchComplete, rank).disposition.NewEvent? <==>
      && current.context.CurrentEvent? && searchComplete
      && (forall d <- priors :: !Overlaps(d, current))
  {
    NewEventIff(current, priors, searchComplete, rank);
    forall d | d in priors && SameDocument(d, current) ensures Overlaps(d, current) {
      SameDocumentOverlaps(d, current);
    }
  }

  lemma SameDocumentOverlaps(d: Disclosure, current: Disclosure)
    requires d.NamesEntities() && d.CanonicalIssuer() && current.CanonicalIssuer() && SameDocument(d, current)
    ensures Overlaps(d, current)
  {
    assert d.Event().cik == d.issuer && current.Event().cik == current.issuer;
    assert d.entities[0] in Members(d.entities) * Members(current.entities);
  }

  /** Knowing more priors never turns anything into a new event. */
  lemma MorePriorsNeverCreateNewEvent(current: Disclosure, priors: seq<Disclosure>, more: seq<Disclosure>,
                                      searchComplete: bool, rank: Rank)
    requires current.NamesEntities() && AllNameEntities(more) && forall d <- priors :: d in more
    requires Classify(current, more, searchComplete, rank).disposition.NewEvent?
    ensures Classify(current, priors, searchComplete, rank).disposition.NewEvent?
  {
    NewEventIff(current, more, searchComplete, rank);
    NewEventIff(current, priors, searchComplete, rank);
  }

  lemma UpdateComesFromRelated(current: Disclosure, same: Option<Disclosure>, first: Option<Disclosure>,
                               related: seq<Disclosure>, overlapping: bool, searchComplete: bool, rank: Rank)
    requires var d := Decide(current, same, first, related, overlapping, searchComplete, rank).disposition;
      d.MaterialUpdate? || d.RecapExistingEvent?
    ensures related != []
    ensures Decide(current, same, first, related, overlapping, searchComplete, rank)
      == ClassifyRelated(current, related, searchComplete, rank)
  {
  }

  lemma DecidedByRelated(current: Disclosure, priors: seq<Disclosure>, searchComplete: bool, rank: Rank)
    requires var d := Classify(current, priors, searchComplete, rank).disposition; d.MaterialUpdate? || d.RecapExistingEvent?
    ensures RelatedOf(priors, current) != []
    ensures Classify(current, priors, searchComplete, rank)
      == ClassifyRelated(current, RelatedOf(priors, current), searchComplete, rank)
  {
    UpdateComesFromRelated(current, FirstSame(priors, current), FirstKnown(priors, rank), RelatedOf(priors, current),
                           exists d <- priors :: Overlaps(d, current), searchComplete, rank);
  }

  /** The prior already has every entity, every date and every number as it is written. */
  predicate Covers(prior: Disclosure, current: Disclosure) {
    && Members(current.entities) <= Members(prior.entities)
    && Members(current.dates) <= Members(prior.dates)
    && Members(current.facts) <= Members(prior.facts)
  }

  lemma CoversIff(prior: Disclosure, current: Disclosure)
    ensures Covers(prior, current) <==> !AddsMaterial(prior, current)
  {
    SubsetByDifference(Members(current.entities), Members(prior.entities));
    SubsetByDifference(Members(current.dates), Members(prior.dates));
    SubsetByDifference(Members(current.facts), Members(prior.facts));
  }

  lemma DecideRecapIff(current: Disclosure, same: Option<Disclosure>, first: Option<Disclosure>, related: seq<Disclosure>,
                       overlapping: bool, searchComplete: bool, rank: Rank)
    ensures Decide(current, same, first, related, overlapping, searchComplete, rank).disposition.RecapExistingEvent? <==>
      current.context.CurrentEvent? && same.None? && related != [] && !AddsMaterial(Newest(related, rank), current)
  {
  }

  /** Exactly when a disclosure is a recap: a current event, not the same document as any prior, with
      related priors of which the newest covers it. */
  lemma RecapIff(current: Disclosure, priors: seq<Disclosure>, searchComplete: bool, rank: Rank)
    ensures Classify(current, priors, searchComplete, rank).disposition.RecapExistingEvent? <==>
      && current.context.CurrentEvent? && (forall d <- priors :: !SameDocument(d, current))
      && RelatedOf(priors, current) != [] && Covers(Newest(RelatedOf(priors, current), rank), current)
  {
    var related := RelatedOf(priors, current);
    DecideRecapIff(current, FirstSame(priors, current), FirstKnown(priors, rank), related,
                   exists d <- priors :: Overlaps(d, current), searchComplete, rank);
    if related != [] { CoversIff(Newest(related, rank), current); }
  }

  /** A recap names a prior with the same entities that already had every date and every number. */
  lemma RecapIsCovered(current: Disclosure, priors: seq<Disclosure>, searchComplete: bool, rank: Rank)
    requires Classify(current, priors, searchComplete, rank).disposition.RecapExistingEvent?
    ensures var prior := Classify(current, priors, searchComplete, rank).prior;
      && prior.Some? && prior.value in priors && SameIssuerAndCategory(prior.value, current)
      && Members(prior.value.entities) == Members(current.entities)
      && Members(current.dates) <= Members(prior.value.dates)
      && Members(current.facts) <= Members(prior.value.facts)
  {
    DecidedByRelated(current, priors, searchComplete, rank);
    var prior := Newest(RelatedOf(priors, current), rank);
    assert Related(prior, current) && !AddsMaterial(prior, current);
    CoversIff(prior, current);
  }

  lemma SubsetByDifference<T>(a: set<T>, b: set<T>)
    ensures a - b == {} <==> a <= b
  {
    assert a - b == {} ==> forall x :: x in a ==> x in b || x in a - b;
  }

  /** Updates and recaps are measured against the newest related prior. */
  lemma PriorIsNewest(current: Disclosure, priors: seq<Disclosure>, searchComplete: bool, rank: Rank)
    requires var d := Classify(current, priors, searchComplete, rank).disposition; d.MaterialUpdate? || d.RecapExistingEvent?
    ensures var prior := Classify(current, priors, searchComplete, rank).prior.value;
      && Related(prior, current)
      && forall d <- priors :: Related(d, current) ==> NoLater(d, prior, rank)
  {
    DecidedByRelated(current, priors, searchComplete, rank);
    NewestIsLast(RelatedOf(priors, current), rank);
  }

  lemma SourceOrderIsTotal(rank: Rank)
    ensures TotalPreorder(SourceOrder(rank))
  {
  }

  lemma NewestIsLast(related: seq<Disclosure>, rank: Rank)
    requires related != []
    ensures forall d <- related :: NoLater(d, Newest(related, rank), rank)
  {
    var sorted := Sort(related, SourceOrder(rank));
    SourceOrderIsTotal(rank);
    SortSorts(related, SourceOrder(rank));
    MembersOfMultiset(related, sorted);
    forall d | d in related ensures NoLater(d, sorted[|sorted| - 1], rank) {
      assert d in sorted;
      var i :| 0 <= i < |sorted| && sorted[i] == d;
      if i < |sorted| - 1 { assert SourceOrder(rank)(sorted[i], sorted[|sorted| - 1]); }
    }
  }

  // ----- the order of the priors -----

  ghost predicate Identifies(rank: Rank) { forall a, b :: rank(a) == rank(b) ==> a == b }

  /** An order of identifiers that tells them apart. */
  function SampleRank(): Rank {
    (id: DisclosureId) => Pair(Pair(Text(id.cik), id.sourceHash), Pair(Text(id.event.cik), Texts(id.event.entities)))
  }

  /** What is assumed of the order of identifiers can be met. */
  lemma SomeRankIdentifies()
    ensures Identifies(SampleRank())
  {
    var rank := SampleRank();
    forall a, b | rank(a) == rank(b) ensures a == b {
      PairTellsApart(Pair(Text(a.cik), a.sourceHash), Pair(Text(a.event.cik), Texts(a.event.entities)),
                     Pair(Text(b.cik), b.sourceHash), Pair(Text(b.event.cik), Texts(b.event.entities)));
      PairTellsApart(Text(a.cik), a.sourceHash, Text(b.cik), b.sourceHash);
      PairTellsApart(Text(a.event.cik), Texts(a.event.entities), Text(b.event.cik), Texts(b.event.entities));
      TextTellsApart(a.cik, b.cik);
      TextTellsApart(a.event.cik, b.event.cik);
      TextsTellApart(a.event.entities, b.event.entities);
    }
  }

  function IdOf(d: Disclosure): DisclosureId { d.Id() }

  lemma SameDocumentSameId(a: Disclosure, b: Disclosure, current: Disclosure)
    requires SameDocument(a, current) && SameDocument(b, current)
    ensures a.Id() == b.Id()
  {
    assert a.Event().cik == b.Event().cik;
  }

  lemma FirstSameIgnoresOrder(a: seq<Disclosure>, b: seq<Disclosure>, current: Disclosure)
    requires multiset(a) == multiset(b) && DistinctKeys(a, IdOf)
    ensures FirstSame(a, current) == FirstSame(b, current)
  {
    MembersOfMultiset(a, b);
    var x, y := FirstSame(a, current), FirstSame(b, current);
    if x.Some? && y.Some? {
      SameDocumentSameId(x.value, y.value, current);
      SameKeySameElement(a, IdOf, x.value, y.value);
    }
  }

  ghost predicate Separate(priors: seq<Disclosure>) {
    forall x, y | x in priors && y in priors && x.Id() == y.Id() :: x == y
  }

  lemma OrderSeparates(a: seq<Disclosure>, rank: Rank)
    requires Separate(a) && Identifies(rank)
    ensures forall x, y | x in a && y in a && SourceOrder(rank)(x, y) && SourceOrder(rank)(y, x) :: x == y
  {
    forall x, y | x in a && y in a && SourceOrder(rank)(x, y) && SourceOrder(rank)(y, x) ensures x == y {
      assert rank(x.Id()) == rank(y.Id());
    }
  }

  lemma NewestIgnoresOrder(a: seq<Disclosure>, b: seq<Disclosure>, rank: Rank)
    requires multiset(a) == multiset(b) && a != [] && b != [] && Separate(a) && Identifies(rank)
    ensures Newest(a, rank) == Newest(b, rank)
  {
    SourceOrderIsTotal(rank);
    OrderSeparates(a, rank);
    SortIgnoresOrder(a, b, SourceOrder(rank));
  }

  lemma {:induction false} EarliestIsFirst(priors: seq<Disclosure>, rank: Rank)
    requires priors != []
    ensures forall d <- priors :: NoLater(Earliest(priors, rank), d, rank)
  {
    if |priors| > 1 {
      var front, last := priors[..|priors| - 1], priors[|priors| - 1];
      assert priors == front + [last];
      EarliestIsFirst(front, rank);
    }
  }

  lemma FirstKnownIgnoresOrder(a: seq<Disclosure>, b: seq<Disclosure>, rank: Rank)
    requires multiset(a) == multiset(b) && Separate(a) && Identifies(rank)
    ensures FirstKnown(a, rank) == FirstKnown(b, rank)
  {
    assert |multiset(a)| == |multiset(b)|;
    MembersOfMultiset(a, b);
    if |a| > 1 {
      EarliestIsFirst(a, rank);
      EarliestIsFirst(b, rank);
      assert rank(Earliest(a, rank).Id()) == rank(Earliest(b, rank).Id());
    } else if |a| == 1 {
      assert a[0] in b && b[0] in a;
    }
  }

  lemma DistinctIsSeparate(priors: seq<Disclosure>)
    requires DistinctKeys(priors, IdOf)
    ensures Separate(priors)
  {
    forall x, y | x in priors && y in priors && x.Id() == y.Id() ensures x == y {
      SameKeySameElement(priors, IdOf, x, y);
    }
  }

  lemma ClassifyRelatedIgnoresOrder(current: Disclosure, a: seq<Disclosure>, b: seq<Disclosure>, searchComplete: bool, rank: Rank)
    requires multiset(a) == multiset(b) && a != [] && b != [] && Separate(a) && Identifies(rank)
    ensures ClassifyRelated(current, a, searchComplete, rank) == ClassifyRelated(current, b, searchComplete, rank)
  {
    NewestIgnoresOrder(a, b, rank);
    FirstKnownIgnoresOrder(a, b, rank);
  }

  lemma DecideIgnoresOrder(current: Disclosure, same: Option<Disclosure>, first: Option<Disclosure>, a: seq<Disclosure>,
                           b: seq<Disclosure>, overlapping: bool, searchComplete: bool, rank: Rank)
    requires multiset(a) == multiset(b) && Separate(a) && Identifies(rank)
    ensures Decide(current, same, first, a, overlapping, searchComplete, rank)
      == Decide(current, same, first, b, overlapping, searchComplete, rank)
  {
    assert |multiset(a)| == |multiset(b)|;
    if a != [] { ClassifyRelatedIgnoresOrder(current, a, b, searchComplete, rank); }
  }

  lemma OverlapIgnoresOrder(a: seq<Disclosure>, b: seq<Disclosure>, current: Disclosure)
    requires multiset(a) == multiset(b)
    ensures (exists d <- a :: Overlaps(d, current)) == (exists d <- b :: Overlaps(d, current))
  {
    MembersOfMultiset(a, b);
  }

  lemma RelatedIgnoresOrder(a: seq<Disclosure>, b: seq<Disclosure>, current: Disclosure)
    requires multiset(a) == multiset(b) && Separate(a)
    ensures multiset(RelatedOf(a, current)) == multiset(RelatedOf(b, current)) && Separate(RelatedOf(a, current))
  {
    KeepRearranged(a, b, RelatedTo(current));
  }

  /** The order in which prior disclosures are handed in never matters, once they are distinct records. */
  lemma ClassifyIgnoresOrder(current: Disclosure, a: seq<Disclosure>, b: seq<Disclosure>, searchComplete: bool, rank: Rank)
    requires multiset(a) == multiset(b) && DistinctKeys(a, IdOf) && Identifies(rank)
    ensures Classify(current, a, searchComplete, rank) == Classify(current, b, searchComplete, rank)
  {
    DistinctIsSeparate(a);
    FirstSameIgnoresOrder(a, b, current);
    FirstKnownIgnoresOrder(a, b, rank);
    RelatedIgnoresOrder(a, b, current);
    OverlapIgnoresOrder(a, b, current);
    DecideIgnoresOrder(current, FirstSame(a, current), FirstKnown(a, rank), RelatedOf(a, current), RelatedOf(b, current),
                       exists d <- a :: Overlaps(d, current), searchComplete, rank);
  }

  lemma RelatedFirstKnown(related: seq<Disclosure>, rank: Rank)
    requires related != []
    ensures var first := FirstKnown(related, rank); var at := if first.Some? then first.value.source.publishedAt else None;
      && (at.Some? <==> forall d <- related :: d.source.publishedAt.Some?)
      && (at.Some? ==> forall d <- related :: at.value <= d.source.publishedAt.value)
  {
    EarliestIsFirst(related, rank);
    if |related| == 1 { assert related[0] in related; }
  }

  /** The first-known time of an update or a recap is the publication time of the earliest related
      disclosure; it is given exactly when every related one has such a time. */
  lemma FirstKnownIsEarliest(current: Disclosure, priors: seq<Disclosure>, searchComplete: bool, rank: Rank)
    requires var d := Classify(current, priors, searchComplete, rank).disposition; d.MaterialUpdate? || d.RecapExistingEvent?
    ensures var at := Classify(current, priors, searchComplete, rank).firstKnownAt;
      && (at.Some? <==> forall d <- RelatedOf(priors, current) :: d.source.publishedAt.Some?)
      && (at.Some? ==> forall d <- RelatedOf(priors, current) :: at.value <= d.source.publishedAt.value)
  {
    DecidedByRelated(current, priors, searchComplete, rank);
    RelatedFirstKnown(RelatedOf(priors, current), rank);
  }

  // ----- numbers that are only written differently -----

  /** The same number of the same kind, however it is written. */
  predicate SameNumber(f: NumericFact, g: NumericFact) {
    && f.kind == g.kind && f.unit == g.unit && f.comparator == g.comparator && f.basis == g.basis
    && f.digits * Power10(g.places) == g.digits * Power10(f.places)
  }

  lemma SamePlacesSameDigits(f: NumericFact, g: NumericFact)
    requires SameNumber(f, g) && f.places == g.places
    ensures f == g
  {
    var p := Power10(f.places);
    assert (f.digits - g.digits) * p == 0;
  }

  /** Every number of the disclosure is one the prior already had. */
  predicate Restates(current: Disclosure, prior: Disclosure) {
    forall f <- current.facts :: exists g <- prior.facts :: SameNumber(f, g)
  }

  /** Each of them is also written to as many places as there. */
  predicate WrittenAlike(current: Disclosure, prior: Disclosure) {
    forall f <- current.facts :: exists g <- prior.facts :: SameNumber(f, g) && f.places == g.places
  }

  lemma WrittenAlikeIff(current: Disclosure, prior: Disclosure)
    ensures WrittenAlike(current, prior) <==> Members(current.facts) <= Members(prior.facts)
  {
    if WrittenAlike(current, prior) {
      forall f | f in current.facts ensures f in prior.facts {
        var g :| g in prior.facts && SameNumber(f, g) && f.places == g.places;
        SamePlacesSameDigits(f, g);
      }
    }
    if Members(current.facts) <= Members(prior.facts) {
      forall f | f in current.facts ensures f in prior.facts && SameNumber(f, f) {
        assert f in Members(current.facts);
      }
    }
  }

  /** A numerically unchanged redisclosure should be a recap. It is exactly when its numbers are written
      to the same number of decimal places as in the newest related prior; otherwise it is a material
      update. */
  lemma RestatementIsRecapIff(current: Disclosure, priors: seq<Disclosure>, searchComplete: bool, rank: Rank)
    requires current.context.CurrentEvent? && forall d <- priors :: !SameDocument(d, current)
    requires RelatedOf(priors, current) != []
    requires var prior := Newest(RelatedOf(priors, current), rank);
      && Members(current.entities) <= Members(prior.entities) && Members(current.dates) <= Members(prior.dates)
      && Restates(current, prior)
    ensures var disposition := Classify(current, priors, searchComplete, rank).disposition;
      var alike := WrittenAlike(current, Newest(RelatedOf(priors, current), rank));
      disposition == if alike then RecapExistingEvent else MaterialUpdate
  {
    var related := RelatedOf(priors, current);
    RecapIff(current, priors, searchComplete, rank);
    WrittenAlikeIff(current, Newest(related, rank));
    DecidedAmongRelated(current, FirstSame(priors, current), FirstKnown(priors, rank), related,
                        exists d <- priors :: Overlaps(d, current), searchComplete, rank);
  }

  lemma DecidedAmongRelated(current: Disclosure, same: Option<Disclosure>, first: Option<Disclosure>,
                            related: seq<Disclosure>, overlapping: bool, searchComplete: bool, rank: Rank)
    requires current.context.CurrentEvent? && same.None? && related != []
    ensures var d := Decide(current, same, first, related, overlapping, searchComplete, rank).disposition;
      d.RecapExistingEvent? || d.MaterialUpdate?
  {
  }

  /** The disclosure once more, from another document, with one of its numbers written to one more place. */
  function Rewritten(d: Disclosure, k: nat, hash: nat): Disclosure
    requires k < |d.facts|
  {
    d.(facts := d.facts[k := d.facts[k].(digits := d.facts[k].digits * 10, places := d.facts[k].places + 1)],
       source := d.source.(hash := hash))
  }

  lemma RewrittenRestates(d: Disclosure, k: nat, hash: nat)
    requires k < |d.facts|
    ensures Restates(Rewritten(d, k, hash), d)
  {
    var again := Rewritten(d, k, hash);
    forall f | f in again.facts ensures exists g <- d.facts :: SameNumber(f, g) {
      var i :| 0 <= i < |again.facts| && again.facts[i] == f;
      assert Power10(d.facts[k].places + 1) == 10 * Power10(d.facts[k].places);
      assert SameNumber(f, d.facts[i]);
    }
  }

  /** Whatever disclosure is redisclosed like that, with a place and a digit to spare, is a valid record,
      says the same numbers, and is a material update unless the new writing was there already. */
  lemma RewrittenAmountIsUpdate(d: Disclosure, k: nat, hash: nat, searchComplete: bool, rank: Rank)
    requires d.Valid() && d.context.CurrentEvent? && hash != d.source.hash && k < |d.facts|
    requires d.facts[k].places < 8 && d.facts[k].digits * 10 < Power10(30)
    ensures var again := Rewritten(d, k, hash);
      && again.Valid() && Restates(again, d)
      && (Classify(again, [d], searchComplete, rank).disposition
          == if again.facts[k] in d.facts then RecapExistingEvent else MaterialUpdate)
  {
    RewrittenIsValid(d, k, hash);
    RewrittenRestates(d, k, hash);
    RewrittenIsRelated(d, k, hash, rank);
    RestatementIsRecapIff(Rewritten(d, k, hash), [d], searchComplete, rank);
    RewrittenAlikeIff(d, k, hash);
  }

  lemma RewrittenIsValid(d: Disclosure, k: nat, hash: nat)
    requires d.Valid() && k < |d.facts| && d.facts[k].places < 8 && d.facts[k].digits * 10 < Power10(30)
    ensures Rewritten(d, k, hash).Valid()
  {
    var again := Rewritten(d, k, hash);
    forall f | f in again.facts ensures f.Valid() {
      var i :| 0 <= i < |again.facts| && again.facts[i] == f;
      assert d.facts[i].Valid();
    }
  }

  lemma RewrittenIsRelated(d: Disclosure, k: nat, hash: nat, rank: Rank)
    requires k < |d.facts|
    ensures RelatedOf([d], Rewritten(d, k, hash)) == [d] && Newest([d], rank) == d
  {
    assert Rewritten(d, k, hash).Event() == d.Event();
    KeepAll([d], RelatedTo(Rewritten(d, k, hash)));
  }

  lemma RewrittenAlikeIff(d: Disclosure, k: nat, hash: nat)
    requires k < |d.facts|
    ensures WrittenAlike(Rewritten(d, k, hash), d) <==> Rewritten(d, k, hash).facts[k] in d.facts
  {
    var again := Rewritten(d, k, hash);
    WrittenAlikeIff(again, d);
    if again.facts[k] in d.facts {
      forall f | f in again.facts ensures f in d.facts {
        var i :| 0 <= i < |again.facts| && again.facts[i] == f;
        assert i != k ==> f == d.facts[i];
      }
    } else {
      assert again.facts[k] in Members(again.facts);
    }
  }

  /** Twenty billion dollars, as "20000000000". */
  function TwentyBillion(): (d: Disclosure)
    ensures d.Valid() && d.context.CurrentEvent?
  {
    assert Power10(10) == 10_000_000_000;
    assert Power10(11) == 100_000_000_000;
    PowerGrows(11, 30);
    Disclosure("0000000001", StrategicPartnership, CurrentEvent, ["partner"], [],
               [NumericFact(Amount, 20_000_000_000, 0, "USD", Exact, "amount")],
               EventSource(0, None, None, 0))
  }

  lemma {:induction false} PowerGrows(m: nat, n: nat)
    requires m <= n
    ensures Power10(m) <= Power10(n)
  {
    if m < n { PowerGrows(m, n - 1); }
  }

  /** Written as "20000000000.0" in a second document, as scaling "20.0 billion" writes it, the same
      amount is a material update. */
  lemma TwentyBillionAgain(searchComplete: bool, rank: Rank)
    ensures Classify(Rewritten(TwentyBillion(), 0, 1), [TwentyBillion()], searchComplete, rank).disposition.MaterialUpdate?
  {
    PowerGrows(12, 30);
    RewrittenAmountIsUpdate(TwentyBillion(), 0, 1, searchComplete, rank);
  }
}
