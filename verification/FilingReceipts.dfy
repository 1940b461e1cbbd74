/** What the receipt of a comparison states, in terms of the sections of the two filings. */
module FilingReceipts {
  import opened Outcomes
  import opened Ordering
  import opened FilingExcerpts
  import opened FilingSelection

  /** The section of the filing with this selector, if it has one. */
  ghost predicate SectionAt(section: Option<Section>, sections: seq<Section>, selector: string) {
    && (section.Some? ==> section.value in sections && section.value.selector == selector)
    && (forall other <- sections :: other.selector == selector ==> section == Some(other))
  }

  lemma LookedUp(sections: seq<Section>, selector: string)
    requires Snapshot(sections)
    ensures SectionAt(Get(BySelector(sections), selector), sections, selector)
  {
    BySelectorFacts(sections);
    var found := Get(BySelector(sections), selector);
    forall other | other in sections && other.selector == selector ensures found == Some(other) {
      var i :| 0 <= i < |sections| && sections[i] == other;
      var j :| 0 <= j < |sections| && sections[j] == found.value;
    }
  }

  /** The change carries the kind, the hashes and the sizes of its two sections, and the heading and
      category of the current one if there is one. */
  predicate StatesChange(change: Change, before: Option<Section>, after: Option<Section>) {
    && (before.Some? || after.Some?)
    && (before.Some? && after.Some? ==> before.value.text != after.value.text)
    && (change.kind == Added <==> before.None?) && (change.kind == Removed <==> after.None?)
    && change.previousHash == (if before.Some? then Some(TextHash(before.value.text)) else None)
    && change.previousCharacters == (if before.Some? then |before.value.text| else 0)
    && change.currentHash == (if after.Some? then Some(TextHash(after.value.text)) else None)
    && change.currentCharacters == (if after.Some? then |after.value.text| else 0)
    && (after.Some? ==> change.heading == after.value.heading && change.category == after.value.category)
    && (after.None? && before.Some? ==> change.heading == before.value.heading && change.category == before.value.category)
  }

  /** The side shows the first 600 characters of the text. */
  predicate ShowsHead(side: Side, text: string) {
    && side.start == Some(0) && side.end == Some(|side.text|)
    && side.text == text[..if |text| < 600 then |text| else 600]
  }

  /** Both sides show exact slices of at most 300 characters around the place where the texts part. */
  ghost predicate ShowsBoth(e: Excerpt, before: string, after: string) {
    exists at: nat ::
      && at <= |before| && at <= |after| && before[..at] == after[..at]
      && (at == |before| || at == |after| || before[at] != after[at])
      && SliceAround(e.Previous(), before, at) && SliceAround(e.Current(), after, at)
  }

  ghost predicate ShowsChange(e: Excerpt, before: Option<Section>, after: Option<Section>) {
    && (e.kind == Added <==> before.None?) && (e.kind == Removed <==> after.None?)
    && (after.Some? ==> e.heading == after.value.heading && e.category == after.value.category)
    && (after.None? && before.Some? ==> e.heading == before.value.heading && e.category == before.value.category)
    && match (before, after)
       case (Some(b), Some(a)) => ShowsBoth(e, b.text, a.text)
       case (Some(b), None) => ShowsHead(e.Previous(), b.text) && e.currentText == ""
       case (None, Some(a)) => ShowsHead(e.Current(), a.text) && e.previousText == ""
       case (None, None) => false
  }

  lemma ModifiedShows(before: Section, after: Section)
    requires before.Valid() && after.Valid()
    ensures ModifiedExcerpt(before, after).Some?
    ensures ShowsChange(ModifiedExcerpt(before, after).value, Some(before), Some(after))
  {
    ModifiedExcerptFacts(before, after);
    DifferenceIsFirst(before.text, after.text, 0);
    var at := DifferenceFrom(before.text, after.text, 0);
    assert before.text[0..at] == before.text[..at] && after.text[0..at] == after.text[..at];
  }

  lemma OneSidedShows(section: Section)
    requires section.Valid()
    ensures AddedExcerpt(section).Some? ==> ShowsChange(AddedExcerpt(section).value, None, Some(section))
    ensures RemovedExcerpt(section).Some? ==> ShowsChange(RemovedExcerpt(section).value, Some(section), None)
  {
    OneSidedExcerptIff(section);
  }

  lemma PairShows(pair: Pair, excerpt: Excerpt)
    requires pair.Valid() && pair.ToExcerpt() == Some(excerpt)
    ensures ShowsChange(excerpt, pair.before, pair.after)
  {
    if pair.before.Some? && pair.after.Some? {
      ModifiedShows(pair.before.value, pair.after.value);
    } else if pair.before.Some? {
      OneSidedShows(pair.before.value);
    } else {
      OneSidedShows(pair.after.value);
    }
  }

  lemma PairStates(pair: Pair, selector: string)
    requires pair.Valid() && pair.Differs()
    ensures StatesChange(pair.ToChange(selector), pair.before, pair.after)
  {
  }

  /** The change is stated of the two filings. */
  ghost predicate ChangeOf(change: Change, previous: seq<Section>, current: seq<Section>) {
    exists before, after ::
      && SectionAt(before, previous, change.selector) && SectionAt(after, current, change.selector)
      && StatesChange(change, before, after)
  }

  ghost predicate ExcerptOf(excerpt: Excerpt, previous: seq<Section>, current: seq<Section>) {
    exists before, after ::
      && SectionAt(before, previous, excerpt.selector) && SectionAt(after, current, excerpt.selector)
      && ShowsChange(excerpt, before, after)
  }

  /** The selector is in one filing only, or with other text in the other. */
  ghost predicate Changed(selector: string, previous: seq<Section>, current: seq<Section>) {
    exists before, after ::
      && SectionAt(before, previous, selector) && SectionAt(after, current, selector)
      && (if before.Some? && after.Some? then before.value.text != after.value.text else before.Some? || after.Some?)
  }

  lemma ChangedIff(selector: string, previous: seq<Section>, current: seq<Section>)
    requires Snapshot(previous) && Snapshot(current)
    ensures Changed(selector, previous, current) <==> PairOf(BySelector(previous), BySelector(current), selector).Differs()
  {
    LookedUp(previous, selector);
    LookedUp(current, selector);
    if Changed(selector, previous, current) {
      var before, after :| SectionAt(before, previous, selector) && SectionAt(after, current, selector)
        && (if before.Some? && after.Some? then before.value.text != after.value.text else before.Some? || after.Some?);
      OneSection(before, Get(BySelector(previous), selector), previous, selector);
      OneSection(after, Get(BySelector(current), selector), current, selector);
    }
  }

  lemma OneSection(x: Option<Section>, y: Option<Section>, sections: seq<Section>, selector: string)
    requires SectionAt(x, sections, selector) && SectionAt(y, sections, selector)
    ensures x == y
  {
  }

  lemma ExactStates(receipt: Receipt, previous: seq<Section>, current: seq<Section>)
    requires Snapshot(previous) && Snapshot(current)
    requires Exact(receipt, BySelector(previous), BySelector(current))
    ensures forall selector :: selector in Selectors(receipt.changes) <==> Changed(selector, previous, current)
    ensures forall change <- receipt.changes :: ChangeOf(change, previous, current)
    ensures forall excerpt <- receipt.selected :: ExcerptOf(excerpt, previous, current)
  {
    var before, after := BySelector(previous), BySelector(current);
    forall selector ensures selector in Selectors(receipt.changes) <==> Changed(selector, previous, current) {
      ChangedIff(selector, previous, current);
    }
    forall change | change in receipt.changes ensures ChangeOf(change, previous, current) {
      SelectorListed(receipt.changes, change);
      LookedUp(previous, change.selector);
      LookedUp(current, change.selector);
      PairStates(PairOf(before, after, change.selector), change.selector);
    }
    forall excerpt | excerpt in receipt.selected ensures ExcerptOf(excerpt, previous, current) {
      LookedUp(previous, excerpt.selector);
      LookedUp(current, excerpt.selector);
      PairShows(PairOf(before, after, excerpt.selector), excerpt);
    }
  }

  /** The categories in the order in which their changes are shown. */
  const CATEGORIES: seq<Category> := [Liquidity, Risks, GoingConcern, Debt, Issuance, Litigation, Controls, Outlook]

  /** An earlier category, or the same and no later selector. */
  ghost predicate ShownBefore(a: Change, b: Change) {
    exists i, j ::
      && 0 <= i <= j < |CATEGORIES| && CATEGORIES[i] == a.category && CATEGORIES[j] == b.category
      && (i == j ==> TextLeq(a.selector, b.selector))
  }

  lemma ShownBeforeIff(a: Change, b: Change)
    requires ShownNoLater(a, b)
    ensures ShownBefore(a, b)
  {
    assert CATEGORIES[Rank(a.category)] == a.category && CATEGORIES[Rank(b.category)] == b.category;
  }

  /** What a receipt states of the two filings: its changes are exactly the changed selectors, each with
      its kind, hashes, sizes and heading; its excerpts show where the two texts part, or the head of the
      only one; up to six changes are shown, and each of them is of an earlier category, or of the same
      and an earlier selector, than every omitted one. */
  lemma ReceiptStates(previous: seq<Section>, current: seq<Section>)
    requires Snapshot(previous) && Snapshot(current) && Selection(previous, current).Ok?
    ensures var receipt := Selection(previous, current).value;
      && (forall selector :: selector in Selectors(receipt.changes) <==> Changed(selector, previous, current))
      && (forall change <- receipt.changes :: ChangeOf(change, previous, current))
      && (forall excerpt <- receipt.selected :: ExcerptOf(excerpt, previous, current))
      && |receipt.selected| == (if |receipt.changes| < 6 then |receipt.changes| else 6)
      && (forall a, b | a in receipt.changes && b in receipt.changes
                        && a.selector in receipt.Shown() && b.selector in receipt.omitted :: ShownBefore(a, b))
  {
    SelectionIsExact(previous, current);
    var receipt := Selection(previous, current).value;
    ExactStates(receipt, previous, current);
    RanksShown(receipt);
  }

  lemma RanksShown(receipt: Receipt)
    requires ShownFirst(receipt)
    ensures forall a, b | a in receipt.changes && b in receipt.changes
                          && a.selector in receipt.Shown() && b.selector in receipt.omitted :: ShownBefore(a, b)
  {
    forall a, b | a in receipt.changes && b in receipt.changes
                  && a.selector in receipt.Shown() && b.selector in receipt.omitted
      ensures ShownBefore(a, b)
    {
      ShownBeforeIff(a, b);
    }
  }

  /** The changes of the two excerpts are shown in this order. */
  ghost predicate ListedBefore(x: Excerpt, y: Excerpt, changes: seq<Change>) {
    exists a, b ::
      a in changes && b in changes && a.selector == x.selector && b.selector == y.selector && ShownBefore(a, b)
  }

  lemma FewInOrder(changes: seq<Change>, excerpts: map<string, Excerpt>)
    requires Stocked(changes, excerpts)
    ensures var few := FirstFew(Sort(changes, ShownNoLater));
      && Stocked(few, excerpts)
      && forall i, j | 0 <= i < j < |few| :: ListedBefore(ExcerptsFor(few, excerpts)[i], ExcerptsFor(few, excerpts)[j], changes)
  {
    var order := Sort(changes, ShownNoLater);
    ShownOrder();
    SortSorts(changes, ShownNoLater);
    MembersOfMultiset(changes, order);
    var few := FirstFew(order);
    StockedSubset(changes, few, excerpts);
    var shown := ExcerptsFor(few, excerpts);
    forall i, j | 0 <= i < j < |few| ensures ListedBefore(shown[i], shown[j], changes) {
      assert HasExcerpt(few[i].selector, excerpts) && HasExcerpt(few[j].selector, excerpts);
      assert few[i] in changes && few[j] in changes;
      ShownBeforeIff(few[i], few[j]);
    }
  }

  /** The excerpts are listed by category and then by selector of their changes. */
  lemma ExcerptsInOrder(previous: seq<Section>, current: seq<Section>)
    requires Snapshot(previous) && Snapshot(current) && Selection(previous, current).Ok?
    ensures var receipt := Selection(previous, current).value;
      forall i, j | 0 <= i < j < |receipt.selected| ::
        ListedBefore(receipt.selected[i], receipt.selected[j], receipt.changes)
  {
    BySelectorFacts(previous);
    BySelectorFacts(current);
    SelectorsBounded(previous, current);
    var before, after := BySelector(previous), BySelector(current);
    var keys := AllSelectors(before, after);
    SelectionOverSucceedsIff(keys, before, after);
    WalkIff(keys, before, after);
    DifferingKeepsOrder(keys, before, after);
    var found := Walk(keys, before, after).value;
    AssembledReceipt(found, Differing(keys, before, after), before, after);
    ChangesInOrder(found, Differing(keys, before, after), before, after);
    AssembledInOrder(found);
  }

  lemma AssembledInOrder(found: Findings)
    requires Stocked(found.changes, found.excerpts) && Sort(found.changes, SelectorLeq) == found.changes
    ensures var receipt := Assemble(found);
      forall i, j | 0 <= i < j < |receipt.selected| ::
        ListedBefore(receipt.selected[i], receipt.selected[j], found.changes)
  {
    FewInOrder(found.changes, found.excerpts);
  }

  // ----- which comparisons succeed -----

  /** A section found in one filing only, of which the first 600 characters end in a blank. */
  ghost predicate CutBehindBlank(section: Section, others: seq<Section>) {
    && (forall other <- others :: other.selector != section.selector)
    && |section.text| > 600 && section.text[599] == ' '
  }

  ghost predicate MovesCategory(previous: seq<Section>, current: seq<Section>) {
    exists b, a :: b in previous && a in current && b.selector == a.selector && b.category != a.category
  }

  ghost predicate AnyCut(sections: seq<Section>, others: seq<Section>) {
    exists section :: section in sections && CutBehindBlank(section, others)
  }

  lemma CutIff(section: Section)
    requires section.Valid()
    ensures CutsCleanly(section.text) <==> |section.text| <= 600 || section.text[599] != ' '
  {
  }

  lemma InadmissibleAt(previous: seq<Section>, current: seq<Section>, selector: string)
    requires Snapshot(previous) && Snapshot(current)
    requires !PairOf(BySelector(previous), BySelector(current), selector).Admissible()
    ensures MovesCategory(previous, current) || AnyCut(previous, current) || AnyCut(current, previous)
  {
    LookedUp(previous, selector);
    LookedUp(current, selector);
    var pair := PairOf(BySelector(previous), BySelector(current), selector);
    if pair.before.Some? && pair.after.None? {
      CutIff(pair.before.value);
      assert CutBehindBlank(pair.before.value, current);
    } else if pair.before.None? && pair.after.Some? {
      CutIff(pair.after.value);
      assert CutBehindBlank(pair.after.value, previous);
    }
  }

  lemma MovedIsInadmissible(previous: seq<Section>, current: seq<Section>, b: Section, a: Section)
    requires Snapshot(previous) && Snapshot(current)
    requires b in previous && a in current && b.selector == a.selector && b.category != a.category
    ensures !PairOf(BySelector(previous), BySelector(current), b.selector).Admissible()
  {
    LookedUp(previous, b.selector);
    LookedUp(current, b.selector);
  }

  lemma CutIsInadmissible(previous: seq<Section>, current: seq<Section>, section: Section)
    requires Snapshot(previous) && Snapshot(current)
    requires || (section in previous && CutBehindBlank(section, current))
             || (section in current && CutBehindBlank(section, previous))
    ensures !PairOf(BySelector(previous), BySelector(current), section.selector).Admissible()
  {
    LookedUp(previous, section.selector);
    LookedUp(current, section.selector);
    CutIff(section);
  }

  /** A comparison fails exactly when a selector stands in both filings under two categories, or a section of
      one of them only is longer than 600 characters and has a blank as its 600th. */
  lemma ComparisonFailsIff(previous: seq<Section>, current: seq<Section>)
    requires Snapshot(previous) && Snapshot(current)
    ensures Selection(previous, current).Err?
       <==> MovesCategory(previous, current) || AnyCut(previous, current) || AnyCut(current, previous)
  {
    SelectionSucceedsIff(previous, current);
    if Selection(previous, current).Err? {
      var selector :| !PairOf(BySelector(previous), BySelector(current), selector).Admissible();
      InadmissibleAt(previous, current, selector);
    }
    if MovesCategory(previous, current) {
      var b, a :| b in previous && a in current && b.selector == a.selector && b.category != a.category;
      MovedIsInadmissible(previous, current, b, a);
    }
    if AnyCut(previous, current) {
      var section :| section in previous && CutBehindBlank(section, current);
      CutIsInadmissible(previous, current, section);
    }
    if AnyCut(current, previous) {
      var section :| section in current && CutBehindBlank(section, previous);
      CutIsInadmissible(previous, current, section);
    }
  }

  /** ASCII white space: tab to carriage return, the four separators, and the blank. */
  predicate White(c: char) { c as int in {9, 10, 11, 12, 13, 28, 29, 30, 31, 32} }

  /** Sections hold at most 20,000 characters of words with single blanks between them. */
  lemma SectionValidIff(section: Section)
    ensures section.Valid() <==>
      && 0 < |section.text| <= 20_000
      && !White(section.text[0]) && !White(section.text[|section.text| - 1])
      && (forall i | 0 <= i < |section.text| && White(section.text[i]) ::
            section.text[i] == ' ' && !White(section.text[i + 1]))
  {
    var text := section.text;
    forall i | 0 <= i < |text| ensures IsSpace(text[i]) <==> White(text[i]) { WhiteIff(text[i]); }
    if section.Valid() {
      forall i | 0 <= i < |text| && White(text[i]) ensures text[i] == ' ' && !White(text[i + 1]) {
        assert i < |text| - 1;
        assert !(IsSpace(text[i]) && IsSpace(text[i + 1]));
      }
    }
  }

  lemma WhiteIff(c: char)
    ensures IsSpace(c) <==> White(c)
  {
  }
}
