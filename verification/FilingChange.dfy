/** Comparison of two filings' sections and selection of bounded before/after excerpts. */
module FilingExcerpts {
  import opened Outcomes
  import opened Ordering

  const MAXIMUM_EXCERPT: nat := 600

  /** The text hash as an ideal digest: equal exactly for equal texts. */
  datatype TextHash = TextHash(text: string)

  datatype Category = Liquidity | Risks | GoingConcern | Debt | Issuance | Litigation | Controls | Outlook

  datatype Kind = Added | Removed | Modified

  predicate IsSpace(c: char) { c == ' ' || '\t' <= c <= '\r' || '\U{1C}' <= c <= '\U{1F}' }

  /** Text that whitespace normalisation leaves alone: single blanks between non-blank words. */
  predicate Canonical(text: string) {
    && |text| > 0
    && !IsSpace(text[0]) && !IsSpace(text[|text| - 1])
    && (forall i | 0 <= i < |text| - 1 :: !(IsSpace(text[i]) && IsSpace(text[i + 1])))
    && (forall i | 0 <= i < |text| :: IsSpace(text[i]) ==> text[i] == ' ')
  }

  datatype Section = Section(selector: string, heading: string, category: Category, text: string)
  {
    predicate Valid() { Canonical(text) && |text| <= 20_000 }

    function Hash(): TextHash { TextHash(text) }
  }

  datatype Excerpt = Excerpt(
    selector: string,
    heading: string,
    category: Category,
    kind: Kind,
    previousStart: Option<nat>,
    previousEnd: Option<nat>,
    previousText: string,
    previousHash: Option<TextHash>,
    currentStart: Option<nat>,
    currentEnd: Option<nat>,
    currentText: string,
    currentHash: Option<TextHash>)
  {
    predicate SideValid(start: Option<nat>, end: Option<nat>, text: string, hash: Option<TextHash>) {
      && (text != "" <==> start.Some? && end.Some? && hash.Some?)
      && (text != "" ==> end.value - start.value == |text| && hash.value == TextHash(text))
      && (start.Some? ==> start.value <= 20_000)
      && (end.Some? ==> 0 < end.value <= 20_000)
      && |text| <= MAXIMUM_EXCERPT
    }

    predicate Valid() {
      && SideValid(previousStart, previousEnd, previousText, previousHash)
      && SideValid(currentStart, currentEnd, currentText, currentHash)
      && (previousText != "" <==> !kind.Added?)
      && (currentText != "" <==> !kind.Removed?)
      && |previousText| + |currentText| <= MAXIMUM_EXCERPT
    }

    function Previous(): Side { Side(previousStart, previousEnd, previousText, previousHash) }

    function Current(): Side { Side(currentStart, currentEnd, currentText, currentHash) }
  }

  datatype Side = Side(start: Option<nat>, end: Option<nat>, text: string, hash: Option<TextHash>)

  // ----- first difference -----

  function DifferenceFrom(previous: string, current: string, i: nat): (at: nat)
    requires i <= |previous| && i <= |current|
    decreases |previous| - i
  {
    if i == |previous| || i == |current| || previous[i] != current[i] then i
    else DifferenceFrom(previous, current, i + 1)
  }

  /** The texts agree before the first difference and, inside both, disagree at it. */
  lemma {:induction false} DifferenceIsFirst(previous: string, current: string, i: nat)
    requires i <= |previous| && i <= |current|
    ensures var at := DifferenceFrom(previous, current, i);
      && i <= at <= |previous| && at <= |current|
      && previous[i..at] == current[i..at]
      && (at < |previous| && at < |current| ==> previous[at] != current[at])
      && (at == |previous| || at == |current| || previous[at] != current[at])
    decreases |previous| - i
  {
    if i < |previous| && i < |current| && previous[i] == current[i] {
      DifferenceIsFirst(previous, current, i + 1);
      var at := DifferenceFrom(previous, current, i + 1);
      assert previous[i..at] == [previous[i]] + previous[i + 1..at];
      assert current[i..at] == [current[i]] + current[i + 1..at];
    }
  }

  method FirstDifference(previous: string, current: string) returns (at: nat)
    ensures at == DifferenceFrom(previous, current, 0)
  {
    var shared := if |previous| < |current| then |previous| else |current|;
    for index := 0 to shared
      invariant DifferenceFrom(previous, current, 0) == DifferenceFrom(previous, current, index)
    {
      if previous[index] != current[index] { return index; }
    }
    return shared;
  }

  // ----- centered range -----

  function SkipSpaces(text: string, start: nat, end: nat): (s: nat)
    requires start <= end <= |text|
    ensures start <= s <= end
    decreases end - start
  {
    if start < end && IsSpace(text[start]) then SkipSpaces(text, start + 1, end) else start
  }

  function DropSpaces(text: string, start: nat, end: nat): (e: nat)
    requires start <= end <= |text|
    ensures start <= e <= end
    decreases end - start
  {
    if end > start && IsSpace(text[end - 1]) then DropSpaces(text, start, end - 1) else end
  }

  function Sooner(a: int, b: int): int { if a < b then a else b }
  /** The window of at most `size` characters around `center`, before trimming. */
  function Window(text: string, center: nat, size: nat): (r: (nat, nat))
    requires center <= |text|
    ensures r.0 <= r.1 <= |text| && r.1 - r.0 <= size
  {
    var start := Larger(0, center - size / 2);
    var end := Sooner(|text|, start + size);
    (Larger(0, end - size), end)
  }

  function Centered(text: string, center: nat, size: nat): (r: (nat, nat))
    requires center <= |text|
    ensures r.0 <= r.1 <= |text| && r.1 - r.0 <= size
  {
    var (first, last) := Window(text, center, size);
    var start := SkipSpaces(text, first, last);
    (start, DropSpaces(text, start, last))
  }

  method CenteredRange(text: string, center: nat, size: nat) returns (start: nat, end: nat)
    requires center <= |text|
    ensures (start, end) == Centered(text, center, size)
  {
    start := Larger(0, center - size / 2);
    end := Sooner(|text|, start + size);
    start := Larger(0, end - size);
    ghost var first := start;
    while start < end && IsSpace(text[start])
      invariant first <= start <= end
      invariant SkipSpaces(text, first, end) == SkipSpaces(text, start, end)
    {
      start := start + 1;
    }
    ghost var last := end;
    while end > start && IsSpace(text[end - 1])
      invariant start <= end <= last
      invariant DropSpaces(text, start, last) == DropSpaces(text, start, end)
    {
      end := end - 1;
    }
  }

  /** In canonical text a window wider than one character loses at most one blank at either end, so
      it stays non-empty, ends in non-blanks, and keeps the center when the center is a character. */
  lemma CenteredKeepsCenter(text: string, center: nat, size: nat)
    requires Canonical(text) && center <= |text| && size >= 4
    ensures var (start, end) := Centered(text, center, size);
      && start < end
      && !IsSpace(text[start]) && !IsSpace(text[end - 1])
      && (center < |text| ==> start <= center < end)
  {
    var (first, last) := Window(text, center, size);
    assert first < last;
    var start := SkipSpaces(text, first, last);
    if IsSpace(text[first]) {
      assert first + 1 < last;
      assert !IsSpace(text[first + 1]);
      assert SkipSpaces(text, first + 1, last) == first + 1;
    }
    assert !IsSpace(text[start]);
    var end := DropSpaces(text, start, last);
    if IsSpace(text[last - 1]) {
      assert last - 1 > start;
      assert !IsSpace(text[last - 2]);
      assert DropSpaces(text, start, last - 1) == last - 1;
    }
  }

  // ----- excerpts -----

  /** The field-level whitespace strip every record applies to its texts. */
  function Strip(text: string): (stripped: string) {
    var start := SkipSpaces(text, 0, |text|);
    text[start..DropSpaces(text, start, |text|)]
  }

  lemma StripKeeps(text: string)
    requires text != "" ==> !IsSpace(text[0]) && !IsSpace(text[|text| - 1])
    ensures Strip(text) == text
  {
  }

  lemma StripShortens(text: string)
    requires text != "" && IsSpace(text[|text| - 1])
    ensures |Strip(text)| < |text|
  {
    var start := SkipSpaces(text, 0, |text|);
    if start == 0 { assert DropSpaces(text, 0, |text|) <= |text| - 1; }
  }

  const ABSENT := Side(None, None, "", None)

  function SideOf(text: string, range: (nat, nat)): Side
    requires range.0 <= range.1 <= |text|
  {
    var slice := text[range.0..range.1];
    Side(Some(range.0), Some(range.1), slice, if slice == "" then None else Some(TextHash(slice)))
  }

  /** Building the record strips both texts, then runs its validator. */
  function Build(reference: Section, kind: Kind, previous: Side, current: Side): (r: Option<Excerpt>)
    ensures r.Some? ==> r.value.Valid() && r.value.selector == reference.selector
  {
    var e := Excerpt(reference.selector, reference.heading, reference.category, kind,
                     previous.start, previous.end, Strip(previous.text), previous.hash,
                     current.start, current.end, Strip(current.text), current.hash);
    if e.Valid() then Some(e) else None
  }

  function HeadOf(text: string): (nat, nat) { (0, Sooner(|text|, MAXIMUM_EXCERPT)) }

  function ModifiedExcerpt(before: Section, after: Section): Option<Excerpt>
    requires before.Valid() && after.Valid()
  {
    DifferenceIsFirst(before.text, after.text, 0);
    var at := DifferenceFrom(before.text, after.text, 0);
    Build(after, Modified, SideOf(before.text, Centered(before.text, at, MAXIMUM_EXCERPT / 2)),
          SideOf(after.text, Centered(after.text, at, MAXIMUM_EXCERPT / 2)))
  }

  function RemovedExcerpt(before: Section): Option<Excerpt> {
    Build(before, Removed, SideOf(before.text, HeadOf(before.text)), ABSENT)
  }

  function AddedExcerpt(after: Section): Option<Excerpt> {
    Build(after, Added, ABSENT, SideOf(after.text, HeadOf(after.text)))
  }

  /** Builds one excerpt with the source's loops. */
  method BuildModified(before: Section, after: Section) returns (excerpt: Option<Excerpt>)
    requires before.Valid() && after.Valid()
    ensures excerpt == ModifiedExcerpt(before, after)
  {
    DifferenceIsFirst(before.text, after.text, 0);
    var at := FirstDifference(before.text, after.text);
    var previousStart, previousEnd := CenteredRange(before.text, at, MAXIMUM_EXCERPT / 2);
    var currentStart, currentEnd := CenteredRange(after.text, at, MAXIMUM_EXCERPT / 2);
    excerpt := Build(after, Modified, SideOf(before.text, (previousStart, previousEnd)),
                     SideOf(after.text, (currentStart, currentEnd)));
  }

  /** One side of a modified excerpt: an exact slice that stripping leaves alone, non-empty, at most
      300 characters, around `at`. */
  predicate SliceAround(side: Side, text: string, at: nat) {
    && side.start.Some? && side.end.Some?
    && side.start.value < side.end.value <= |text|
    && side.text == text[side.start.value..side.end.value]
    && |side.text| <= 300
    && (at < |text| ==> side.start.value <= at < side.end.value)
  }

  lemma CenteredSide(text: string, at: nat)
    requires Canonical(text) && at <= |text|
    ensures var side := SideOf(text, Centered(text, at, 300));
      SliceAround(side, text, at) && Strip(side.text) == side.text && side.hash == Some(TextHash(side.text))
  {
    CenteredKeepsCenter(text, at, 300);
    StripKeeps(SideOf(text, Centered(text, at, 300)).text);
  }

  /** Two proper sides within half the budget each make a valid record. */
  lemma BuildFromSides(reference: Section, previous: Side, current: Side, before: string, after: string, at: nat)
    requires |before| <= 20_000 && |after| <= 20_000
    requires SliceAround(previous, before, at) && SliceAround(current, after, at)
    requires Strip(previous.text) == previous.text && previous.hash == Some(TextHash(previous.text))
    requires Strip(current.text) == current.text && current.hash == Some(TextHash(current.text))
    ensures Build(reference, Modified, previous, current) == Some(Excerpt(
      reference.selector, reference.heading, reference.category, Modified,
      previous.start, previous.end, previous.text, previous.hash,
      current.start, current.end, current.text, current.hash))
  {
  }

  /** A modified section always yields an excerpt: two non-empty exact slices of at most 300
      characters, each containing the first difference when that index is inside its text. */
  lemma ModifiedExcerptFacts(before: Section, after: Section)
    requires before.Valid() && after.Valid()
    ensures ModifiedExcerpt(before, after).Some?
    ensures var e := ModifiedExcerpt(before, after).value; var at := DifferenceFrom(before.text, after.text, 0);
      && SliceAround(e.Previous(), before.text, at)
      && SliceAround(e.Current(), after.text, at)
  {
    DifferenceIsFirst(before.text, after.text, 0);
    var at := DifferenceFrom(before.text, after.text, 0);
    CenteredSide(before.text, at);
    CenteredSide(after.text, at);
    BuildFromSides(after, SideOf(before.text, Centered(before.text, at, 300)),
                   SideOf(after.text, Centered(after.text, at, 300)), before.text, after.text, at);
  }

  /** The cut at 600 falls behind a non-blank character, or there is no cut. */
  predicate CutsCleanly(text: string) {
    |text| <= MAXIMUM_EXCERPT || !IsSpace(text[MAXIMUM_EXCERPT - 1])
  }

  /** A one-sided excerpt is cut at 600 characters without trimming, while its record strips the
      text; so it can be built exactly when the cut leaves no blank at the end. */
  lemma OneSidedExcerptIff(section: Section)
    requires section.Valid()
    ensures AddedExcerpt(section).Some? <==> CutsCleanly(section.text)
    ensures RemovedExcerpt(section).Some? <==> CutsCleanly(section.text)
    ensures AddedExcerpt(section).Some? ==>
      AddedExcerpt(section).value.currentText == section.text[..Sooner(|section.text|, 600)]
    ensures RemovedExcerpt(section).Some? ==>
      RemovedExcerpt(section).value.previousText == section.text[..Sooner(|section.text|, 600)]
  {
    var head := section.text[..Sooner(|section.text|, 600)];
    assert SideOf(section.text, HeadOf(section.text)).text == head;
    StripKeeps("");
    if CutsCleanly(section.text) {
      StripKeeps(head);
    } else {
      StripShortens(head);
    }
  }

  /** A canonical section that the source cannot excerpt: 599 letters, a blank, and one more word. */
  lemma BlankAtTheCutFails(word: char)
    requires !IsSpace(word)
    ensures var text := seq(599, _ => word) + " " + [word];
      var section := Section("item-1", "Item 1", Risks, text);
      section.Valid() && AddedExcerpt(section).None?
  {
    var text := seq(599, _ => word) + " " + [word];
    OneSidedExcerptIff(Section("item-1", "Item 1", Risks, text));
  }
}

/** The comparison of two snapshots: which sections changed, which changes are shown. */
module FilingSelection {
  import opened Outcomes
  import opened Filtering
  import opened Ordering
  import opened FilingExcerpts

  const MAXIMUM_SELECTED: nat := 6
  const MAXIMUM_CHANGES: nat := 128
  const MAXIMUM_SELECTED_CHARACTERS: nat := 3_600

  datatype Change = Change(
    selector: string,
    heading: string,
    category: Category,
    kind: Kind,
    previousHash: Option<TextHash>,
    previousCharacters: nat,
    currentHash: Option<TextHash>,
    currentCharacters: nat)

  datatype Failure = CategoryChanged(selector: string) | ExcerptInvalid(selector: string) | ReceiptInvalid

  /** Sections of one filing, in strictly ascending selector order. */
  predicate Snapshot(sections: seq<Section>) {
    && 1 <= |sections| <= 64
    && (forall section <- sections :: section.Valid())
    && (forall i, j | 0 <= i < j < |sections| ::
          TextLeq(sections[i].selector, sections[j].selector) && sections[i].selector != sections[j].selector)
  }

  type Lookup = map<string, Section>

  predicate ValidLookup(lookup: Lookup) {
    forall selector <- lookup :: lookup[selector].Valid() && lookup[selector].selector == selector
  }

  /** The dictionary of sections by selector. */
  function BySelector(sections: seq<Section>): Lookup {
    if |sections| == 0 then map[]
    else
      var last := sections[|sections| - 1];
      BySelector(sections[..|sections| - 1])[last.selector := last]
  }

  lemma {:induction false} BySelectorFacts(sections: seq<Section>)
    requires forall section <- sections :: section.Valid()
    ensures ValidLookup(BySelector(sections))
    ensures |BySelector(sections)| <= |sections|
    ensures forall section <- sections :: section.selector in BySelector(sections)
    ensures forall selector <- BySelector(sections) :: BySelector(sections)[selector] in sections
  {
    if |sections| != 0 {
      var front := sections[..|sections| - 1];
      BySelectorFacts(front);
      assert sections == front + [sections[|sections| - 1]];
    }
  }

  function Get(lookup: Lookup, selector: string): Option<Section> {
    if selector in lookup then Some(lookup[selector]) else None
  }

  /** What one selector looks like in the two filings. */
  datatype Pair = Pair(before: Option<Section>, after: Option<Section>)
  {
    predicate Valid() {
      && (before.Some? || after.Some?)
      && (before.Some? ==> before.value.Valid())
      && (after.Some? ==> after.value.Valid())
    }

    predicate CategoryMoved() { before.Some? && after.Some? && before.value.category != after.value.category }

    /** Present on one side only, or with different texts. */
    predicate Differs() {
      if before.Some? && after.Some? then before.value.text != after.value.text
      else before.Some? || after.Some?
    }

    /** A one-sided text must not be cut behind a blank. */
    predicate Excerptable() {
      && (before.Some? && after.None? ==> CutsCleanly(before.value.text))
      && (before.None? && after.Some? ==> CutsCleanly(after.value.text))
    }

    predicate Admissible() { !CategoryMoved() && Excerptable() }

    function Kind(): Kind {
      if before.Some? && after.Some? then Modified else if before.None? then Added else Removed
    }

    function Reference(): Section
      requires Valid()
    {
      if after.Some? then after.value else before.value
    }

    function ToChange(selector: string): Change
      requires Valid()
    {
      Change(selector, Reference().heading, Reference().category, Kind(),
             if before.Some? then Some(before.value.Hash()) else None,
             if before.Some? then |before.value.text| else 0,
             if after.Some? then Some(after.value.Hash()) else None,
             if after.Some? then |after.value.text| else 0)
    }

    function ToExcerpt(): Option<Excerpt>
      requires Valid()
    {
      if before.Some? && after.Some? then ModifiedExcerpt(before.value, after.value)
      else if before.Some? then RemovedExcerpt(before.value)
      else AddedExcerpt(after.value)
    }
  }

  /** An excerpt can be built exactly when a one-sided text cuts cleanly; it is a valid record under
      the selector of its section. */
  lemma ExcerptIff(pair: Pair)
    requires pair.Valid()
    ensures pair.ToExcerpt().Some? <==> pair.Excerptable()
    ensures pair.ToExcerpt().Some? ==>
      pair.ToExcerpt().value.Valid() && pair.ToExcerpt().value.selector == pair.Reference().selector
  {
    if pair.before.Some? && pair.after.Some? {
      ModifiedExcerptFacts(pair.before.value, pair.after.value);
    } else if pair.before.Some? {
      OneSidedExcerptIff(pair.before.value);
    } else {
      OneSidedExcerptIff(pair.after.value);
    }
  }

  function PairOf(previous: Lookup, current: Lookup, selector: string): Pair {
    Pair(Get(previous, selector), Get(current, selector))
  }

  predicate Covered(keys: seq<string>, previous: Lookup, current: Lookup) {
    forall key <- keys :: key in previous || key in current
  }

  // ----- the walk over all selectors -----

  datatype Findings = Findings(changes: seq<Change>, excerpts: map<string, Excerpt>)

  function Examine(selector: string, pair: Pair, found: Findings): Result<Findings, Failure>
    requires pair.Valid()
  {
    if pair.CategoryMoved() then Err(CategoryChanged(selector))
    else if pair.before.Some? && pair.after.Some? && pair.before.value.Hash() == pair.after.value.Hash() then Ok(found)
    else
      var excerpt := pair.ToExcerpt();
      if excerpt.None? then Err(ExcerptInvalid(selector))
      else Ok(Findings(found.changes + [pair.ToChange(selector)], found.excerpts[selector := excerpt.value]))
  }

  function Walk(keys: seq<string>, previous: Lookup, current: Lookup): Result<Findings, Failure>
    requires ValidLookup(previous) && ValidLookup(current) && Covered(keys, previous, current)
  {
    if |keys| == 0 then Ok(Findings([], map[]))
    else
      var last := keys[|keys| - 1];
      match Walk(keys[..|keys| - 1], previous, current)
      case Err(e) => Err(e)
      case Ok(found) => Examine(last, PairOf(previous, current, last), found)
  }

  function DiffersAt(previous: Lookup, current: Lookup): string -> bool {
    (key: string) => PairOf(previous, current, key).Differs()
  }

  /** The selectors whose sections differ, in the order given. */
  function Differing(keys: seq<string>, previous: Lookup, current: Lookup): (d: seq<string>)
    ensures |d| <= |keys|
    ensures forall key <- d :: key in keys && PairOf(previous, current, key).Differs()
    ensures forall key <- keys :: PairOf(previous, current, key).Differs() ==> key in d
  {
    Keep(keys, DiffersAt(previous, current))
  }

  lemma DifferingKeepsOrder(keys: seq<string>, previous: Lookup, current: Lookup)
    requires SortedBy(keys, TextLeq) && NoDuplicates(keys)
    ensures SortedBy(Differing(keys, previous, current), TextLeq)
    ensures NoDuplicates(Differing(keys, previous, current))
  {
    KeepSorted(keys, DiffersAt(previous, current), TextLeq);
    KeepDistinct(keys, DiffersAt(previous, current));
  }

  /** The findings are exactly the differing selectors, in order, each with its own excerpt. */
  ghost predicate Reports(found: Findings, differing: seq<string>, previous: Lookup, current: Lookup)
    requires ValidLookup(previous) && ValidLookup(current) && Covered(differing, previous, current)
  {
    && |found.changes| == |differing|
    && (forall i | 0 <= i < |differing| ::
          found.changes[i] == PairOf(previous, current, differing[i]).ToChange(differing[i]))
    && (forall key :: key in found.excerpts <==> key in differing)
    && (forall key <- differing :: PairOf(previous, current, key).ToExcerpt() == Some(found.excerpts[key]))
  }

  predicate AllAdmissible(keys: seq<string>, previous: Lookup, current: Lookup) {
    forall key <- keys :: PairOf(previous, current, key).Admissible()
  }

  /** One selector: it fails exactly when it is not admissible, and else adds what differs. */
  lemma ExamineIff(selector: string, pair: Pair, found: Findings)
    requires pair.Valid()
    ensures Examine(selector, pair, found).Ok? <==> pair.Admissible()
    ensures pair.Admissible() ==> pair.ToExcerpt().Some?
    ensures pair.Admissible() ==>
      (Examine(selector, pair, found).value ==
       if pair.Differs() then
         Findings(found.changes + [pair.ToChange(selector)], found.excerpts[selector := pair.ToExcerpt().value])
       else found)
  {
    ExcerptIff(pair);
  }

  lemma ReportsGrow(found: Findings, differing: seq<string>, key: string, previous: Lookup, current: Lookup)
    requires ValidLookup(previous) && ValidLookup(current) && Covered(differing + [key], previous, current)
    requires Covered(differing, previous, current) && Reports(found, differing, previous, current)
    requires key !in differing && PairOf(previous, current, key).Valid()
    requires PairOf(previous, current, key).ToExcerpt().Some?
    ensures var pair := PairOf(previous, current, key);
      Reports(Findings(found.changes + [pair.ToChange(key)], found.excerpts[key := pair.ToExcerpt().value]),
              differing + [key], previous, current)
  {
  }

  lemma {:induction false} WalkIff(keys: seq<string>, previous: Lookup, current: Lookup)
    requires ValidLookup(previous) && ValidLookup(current) && Covered(keys, previous, current)
    requires NoDuplicates(keys)
    ensures Walk(keys, previous, current).Ok? <==> AllAdmissible(keys, previous, current)
    ensures Walk(keys, previous, current).Ok? ==>
      Reports(Walk(keys, previous, current).value, Differing(keys, previous, current), previous, current)
  {
    if |keys| != 0 {
      var front, last := keys[..|keys| - 1], keys[|keys| - 1];
      assert keys == front + [last];
      WalkIff(front, previous, current);
      KeepSnoc(front, last, DiffersAt(previous, current));
      var rest := Walk(front, previous, current);
      if rest.Ok? {
        ExamineIff(last, PairOf(previous, current, last), rest.value);
        var differing := Differing(front, previous, current);
        if PairOf(previous, current, last).Differs() && PairOf(previous, current, last).Admissible() {
          ReportsGrow(rest.value, differing, last, previous, current);
        }
      }
    }
  }

  // ----- selection -----

  function Rank(category: Category): nat {
    match category
    case Liquidity => 0 case Risks => 1 case GoingConcern => 2 case Debt => 3
    case Issuance => 4 case Litigation => 5 case Controls => 6 case Outlook => 7
  }

  /** Comparison by category first, then by selector. */
  predicate ShownNoLater(a: Change, b: Change) {
    Rank(a.category) < Rank(b.category)
    || (Rank(a.category) == Rank(b.category) && TextLeq(a.selector, b.selector))
  }

  predicate SelectorLeq(a: Change, b: Change) { TextLeq(a.selector, b.selector) }

  lemma ShownOrder()
    ensures TotalPreorder(ShownNoLater)
  {
    TextOrder();
  }

  function FirstFew(changes: seq<Change>): seq<Change> {
    if |changes| <= MAXIMUM_SELECTED then changes else changes[..MAXIMUM_SELECTED]
  }

  function ExcerptsFor(changes: seq<Change>, excerpts: map<string, Excerpt>): seq<Excerpt>
    requires forall change <- changes :: change.selector in excerpts
  {
    seq(|changes|, i requires 0 <= i < |changes| => excerpts[changes[i].selector])
  }

  function Selectors(changes: seq<Change>): seq<string> {
    seq(|changes|, i requires 0 <= i < |changes| => changes[i].selector)
  }

  function NotIn(shown: seq<string>): string -> bool { (s: string) => s !in shown }

  /** The selectors of the changes that are not shown, in the order of the changes. */
  function OmittedFrom(selectors: seq<string>, shown: seq<string>): (omitted: seq<string>)
    ensures |omitted| <= |selectors|
    ensures forall s <- omitted :: s in selectors && s !in shown
    ensures forall s <- selectors :: s !in shown ==> s in omitted
  {
    Keep(selectors, NotIn(shown))
  }

  lemma OmittedKeepsOrder(selectors: seq<string>, shown: seq<string>)
    requires SortedBy(selectors, TextLeq) && NoDuplicates(selectors)
    ensures SortedBy(OmittedFrom(selectors, shown), TextLeq) && NoDuplicates(OmittedFrom(selectors, shown))
  {
    KeepSorted(selectors, NotIn(shown), TextLeq);
    KeepDistinct(selectors, NotIn(shown));
  }

  function Characters(excerpts: seq<Excerpt>): nat {
    if |excerpts| == 0 then 0
    else
      var last := excerpts[|excerpts| - 1];
      Characters(excerpts[..|excerpts| - 1]) + |last.previousText| + |last.currentText|
  }

  lemma {:induction false} CharactersBounded(excerpts: seq<Excerpt>)
    requires forall e <- excerpts :: e.Valid()
    ensures Characters(excerpts) <= 600 * |excerpts|
  {
    if |excerpts| != 0 {
      assert excerpts[|excerpts| - 1].Valid();
      CharactersBounded(excerpts[..|excerpts| - 1]);
    }
  }

  datatype Receipt = Receipt(
    changes: seq<Change>, selected: seq<Excerpt>, omitted: seq<string>, characters: nat)
  {
    function Shown(): seq<string> { seq(|selected|, i requires 0 <= i < |selected| => selected[i].selector) }

    predicate Valid() {
      && |changes| <= MAXIMUM_CHANGES && |selected| <= MAXIMUM_SELECTED && |omitted| <= 128
      && characters <= MAXIMUM_SELECTED_CHARACTERS
      && SortedBy(Selectors(changes), TextLeq) && NoDuplicates(Selectors(changes))
      && NoDuplicates(Shown())
      && SortedBy(omitted, TextLeq) && NoDuplicates(omitted)
      && (forall s <- Shown() :: s !in omitted)
      && (forall s <- Shown() + omitted :: s in Selectors(changes))
      && (forall s <- Selectors(changes) :: s in Shown() || s in omitted)
      && characters == Characters(selected)
    }
  }

  function Assemble(found: Findings): Receipt
    requires forall change <- found.changes :: change.selector in found.excerpts
  {
    var ordered := Sort(found.changes, SelectorLeq);
    var selected := FirstFew(Sort(ordered, ShownNoLater));
    MembersOfMultiset(found.changes, ordered);
    MembersOfMultiset(ordered, Sort(ordered, ShownNoLater));
    var excerpts := ExcerptsFor(selected, found.excerpts);
    Receipt(ordered, excerpts, OmittedFrom(Selectors(ordered), Selectors(selected)), Characters(excerpts))
  }

  function SelectorOf(change: Change): string { change.selector }

  lemma SelectorsDistinct(changes: seq<Change>)
    ensures NoDuplicates(Selectors(changes)) <==> DistinctKeys(changes, SelectorOf)
  {
    if NoDuplicates(Selectors(changes)) {
      forall i, j | 0 <= i < j < |changes| ensures SelectorOf(changes[i]) != SelectorOf(changes[j]) {
        assert Selectors(changes)[i] != Selectors(changes)[j];
      }
    }
  }

  /** Every shown change comes strictly before every omitted one, by category and then selector. */
  ghost predicate ShownFirst(receipt: Receipt) {
    forall a, b | a in receipt.changes && b in receipt.changes
                  && a.selector in receipt.Shown() && b.selector in receipt.omitted ::
      a != b && ShownNoLater(a, b)
  }

  /** The change list is in selector order already, so sorting it again changes nothing. */
  lemma ChangesInOrder(found: Findings, differing: seq<string>, previous: Lookup, current: Lookup)
    requires ValidLookup(previous) && ValidLookup(current) && Covered(differing, previous, current)
    requires Reports(found, differing, previous, current)
    requires SortedBy(differing, TextLeq)
    ensures Selectors(found.changes) == differing
    ensures Sort(found.changes, SelectorLeq) == found.changes
  {
    assert Selectors(found.changes) == differing;
    forall i, j | 0 <= i < j < |found.changes| ensures SelectorLeq(found.changes[i], found.changes[j]) {
      assert TextLeq(differing[i], differing[j]);
    }
    SortIdentity(found.changes, SelectorLeq);
  }

  /** Each stored excerpt is a valid record under its own selector. */
  lemma ExcerptsBelong(found: Findings, differing: seq<string>, previous: Lookup, current: Lookup)
    requires ValidLookup(previous) && ValidLookup(current) && Covered(differing, previous, current)
    requires Reports(found, differing, previous, current)
    ensures forall key <- differing ::
      key in found.excerpts && found.excerpts[key].selector == key && found.excerpts[key].Valid()
  {
    forall key | key in differing
      ensures found.excerpts[key].selector == key && found.excerpts[key].Valid()
    {
      ExcerptIff(PairOf(previous, current, key));
    }
  }

  /** What is shown: the first six of the ranked changes. */
  lemma FirstFewFacts(changes: seq<Change>, order: seq<Change>)
    requires multiset(order) == multiset(changes) && NoDuplicates(Selectors(changes))
    requires SortedBy(order, ShownNoLater)
    ensures forall change <- FirstFew(order) :: change in changes
    ensures NoDuplicates(Selectors(FirstFew(order)))
    ensures forall a, b | a in changes && b in changes && a in FirstFew(order) && b !in FirstFew(order) ::
      ShownNoLater(a, b)
    ensures forall a <- changes :: a.selector in Selectors(FirstFew(order)) ==> a in FirstFew(order)
  {
    SelectorsDistinct(changes);
    RearrangedKeys(changes, order, SelectorOf);
    SelectorsDistinct(order);
    MembersOfMultiset(changes, order);
    var few := FirstFew(order);
    forall i, j | 0 <= i < j < |few| ensures Selectors(few)[i] != Selectors(few)[j] {
      assert Selectors(order)[i] != Selectors(order)[j];
    }
    forall a, b | a in changes && b in changes && a in few && b !in few ensures ShownNoLater(a, b) {
      var i :| 0 <= i < |few| && few[i] == a;
      var j :| 0 <= j < |order| && order[j] == b;
      assert j >= |few| by { assert b !in few; assert few == order[..|few|]; }
    }
    forall a | a in changes && a.selector in Selectors(few) ensures a in few {
      var i :| 0 <= i < |few| && Selectors(few)[i] == a.selector;
      SameKeySameElement(changes, SelectorOf, a, few[i]);
    }
  }

  lemma ExcerptsForFacts(shown: seq<Change>, excerpts: map<string, Excerpt>)
    requires Stocked(shown, excerpts)
    ensures var list := ExcerptsFor(shown, excerpts);
      && |list| == |shown|
      && (forall i | 0 <= i < |list| :: list[i].selector == Selectors(shown)[i])
      && (forall e <- list :: e.Valid())
  {
    var list := ExcerptsFor(shown, excerpts);
    forall i | 0 <= i < |list| ensures list[i].selector == Selectors(shown)[i] && list[i].Valid() {
      assert HasExcerpt(shown[i].selector, excerpts);
    }
  }

  predicate Stocked(changes: seq<Change>, excerpts: map<string, Excerpt>) {
    forall change <- changes :: HasExcerpt(change.selector, excerpts)
  }

  predicate HasExcerpt(key: string, excerpts: map<string, Excerpt>) {
    key in excerpts && excerpts[key].selector == key && excerpts[key].Valid()
  }

  function ReceiptFrom(changes: seq<Change>, few: seq<Change>, excerpts: map<string, Excerpt>): Receipt
    requires forall change <- few :: change.selector in excerpts
  {
    var shown := ExcerptsFor(few, excerpts);
    Receipt(changes, shown, OmittedFrom(Selectors(changes), Selectors(few)), Characters(shown))
  }

  lemma ReceiptFromIsValid(changes: seq<Change>, few: seq<Change>, excerpts: map<string, Excerpt>)
    requires SortedBy(Selectors(changes), TextLeq) && NoDuplicates(Selectors(changes)) && |changes| <= 128
    requires (forall change <- few :: change in changes) && |few| <= 6 && NoDuplicates(Selectors(few))
    requires Stocked(few, excerpts)
    ensures ReceiptFrom(changes, few, excerpts).Valid()
    ensures ReceiptFrom(changes, few, excerpts).Shown() == Selectors(few)
  {
    var receipt := ReceiptFrom(changes, few, excerpts);
    ExcerptsForFacts(few, excerpts);
    assert receipt.Shown() == Selectors(few);
    OmittedKeepsOrder(Selectors(changes), Selectors(few));
    CharactersBounded(receipt.selected);
    ShownAreChanges(changes, few);
  }

  lemma SelectorListed(changes: seq<Change>, change: Change)
    ensures change in changes ==> change.selector in Selectors(changes)
  {
    if change in changes {
      var i :| 0 <= i < |changes| && changes[i] == change;
      assert Selectors(changes)[i] == change.selector;
    }
  }

  lemma ReceiptFromShownFirst(changes: seq<Change>, order: seq<Change>, excerpts: map<string, Excerpt>)
    requires multiset(order) == multiset(changes) && NoDuplicates(Selectors(changes))
    requires SortedBy(order, ShownNoLater)
    requires Stocked(FirstFew(order), excerpts)
    requires ReceiptFrom(changes, FirstFew(order), excerpts).Shown() == Selectors(FirstFew(order))
    ensures ShownFirst(ReceiptFrom(changes, FirstFew(order), excerpts))
  {
    FirstFewFacts(changes, order);
    var receipt := ReceiptFrom(changes, FirstFew(order), excerpts);
    forall a, b | a in receipt.changes && b in receipt.changes
                  && a.selector in receipt.Shown() && b.selector in receipt.omitted
      ensures a != b && ShownNoLater(a, b)
    {
      assert a in FirstFew(order);
      SelectorListed(FirstFew(order), b);
    }
  }

  /** The selection of any reported walk is a valid receipt: its changes are the differing selectors
      in order, at most six of them shown, and none that is omitted outranks one that is shown. */
  lemma AssembledReceipt(found: Findings, differing: seq<string>, previous: Lookup, current: Lookup)
    requires ValidLookup(previous) && ValidLookup(current) && Covered(differing, previous, current)
    requires Reports(found, differing, previous, current)
    requires SortedBy(differing, TextLeq) && NoDuplicates(differing) && |differing| <= 128
    ensures Stocked(found.changes, found.excerpts)
    ensures Assemble(found).Valid()
    ensures Assemble(found).changes == found.changes && Selectors(found.changes) == differing
    ensures ShownFirst(Assemble(found))
    ensures |Assemble(found).selected| == Sooner(6, |differing|)
  {
    StockedByWalk(found, differing, previous, current);
    ChangesInOrder(found, differing, previous, current);
    OrderedFindings(found);
  }

  lemma OrderedFindings(found: Findings)
    requires Stocked(found.changes, found.excerpts) && |found.changes| <= 128
    requires SortedBy(Selectors(found.changes), TextLeq) && NoDuplicates(Selectors(found.changes))
    requires Sort(found.changes, SelectorLeq) == found.changes
    ensures Assemble(found).Valid() && Assemble(found).changes == found.changes
    ensures ShownFirst(Assemble(found))
    ensures |Assemble(found).selected| == Sooner(6, |found.changes|)
  {
    var changes := found.changes;
    var order := Sort(changes, ShownNoLater);
    ShownOrder();
    SortSorts(changes, ShownNoLater);
    FirstFewFacts(changes, order);
    StockedSubset(changes, FirstFew(order), found.excerpts);
    ReceiptFromIsValid(changes, FirstFew(order), found.excerpts);
    ReceiptFromShownFirst(changes, order, found.excerpts);
    assert Assemble(found) == ReceiptFrom(changes, FirstFew(order), found.excerpts);
  }

  lemma StockedSubset(changes: seq<Change>, few: seq<Change>, excerpts: map<string, Excerpt>)
    requires Stocked(changes, excerpts) && forall change <- few :: change in changes
    ensures Stocked(few, excerpts)
  {
  }

  lemma StockedByWalk(found: Findings, differing: seq<string>, previous: Lookup, current: Lookup)
    requires ValidLookup(previous) && ValidLookup(current) && Covered(differing, previous, current)
    requires Reports(found, differing, previous, current)
    ensures Stocked(found.changes, found.excerpts)
  {
    ExcerptsBelong(found, differing, previous, current);
    forall change | change in found.changes ensures HasExcerpt(change.selector, found.excerpts) {
      var i :| 0 <= i < |found.changes| && found.changes[i] == change;
      assert differing[i] == change.selector;
    }
  }

  lemma ShownAreChanges(changes: seq<Change>, few: seq<Change>)
    requires forall change <- few :: change in changes
    ensures forall s <- Selectors(few) :: s in Selectors(changes)
  {
    forall s | s in Selectors(few) ensures s in Selectors(changes) {
      var i :| 0 <= i < |few| && Selectors(few)[i] == s;
      assert few[i] in changes;
      var j :| 0 <= j < |changes| && changes[j] == few[i];
      assert Selectors(changes)[j] == s;
    }
  }

  // ----- compare and select -----

  ghost function AllSelectors(previous: Lookup, current: Lookup): (keys: seq<string>)
    ensures Covered(keys, previous, current)
    ensures SortedBy(keys, TextLeq) && NoDuplicates(keys)
    ensures forall key :: key in keys <==> key in previous || key in current
  {
    TextOrder();
    Ascending(previous.Keys + current.Keys, TextLeq)
  }

  /** Assembles the receipt and runs its checks. */
  function Finish(found: Findings): Result<Receipt, Failure> {
    if (forall change <- found.changes :: change.selector in found.excerpts) && Assemble(found).Valid()
    then Ok(Assemble(found)) else Err(ReceiptInvalid)
  }

  function SelectionOver(keys: seq<string>, before: Lookup, after: Lookup): Result<Receipt, Failure>
    requires ValidLookup(before) && ValidLookup(after) && Covered(keys, before, after)
  {
    match Walk(keys, before, after)
    case Err(e) => Err(e)
    case Ok(found) => Finish(found)
  }

  ghost function Selection(previous: seq<Section>, current: seq<Section>): Result<Receipt, Failure>
    requires Snapshot(previous) && Snapshot(current)
  {
    BySelectorFacts(previous);
    BySelectorFacts(current);
    SelectionOver(AllSelectors(BySelector(previous), BySelector(current)), BySelector(previous), BySelector(current))
  }

  /** The selectors of both filings number at most 128. */
  lemma SelectorsBounded(previous: seq<Section>, current: seq<Section>)
    requires Snapshot(previous) && Snapshot(current)
    ensures |AllSelectors(BySelector(previous), BySelector(current))| <= 128
  {
    BySelectorFacts(previous);
    BySelectorFacts(current);
    TextOrder();
    UnionBounded(BySelector(previous).Keys, BySelector(current).Keys);
  }

  lemma {:induction false} UnionBounded<T>(a: set<T>, b: set<T>)
    ensures |a + b| <= |a| + |b|
  {
    assert a + b == a + (b - a);
    assert |a + (b - a)| == |a| + |b - a|;
    assert b == (b - a) + (b * a);
    assert |b| == |b - a| + |b * a|;
  }

  lemma SelectionOverSucceedsIff(keys: seq<string>, before: Lookup, after: Lookup)
    requires ValidLookup(before) && ValidLookup(after) && Covered(keys, before, after)
    requires SortedBy(keys, TextLeq) && NoDuplicates(keys) && |keys| <= 128
    ensures SelectionOver(keys, before, after).Ok? <==> AllAdmissible(keys, before, after)
    ensures SelectionOver(keys, before, after) != Err(ReceiptInvalid)
    ensures SelectionOver(keys, before, after).Ok? ==>
      SelectionOver(keys, before, after) == Ok(Assemble(Walk(keys, before, after).value))
  {
    WalkIff(keys, before, after);
    match Walk(keys, before, after)
    case Err(e) => WalkErrors(keys, before, after);
    case Ok(found) =>
      DifferingKeepsOrder(keys, before, after);
      AssembledReceipt(found, Differing(keys, before, after), before, after);
      FinishOk(found);
  }

  lemma FinishOk(found: Findings)
    requires Stocked(found.changes, found.excerpts)
    requires Assemble(found).Valid()
    ensures Finish(found) == Ok(Assemble(found))
  {
  }

  lemma AllSelectorsAdmissible(before: Lookup, after: Lookup)
    ensures AllAdmissible(AllSelectors(before, after), before, after) <==>
      forall selector :: PairOf(before, after, selector).Admissible()
  {
    var keys := AllSelectors(before, after);
    forall selector | selector !in keys ensures PairOf(before, after, selector).Admissible() {}
  }

  /** A comparison succeeds exactly when no selector moves to another category and no one-sided
      section is cut behind a blank; the receipt's own checks never reject it. */
  lemma SelectionSucceedsIff(previous: seq<Section>, current: seq<Section>)
    requires Snapshot(previous) && Snapshot(current)
    ensures Selection(previous, current).Ok? <==>
      forall selector :: PairOf(BySelector(previous), BySelector(current), selector).Admissible()
    ensures Selection(previous, current) != Err(ReceiptInvalid)
  {
    BySelectorFacts(previous);
    BySelectorFacts(current);
    SelectorsBounded(previous, current);
    var before, after := BySelector(previous), BySelector(current);
    SelectionOverSucceedsIff(AllSelectors(before, after), before, after);
    AllSelectorsAdmissible(before, after);
  }

  lemma {:induction false} WalkErrors(keys: seq<string>, previous: Lookup, current: Lookup)
    requires ValidLookup(previous) && ValidLookup(current) && Covered(keys, previous, current)
    ensures Walk(keys, previous, current) != Err(ReceiptInvalid)
  {
    if |keys| != 0 { WalkErrors(keys[..|keys| - 1], previous, current); }
  }

  lemma ShownComeFromStock(found: Findings)
    requires Stocked(found.changes, found.excerpts) && Sort(found.changes, SelectorLeq) == found.changes
    ensures forall e <- Assemble(found).selected :: e.selector in found.excerpts && found.excerpts[e.selector] == e
  {
    var few := FirstFew(Sort(found.changes, ShownNoLater));
    MembersOfMultiset(found.changes, Sort(found.changes, ShownNoLater));
    StockedSubset(found.changes, few, found.excerpts);
    var selected := ExcerptsFor(few, found.excerpts);
    ExcerptsForFacts(few, found.excerpts);
    assert Assemble(found).selected == selected;
    forall i | 0 <= i < |selected|
      ensures selected[i].selector in found.excerpts && found.excerpts[selected[i].selector] == selected[i]
    {
      assert HasExcerpt(few[i].selector, found.excerpts);
    }
  }

  /** The changes are exactly the selectors whose presence or text differs, each with its own hashes
      and sizes, and every shown excerpt is the excerpt of its own section. */
  ghost predicate Exact(receipt: Receipt, before: Lookup, after: Lookup) {
    && (forall selector :: selector in Selectors(receipt.changes) <==> PairOf(before, after, selector).Differs())
    && (forall change <- receipt.changes :: ExactChange(change, PairOf(before, after, change.selector)))
    && (forall excerpt <- receipt.selected :: ExactExcerpt(excerpt, PairOf(before, after, excerpt.selector)))
  }

  ghost predicate ExactChange(change: Change, pair: Pair) { pair.Valid() && change == pair.ToChange(change.selector) }

  ghost predicate ExactExcerpt(excerpt: Excerpt, pair: Pair) { pair.Valid() && pair.ToExcerpt() == Some(excerpt) }

  lemma ReportedChange(found: Findings, differing: seq<string>, before: Lookup, after: Lookup, change: Change)
    requires ValidLookup(before) && ValidLookup(after) && Covered(differing, before, after)
    requires Reports(found, differing, before, after) && change in found.changes
    ensures ExactChange(change, PairOf(before, after, change.selector))
  {
    var i :| 0 <= i < |found.changes| && found.changes[i] == change;
    assert differing[i] in differing;
  }

  lemma ReportedExcerpt(found: Findings, differing: seq<string>, before: Lookup, after: Lookup, excerpt: Excerpt)
    requires ValidLookup(before) && ValidLookup(after) && Covered(differing, before, after)
    requires Reports(found, differing, before, after)
    requires excerpt.selector in found.excerpts && found.excerpts[excerpt.selector] == excerpt
    ensures ExactExcerpt(excerpt, PairOf(before, after, excerpt.selector))
  {
    assert excerpt.selector in differing;
  }

  lemma ReportsExactly(receipt: Receipt, found: Findings, keys: seq<string>, before: Lookup, after: Lookup)
    requires ValidLookup(before) && ValidLookup(after) && Covered(keys, before, after)
    requires Reports(found, Differing(keys, before, after), before, after)
    requires forall key :: key in keys <==> key in before || key in after
    requires Selectors(found.changes) == Differing(keys, before, after)
    requires receipt.changes == found.changes
    requires forall e <- receipt.selected :: e.selector in found.excerpts && found.excerpts[e.selector] == e
    ensures Exact(receipt, before, after)
  {
    var differing := Differing(keys, before, after);
    forall change | change in receipt.changes ensures ExactChange(change, PairOf(before, after, change.selector)) {
      ReportedChange(found, differing, before, after, change);
    }
    forall e | e in receipt.selected ensures ExactExcerpt(e, PairOf(before, after, e.selector)) {
      ReportedExcerpt(found, differing, before, after, e);
    }
    OnlyKeysDiffer(keys, before, after);
  }

  lemma OnlyKeysDiffer(keys: seq<string>, before: Lookup, after: Lookup)
    requires forall key :: key in keys <==> key in before || key in after
    ensures forall selector :: selector in Differing(keys, before, after) <==> PairOf(before, after, selector).Differs()
  {
  }

  /** What a receipt says: it is exact; the first six changes by category and selector are shown and
      the rest omitted; its own checks hold. */
  lemma SelectionIsExact(previous: seq<Section>, current: seq<Section>)
    requires Snapshot(previous) && Snapshot(current) && Selection(previous, current).Ok?
    ensures var receipt := Selection(previous, current).value;
      && receipt.Valid() && ShownFirst(receipt)
      && |receipt.selected| == Sooner(6, |receipt.changes|)
      && Exact(receipt, BySelector(previous), BySelector(current))
  {
    BySelectorFacts(previous);
    BySelectorFacts(current);
    SelectorsBounded(previous, current);
    var before, after := BySelector(previous), BySelector(current);
    SelectionOverIsExact(AllSelectors(before, after), before, after);
  }

  lemma SelectionOverIsExact(keys: seq<string>, before: Lookup, after: Lookup)
    requires ValidLookup(before) && ValidLookup(after) && Covered(keys, before, after)
    requires SortedBy(keys, TextLeq) && NoDuplicates(keys) && |keys| <= 128
    requires forall key :: key in keys <==> key in before || key in after
    requires SelectionOver(keys, before, after).Ok?
    ensures var receipt := SelectionOver(keys, before, after).value;
      && receipt.Valid() && ShownFirst(receipt)
      && |receipt.selected| == Sooner(6, |receipt.changes|)
      && Exact(receipt, before, after)
  {
    SelectionOverSucceedsIff(keys, before, after);
    WalkIff(keys, before, after);
    var found := Walk(keys, before, after).value;
    DifferingKeepsOrder(keys, before, after);
    AssembledReceipt(found, Differing(keys, before, after), before, after);
    ChangesInOrder(found, Differing(keys, before, after), before, after);
    ShownComeFromStock(found);
    ReportsExactly(Assemble(found), found, keys, before, after);
  }

  /** The source's loop over the sorted selectors. */
  method WalkSelectors(keys: seq<string>, before: Lookup, after: Lookup) returns (r: Result<Findings, Failure>)
    requires ValidLookup(before) && ValidLookup(after) && Covered(keys, before, after)
    ensures r == Walk(keys, before, after)
  {
    var changes: seq<Change> := [];
    var excerpts: map<string, Excerpt> := map[];
    for i := 0 to |keys|
      invariant Walk(keys[..i], before, after) == Ok(Findings(changes, excerpts))
    {
      var key := keys[i];
      var pair := PairOf(before, after, key);
      assert keys[..i + 1][..i] == keys[..i];
      if pair.CategoryMoved() {
        WalkStops(keys, i + 1, before, after);
        return Err(CategoryChanged(key));
      }
      if pair.before.Some? && pair.after.Some? && pair.before.value.Hash() == pair.after.value.Hash() { continue; }
      var excerpt := BuildExcerpt(pair);
      if excerpt.None? {
        WalkStops(keys, i + 1, before, after);
        return Err(ExcerptInvalid(key));
      }
      changes, excerpts := changes + [pair.ToChange(key)], excerpts[key := excerpt.value];
    }
    assert keys[..|keys|] == keys;
    r := Ok(Findings(changes, excerpts));
  }

  method BuildExcerpt(pair: Pair) returns (excerpt: Option<Excerpt>)
    requires pair.Valid()
    ensures excerpt == pair.ToExcerpt()
  {
    if pair.before.Some? && pair.after.Some? {
      excerpt := BuildModified(pair.before.value, pair.after.value);
    } else {
      excerpt := pair.ToExcerpt();
    }
  }

  method CompareAndSelect(previous: seq<Section>, current: seq<Section>) returns (r: Result<Receipt, Failure>)
    requires Snapshot(previous) && Snapshot(current)
    ensures r == Selection(previous, current)
  {
    var before, after := BySelector(previous), BySelector(current);
    BySelectorFacts(previous);
    BySelectorFacts(current);
    TextOrder();
    var keys := ListAscending(before.Keys + after.Keys, TextLeq);
    var found := WalkSelectors(keys, before, after);
    match found {
      case Err(e) => r := Err(e);
      case Ok(findings) => r := Finish(findings);
    }
  }

  /** Once the walk has failed it stays failed with the same error. */
  lemma {:induction false} WalkStops(keys: seq<string>, i: nat, previous: Lookup, current: Lookup)
    requires ValidLookup(previous) && ValidLookup(current) && Covered(keys, previous, current)
    requires i <= |keys| && Walk(keys[..i], previous, current).Err?
    ensures Walk(keys, previous, current) == Walk(keys[..i], previous, current)
    decreases |keys| - i
  {
    if i == |keys| {
      assert keys[..i] == keys;
    } else {
      assert keys[..i + 1][..i] == keys[..i];
      WalkStops(keys, i + 1, previous, current);
    }
  }
}
