/** What a built report and population say, in terms of the fields of their cases and rows alone. */
module ScienceReport {
  import opened Calendar
  import opened Filtering
  import opened Outcomes
  import opened Ordering
  import opened ProspectiveContracts
  import ProspectiveEvaluator
  import opened OutcomeScience

  // ----- the cases that are counted -----

  predicate Finished(c: Case) { c.outcome.status == OutcomeCompleted }

  /** The asset rose by a larger factor than the benchmark. */
  predicate BeatBenchmark(c: Case) {
    var o := c.outcome.observations;
    && c.outcome.status == OutcomeCompleted
    && o.assetReference.Some? && o.assetTarget.Some? && o.benchmarkReference.Some? && o.benchmarkTarget.Some?
    && o.assetTarget.value.close * o.benchmarkReference.value.close
       > o.benchmarkTarget.value.close * o.assetReference.value.close
  }

  /** The case has the dimensions of the key, one by one. */
  predicate BelongsTo(c: Case, key: StratumKey) {
    && c.outcome.plan.horizon == key.horizon && c.outcome.plan.origin == key.origin
    && c.version.publicationSchema == key.publicationSchema && c.version.ruleset == key.ruleset
    && c.version.classification == key.classification && c.version.modelName == key.modelName
    && c.version.modelDigest == key.modelDigest && c.version.promptVersion == key.promptVersion
  }

  /** The counts are those of the cases that are members, each counted on its own. */
  ghost predicate Describes(counts: Counts, cases: seq<Case>, member: Case -> bool) {
    && counts.sample == |set i | 0 <= i < |cases| && member(cases[i])|
    && counts.completed == |set i | 0 <= i < |cases| && member(cases[i]) && Finished(cases[i])|
    && counts.unavailable == |set i | 0 <= i < |cases| && member(cases[i]) && !Finished(cases[i])|
    && counts.favorable == |set i | 0 <= i < |cases| && member(cases[i]) && BeatBenchmark(cases[i])|
    && counts.adverse == |set i | 0 <= i < |cases| && member(cases[i]) && Finished(cases[i]) && !BeatBenchmark(cases[i])|
  }

  /** For a valid outcome, a positive relative return is a larger factor. */
  lemma FavorableIffBeat(c: Case)
    requires c.outcome.Valid()
    ensures c.Favorable() <==> BeatBenchmark(c)
  {
    if c.outcome.status.OutcomeCompleted? { ProspectiveEvaluator.CompletedReturns(c.outcome); }
  }

  lemma TallyIsNumber(cases: seq<Case>, s: Slice, f: Feature, p: Case -> bool)
    requires forall c <- cases :: (In(c, s) && Has(c, f)) == p(c)
    ensures Tally(cases, s, f) == |Indices(cases, p)|
  {
    KeepSame(cases, Test(s, f), p);
    KeepCountsIndices(cases, p);
  }

  lemma Complement(all: set<int>, some: set<int>, rest: set<int>)
    requires some <= all && rest == all - some
    ensures |rest| == |all| - |some|
  {
    assert all == some + rest && some !! rest;
  }

  lemma SampleDescribes(cases: seq<Case>, s: Slice, member: Case -> bool)
    requires forall c <- cases :: In(c, s) == member(c)
    ensures Tally(cases, s, Every) == |set i | 0 <= i < |cases| && member(cases[i])|
  {
    TallyIsNumber(cases, s, Every, member);
    assert Indices(cases, member) == set i | 0 <= i < |cases| && member(cases[i]);
  }

  lemma CompletedDescribes(cases: seq<Case>, s: Slice, member: Case -> bool)
    requires forall c <- cases :: In(c, s) == member(c)
    ensures Tally(cases, s, IsCompleted) == |set i | 0 <= i < |cases| && member(cases[i]) && Finished(cases[i])|
  {
    var p := (c: Case) => member(c) && Finished(c);
    TallyIsNumber(cases, s, IsCompleted, p);
    assert Indices(cases, p) == set i | 0 <= i < |cases| && member(cases[i]) && Finished(cases[i]);
  }

  predicate CountsBeats(c: Case) { c.Favorable() == BeatBenchmark(c) }

  lemma FavorableDescribes(cases: seq<Case>, s: Slice, member: Case -> bool)
    requires forall c <- cases :: CountsBeats(c) && In(c, s) == member(c)
    ensures Tally(cases, s, IsFavorable) == |set i | 0 <= i < |cases| && member(cases[i]) && BeatBenchmark(cases[i])|
  {
    var p := (c: Case) => member(c) && BeatBenchmark(c);
    assert forall c <- cases :: CountsBeats(c) ==> Has(c, IsFavorable) == BeatBenchmark(c);
    TallyIsNumber(cases, s, IsFavorable, p);
    assert Indices(cases, p) == set i | 0 <= i < |cases| && member(cases[i]) && BeatBenchmark(cases[i]);
  }

  lemma RestDescribes(cases: seq<Case>, member: Case -> bool)
    ensures |set i | 0 <= i < |cases| && member(cases[i]) && !Finished(cases[i])|
         == |set i | 0 <= i < |cases| && member(cases[i])|
          - |set i | 0 <= i < |cases| && member(cases[i]) && Finished(cases[i])|
    ensures |set i | 0 <= i < |cases| && member(cases[i]) && Finished(cases[i]) && !BeatBenchmark(cases[i])|
         == |set i | 0 <= i < |cases| && member(cases[i]) && Finished(cases[i])|
          - |set i | 0 <= i < |cases| && member(cases[i]) && BeatBenchmark(cases[i])|
  {
    Complement(set i | 0 <= i < |cases| && member(cases[i]),
               set i | 0 <= i < |cases| && member(cases[i]) && Finished(cases[i]),
               set i | 0 <= i < |cases| && member(cases[i]) && !Finished(cases[i]));
    Complement(set i | 0 <= i < |cases| && member(cases[i]) && Finished(cases[i]),
               set i | 0 <= i < |cases| && member(cases[i]) && BeatBenchmark(cases[i]),
               set i | 0 <= i < |cases| && member(cases[i]) && Finished(cases[i]) && !BeatBenchmark(cases[i]));
  }

  lemma SliceDescribes(cases: seq<Case>, s: Slice, member: Case -> bool)
    requires forall c <- cases :: c.outcome.Valid() && In(c, s) == member(c)
    ensures Describes(CountsOf(cases, s), cases, member)
  {
    forall c | c in cases ensures CountsBeats(c) { FavorableIffBeat(c); }
    SampleDescribes(cases, s, member);
    CompletedDescribes(cases, s, member);
    FavorableDescribes(cases, s, member);
    RestDescribes(cases, member);
  }

  lemma TotalsDescribe(cases: seq<Case>, at: Instant, strata: seq<Stratum>)
    requires forall c <- cases :: c.outcome.Valid()
    ensures var report := ReportFrom(cases, at, strata);
      && Describes(report.total, cases, (c: Case) => true)
      && Describes(report.forward, cases, (c: Case) => c.outcome.plan.origin == GenuineForward)
      && Describes(report.reconstructed, cases, (c: Case) => c.outcome.plan.origin == Reconstructed)
  {
    SliceDescribes(cases, Everything, (c: Case) => true);
    SliceDescribes(cases, OfOrigin(GenuineForward), (c: Case) => c.outcome.plan.origin == GenuineForward);
    SliceDescribes(cases, OfOrigin(Reconstructed), (c: Case) => c.outcome.plan.origin == Reconstructed);
  }

  lemma StratumDescribes(key: StratumKey, cases: seq<Case>, estimate: Estimate)
    requires forall c <- cases :: c.outcome.Valid()
    ensures Describes(StratumOf(key, cases, estimate).counts, cases, (c: Case) => BelongsTo(c, key))
  {
    SliceDescribes(cases, OfKey(key), (c: Case) => BelongsTo(c, key));
  }

  /** Every number of a built report counts cases: in the totals all of them, those of one origin in its
      own counts, and in each stratum those that have all eight dimensions of its key. A case is
      completed by its status, favorable when the asset's closes rose by the larger factor, and adverse
      when it is completed and they did not. */
  lemma ReportCountsCases(cases: seq<Case>, at: Instant, estimate: Estimate)
    requires BuildReport(cases, at, estimate).Ok? && forall c <- cases :: c.outcome.Valid()
    ensures var report := BuildReport(cases, at, estimate).value;
      && Describes(report.total, cases, (c: Case) => true)
      && Describes(report.forward, cases, (c: Case) => c.outcome.plan.origin == GenuineForward)
      && Describes(report.reconstructed, cases, (c: Case) => c.outcome.plan.origin == Reconstructed)
      && forall stratum <- report.strata ::
           Describes(stratum.counts, cases, (c: Case) => BelongsTo(c, stratum.key))
  {
    ReportBuiltIffAccepted(cases, at, estimate);
    var keys := KeyList(cases);
    var strata := StrataOf(keys, cases, estimate);
    TotalsDescribe(cases, at, strata);
    forall stratum | stratum in strata
      ensures Describes(stratum.counts, cases, (c: Case) => BelongsTo(c, stratum.key))
    {
      var i :| 0 <= i < |strata| && strata[i] == stratum;
      StratumDescribes(keys[i], cases, estimate);
    }
  }

  /** What a stratum concludes from its counts: a forward one carries the estimate of its favorable and
      completed cases, is powered from 194 completed cases and assessed from 30 on; a reconstructed one
      carries nothing. */
  predicate Concludes(stratum: Stratum, estimate: Estimate) {
    && stratum.counts.favorable >= 0 && stratum.counts.completed >= 0
    && match stratum.key.origin
       case GenuineForward =>
         && stratum.statistics == estimate(stratum.counts.favorable, stratum.counts.completed)
         && (stratum.power == if stratum.counts.completed >= 194 then PowerSufficient else PowerInsufficient)
         && (stratum.disposition == if stratum.counts.completed >= 30 then NotConclusive else InsufficientSample)
       case Reconstructed =>
         stratum.statistics == Statistics(None, None) && stratum.power == NotAssessed && stratum.disposition == NotConclusive
  }

  lemma StrataConclude(cases: seq<Case>, at: Instant, estimate: Estimate)
    requires BuildReport(cases, at, estimate).Ok?
    ensures forall stratum <- BuildReport(cases, at, estimate).value.strata :: Concludes(stratum, estimate)
  {
    ReportBuiltIffAccepted(cases, at, estimate);
    var keys := KeyList(cases);
    var strata := StrataOf(keys, cases, estimate);
    forall stratum | stratum in strata ensures Concludes(stratum, estimate) {
      var i :| 0 <= i < |strata| && strata[i] == stratum;
      assert stratum == StratumOf(keys[i], cases, estimate);
    }
  }

  // ----- which reports are built -----

  predicate SameOutcome(a: Case, b: Case) { a.outcomeId == b.outcomeId }

  predicate SamePlan(a: Case, b: Case) {
    a.outcome.plan.publicationId == b.outcome.plan.publicationId && a.outcome.plan.horizon == b.outcome.plan.horizon
  }

  /** Known at the instant, enrolled after the lock if forward, and measured against SPY on ARCX. */
  predicate Admissible(c: Case, at: Instant) {
    && c.outcome.appendedAt <= at
    && (c.outcome.plan.origin == GenuineForward ==> c.outcome.plan.enrolledAt >= 1_788_826_620_000_000)
    && c.outcome.plan.benchmark.symbol == "SPY" && c.outcome.plan.benchmark.mic == "ARCX"
  }

  lemma AdmissibleIff(c: Case, at: Instant)
    ensures Admissible(c, at) <==> Appended(c, at) && LockRespected(c) && Benchmarked(c)
  {
  }

  lemma GuardsByParts(cases: seq<Case>, at: Instant)
    ensures Guards(cases, at).None? <==>
      && at >= LOCKED_AT && DistinctKeys(cases, OutcomeIdOf) && DistinctKeys(cases, PlanIdOf)
      && (forall c <- cases :: Appended(c, at) && LockRespected(c) && Benchmarked(c))
  {
  }

  lemma DistinctCasesIff(cases: seq<Case>)
    ensures DistinctKeys(cases, OutcomeIdOf) <==> forall i, j | 0 <= i < j < |cases| :: !SameOutcome(cases[i], cases[j])
    ensures DistinctKeys(cases, PlanIdOf) <==> forall i, j | 0 <= i < j < |cases| :: !SamePlan(cases[i], cases[j])
  {
  }

  /** Which reports are built: those made from the lock of 8 September 2026, 00:17, on, from cases with
      their own outcomes and plans that are all admissible. */
  lemma ReportBuiltIff(cases: seq<Case>, at: Instant, estimate: Estimate)
    ensures BuildReport(cases, at, estimate).Ok? <==>
      && at >= 1_788_826_620_000_000
      && (forall i, j | 0 <= i < j < |cases| :: !SameOutcome(cases[i], cases[j]) && !SamePlan(cases[i], cases[j]))
      && (forall c <- cases :: Admissible(c, at))
  {
    ReportBuiltIffAccepted(cases, at, estimate);
    GuardsByParts(cases, at);
    DistinctCasesIff(cases);
    forall c | c in cases ensures Admissible(c, at) <==> Appended(c, at) && LockRespected(c) && Benchmarked(c) {
      AdmissibleIff(c, at);
    }
  }

  // ----- the order of the strata -----

  lemma LexStep<T>(a: seq<T>, b: seq<T>, leq: (T, T) -> bool, i: nat)
    requires i < |a| == |b|
    ensures LexLeq(a[i..], b[i..], leq)
       <==> if a[i] == b[i] then LexLeq(a[i + 1..], b[i + 1..], leq) else leq(a[i], b[i])
  {
    assert a[i..][1..] == a[i + 1..] && b[i..][1..] == b[i + 1..];
  }

  predicate HorizonFirst(a: Horizon, b: Horizon) { a == T1 || b == T5 }

  predicate ClassFirst(a: Classification, b: Classification) { a == Mixed || b == Watch || (a == Opportunity && b == Risk) }

  lemma HorizonOrder(a: Horizon, b: Horizon)
    requires a != b
    ensures HorizonText(a) != HorizonText(b) && (TextLeq(HorizonText(a), HorizonText(b)) <==> HorizonFirst(a, b))
  {
    assert HorizonText(T1)[0] == '1' && HorizonText(T5)[0] == '5' && HorizonText(T20)[0] == '2';
    assert HorizonText(a)[0] != HorizonText(b)[0];
  }

  lemma OriginOrder(a: Origin, b: Origin)
    requires a != b
    ensures OriginText(a) != OriginText(b) && (TextLeq(OriginText(a), OriginText(b)) <==> a == GenuineForward)
  {
    assert OriginText(GenuineForward)[0] == 'G' && OriginText(Reconstructed)[0] == 'R';
    assert OriginText(a)[0] != OriginText(b)[0];
  }

  lemma ClassOrder(a: Classification, b: Classification)
    requires a != b
    ensures ClassificationText(a) != ClassificationText(b)
    ensures TextLeq(ClassificationText(a), ClassificationText(b)) <==> ClassFirst(a, b)
  {
    assert ClassificationText(Opportunity)[0] == 'o' && ClassificationText(Mixed)[0] == 'm';
    assert ClassificationText(Risk)[0] == 'r' && ClassificationText(Watch)[0] == 'w';
    assert ClassificationText(a)[0] != ClassificationText(b)[0];
  }

  /** Strata are listed by horizon (1, 20, 5), then forward before reconstructed, then by schema and
      ruleset, then mixed, opportunity, risk, watch, then by the model's name, digest and prompt. */
  lemma KeyLeqIff(a: StratumKey, b: StratumKey)
    ensures KeyLeq(a, b) <==>
      if a.horizon != b.horizon then HorizonFirst(a.horizon, b.horizon)
      else if a.origin != b.origin then a.origin == GenuineForward
      else if a.publicationSchema != b.publicationSchema then TextLeq(a.publicationSchema, b.publicationSchema)
      else if a.ruleset != b.ruleset then TextLeq(a.ruleset, b.ruleset)
      else if a.classification != b.classification then ClassFirst(a.classification, b.classification)
      else if a.modelName != b.modelName then TextLeq(a.modelName, b.modelName)
      else if a.modelDigest != b.modelDigest then TextLeq(a.modelDigest, b.modelDigest)
      else a.promptVersion == b.promptVersion || TextLeq(a.promptVersion, b.promptVersion)
  {
    var s, t := a.Texts(), b.Texts();
    assert s[0..] == s && t[0..] == t && s[8..] == [] && t[8..] == [];
    LexStep(s, t, TextLeq, 0);
    LexStep(s, t, TextLeq, 1);
    LexStep(s, t, TextLeq, 2);
    LexStep(s, t, TextLeq, 3);
    LexStep(s, t, TextLeq, 4);
    LexStep(s, t, TextLeq, 5);
    LexStep(s, t, TextLeq, 6);
    LexStep(s, t, TextLeq, 7);
    if a.horizon != b.horizon { HorizonOrder(a.horizon, b.horizon); }
    if a.origin != b.origin { OriginOrder(a.origin, b.origin); }
    if a.classification != b.classification { ClassOrder(a.classification, b.classification); }
  }
}

/** What a built population says about the rows it was built from. */
module PopulationReport {
  import opened Calendar
  import opened Filtering
  import opened Outcomes
  import opened Ordering
  import opened ProspectiveContracts
  import opened OutcomeScience
  import opened SciencePopulation

  /** The row's plan, publication and outcome fit each other and were known by the cutoff. */
  predicate Fits(row: Row, cutoff: Instant) {
    && row.plan.Valid() && row.plan.enrolledAt <= cutoff
    && row.publication.Some? && row.publication.value.briefId == row.plan.publicationId
    && row.publication.value.publishedAt == row.plan.publishedAt
    && row.publication.value.ticker == Some(row.plan.asset.symbol)
    && (row.outcome.Some? ==>
          row.outcome.value.1.Valid() && row.outcome.value.1.plan == row.plan && row.outcome.value.1.appendedAt <= cutoff)
  }

  lemma RowSoundIff(row: Row, cutoff: Instant)
    ensures RowSound(row, cutoff) <==> Fits(row, cutoff)
  {
  }

  predicate OtherPlan(a: Row, b: Row) { a.plan.publicationId != b.plan.publicationId || a.plan.horizon != b.plan.horizon }

  predicate Terminal(row: Row) { row.outcome.Some? }

  lemma {:induction false} CasesAreTerminal(rows: seq<Row>, cutoff: Instant)
    requires forall row <- rows :: RowSound(row, cutoff)
    ensures |CasesOf(rows, cutoff)| == |Keep(rows, Terminal)|
  {
    if |rows| != 0 { CasesAreTerminal(rows[..|rows| - 1], cutoff); }
  }

  lemma WaitingNumbers(rows: seq<Row>, cutoff: Instant)
    ensures |Keep(rows, IsNotYetDue(cutoff))|
         == |set i | 0 <= i < |rows| && rows[i].outcome.None? && rows[i].plan.targetCloseAt > cutoff|
    ensures |Keep(rows, IsOverdue(cutoff))|
         == |set i | 0 <= i < |rows| && rows[i].outcome.None? && rows[i].plan.targetCloseAt <= cutoff|
    ensures |Keep(rows, Terminal)| == |set i | 0 <= i < |rows| && rows[i].outcome.Some?|
  {
    KeepCountsIndices(rows, IsNotYetDue(cutoff));
    KeepCountsIndices(rows, IsOverdue(cutoff));
    KeepCountsIndices(rows, Terminal);
    assert Indices(rows, IsNotYetDue(cutoff))
        == set i | 0 <= i < |rows| && rows[i].outcome.None? && rows[i].plan.targetCloseAt > cutoff;
    assert Indices(rows, IsOverdue(cutoff))
        == set i | 0 <= i < |rows| && rows[i].outcome.None? && rows[i].plan.targetCloseAt <= cutoff;
    assert Indices(rows, Terminal) == set i | 0 <= i < |rows| && rows[i].outcome.Some?;
  }

  lemma SoundIff(rows: seq<Row>, cutoff: Instant)
    ensures Sound(rows, cutoff) <==>
      && (forall row <- rows :: Fits(row, cutoff))
      && forall i, j | 0 <= i < j < |rows| :: OtherPlan(rows[i], rows[j])
  {
    forall row | row in rows ensures RowSound(row, cutoff) <==> Fits(row, cutoff) { RowSoundIff(row, cutoff); }
    assert forall i, j | 0 <= i < j < |rows| :: RowId(rows[i]) != RowId(rows[j]) <==> OtherPlan(rows[i], rows[j]);
  }

  /** Which populations are built, and their numbers, from the rows' own fields. */
  lemma PopulationCountsRows(rows: seq<Row>, cutoff: Instant)
    ensures BuildPopulation(rows, cutoff).Ok? <==>
      && (forall row <- rows :: Fits(row, cutoff))
      && (forall i, j | 0 <= i < j < |rows| :: OtherPlan(rows[i], rows[j]))
      && |set i | 0 <= i < |rows| && rows[i].outcome.Some?| <= 100_000
    ensures BuildPopulation(rows, cutoff).Ok? ==>
      var p := BuildPopulation(rows, cutoff).value;
      && p.cutoff == cutoff && p.enrolled == |rows|
      && p.terminal == |set i | 0 <= i < |rows| && rows[i].outcome.Some?|
      && p.notYetDue == |set i | 0 <= i < |rows| && rows[i].outcome.None? && rows[i].plan.targetCloseAt > cutoff|
      && p.overdue == |set i | 0 <= i < |rows| && rows[i].outcome.None? && rows[i].plan.targetCloseAt <= cutoff|
  {
    PopulationIff(rows, cutoff);
    SoundIff(rows, cutoff);
    WaitingNumbers(rows, cutoff);
    if Sound(rows, cutoff) { CasesAreTerminal(rows, cutoff); }
  }

  /** The case is the row's: its outcome, and its publication's lineage field by field. */
  predicate CaseOfRow(c: Case, row: Row) {
    && row.outcome == Some((c.outcomeId, c.outcome))
    && row.publication.Some? && row.publication.value.ticker == Some(c.version.asset)
    && var brief := row.publication.value;
       && c.version.publicationId == brief.briefId && c.version.publishedAt == brief.publishedAt
       && c.version.publicationSchema == brief.schema && c.version.ruleset == brief.ruleset
       && c.version.classification == brief.classification && c.version.modelName == brief.modelName
       && c.version.modelDigest == brief.modelDigest && c.version.promptVersion == brief.promptVersion
  }

  /** The case is that of some terminal row. */
  ghost predicate FromRows(c: Case, rows: seq<Row>) { exists row :: row in rows && CaseOfRow(c, row) }

  /** Some case is that of the row. */
  ghost predicate HasCase(cases: seq<Case>, row: Row) { exists c :: c in cases && CaseOfRow(c, row) }

  lemma OwnCase(row: Row, cutoff: Instant)
    requires RowSound(row, cutoff) && row.outcome.Some?
    ensures CaseOfRow(ToCase(row), row)
  {
  }

  lemma FromMoreRows(c: Case, front: seq<Row>, rows: seq<Row>)
    requires FromRows(c, front) && forall row <- front :: row in rows
    ensures FromRows(c, rows)
  {
  }

  lemma {:induction false} CasesComeFromRows(rows: seq<Row>, cutoff: Instant)
    requires forall row <- rows :: RowSound(row, cutoff)
    ensures forall c <- CasesOf(rows, cutoff) :: FromRows(c, rows)
  {
    if |rows| != 0 {
      var front, last := rows[..|rows| - 1], rows[|rows| - 1];
      CasesComeFromRows(front, cutoff);
      assert last in rows;
      forall c | c in CasesOf(rows, cutoff) ensures FromRows(c, rows) {
        if c in CasesOf(front, cutoff) { FromMoreRows(c, front, rows); } else { OwnCase(last, cutoff); }
      }
    }
  }

  lemma {:induction false} RowsHaveCases(rows: seq<Row>, cutoff: Instant)
    requires forall row <- rows :: RowSound(row, cutoff)
    ensures forall row <- rows :: row.outcome.Some? ==> HasCase(CasesOf(rows, cutoff), row)
  {
    if |rows| != 0 {
      var front, last := rows[..|rows| - 1], rows[|rows| - 1];
      RowsHaveCases(front, cutoff);
      assert last in rows && rows == front + [last];
      var before, cases := CasesOf(front, cutoff), CasesOf(rows, cutoff);
      forall row | row in rows && row.outcome.Some? ensures HasCase(cases, row) {
        if row in front {
          var c :| c in before && CaseOfRow(c, row);
          assert c in cases;
        } else {
          OwnCase(last, cutoff);
          assert ToCase(last) in cases;
        }
      }
    }
  }

  /** The cases of a population are those of its terminal rows, with their publications' lineage. */
  lemma PopulationCasesAreRows(rows: seq<Row>, cutoff: Instant)
    requires BuildPopulation(rows, cutoff).Ok?
    ensures forall c <- BuildPopulation(rows, cutoff).value.cases :: FromRows(c, rows)
    ensures forall row <- rows :: row.outcome.Some? ==> HasCase(BuildPopulation(rows, cutoff).value.cases, row)
  {
    PopulationIff(rows, cutoff);
    CasesComeFromRows(rows, cutoff);
    RowsHaveCases(rows, cutoff);
  }
}
