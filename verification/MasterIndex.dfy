/** The ten-digit form of an SEC Central Index Key. */
module SecIdentifiers {
  /** Left-pads a CIK with zeros to ten characters. */
  function Padded(cik: string): (padded: string)
    ensures |padded| == if |cik| < 10 then 10 else |cik|
    decreases 10 - |cik|
  {
    if |cik| >= 10 then cik else Padded("0" + cik)
  }

  /** The second text is the first one behind zeros. */
  predicate PadsOut(cik: string, padded: string) {
    && |cik| <= |padded| && padded[|padded| - |cik|..] == cik
    && forall i | 0 <= i < |padded| - |cik| :: padded[i] == '0'
  }

  /** Behind zeros, and no more of them than ten characters need. */
  predicate StandsFor(listed: string, cik: string) {
    PadsOut(cik, listed) && |listed| == if |cik| <= 10 then 10 else |cik|
  }

  lemma {:induction false} PaddedStandsFor(cik: string)
    ensures StandsFor(Padded(cik), cik)
    decreases 10 - |cik|
  {
    if |cik| < 10 {
      PaddedStandsFor("0" + cik);
      var padded := Padded(cik);
      var k := |padded| - |cik|;
      assert padded[k - 1..] == "0" + cik;
      assert padded[k..] == padded[k - 1..][1..];
      assert padded[k - 1] == padded[k - 1..][0];
    } else {
      assert cik[0..] == cik;
    }
  }

  lemma OneStandsFor(x: string, y: string, cik: string)
    requires StandsFor(x, cik) && StandsFor(y, cik)
    ensures x == y
  {
    var k := |x| - |cik|;
    assert x == x[..k] + x[k..] && y == y[..k] + y[k..];
  }

  /** Two keys stand for one issuer when they are the same up to leading zeros. */
  predicate SameIssuer(a: string, b: string) {
    a == b || (|a| <= 10 && |b| <= 10 && (PadsOut(a, b) || PadsOut(b, a)))
  }

  lemma PadsOutTwice(a: string, b: string, c: string)
    requires PadsOut(a, b) && PadsOut(b, c)
    ensures PadsOut(a, c)
  {
    var k, m := |c| - |b|, |b| - |a|;
    assert c[k..][m..] == c[k + m..];
    forall i | 0 <= i < |c| - |a| ensures c[i] == '0' {
      if i >= k { assert c[i] == c[k..][i - k]; }
    }
  }

  lemma ShorterPadsOut(a: string, b: string, c: string)
    requires PadsOut(a, c) && PadsOut(b, c) && |a| <= |b|
    ensures PadsOut(a, b)
  {
    var k := |c| - |b|;
    assert b == c[k..];
    assert b[|b| - |a|..] == c[|c| - |a|..];
    forall i | 0 <= i < |b| - |a| ensures b[i] == '0' { assert b[i] == c[k + i]; }
  }

  /** The normalised keys are equal exactly for the same issuer. */
  lemma PaddedEqualIff(a: string, b: string)
    ensures Padded(a) == Padded(b) <==> SameIssuer(a, b)
  {
    PaddedStandsFor(a);
    PaddedStandsFor(b);
    if Padded(a) == Padded(b) {
      if |a| <= |b| { ShorterPadsOut(a, b, Padded(b)); } else { ShorterPadsOut(b, a, Padded(a)); }
      if |a| > 10 || |b| > 10 { assert a[0..] == a && b[0..] == b; }
    }
    if PadsOut(a, b) && |b| <= 10 {
      PadsOutTwice(a, b, Padded(b));
      OneStandsFor(Padded(a), Padded(b), a);
    }
    if PadsOut(b, a) && |a| <= 10 {
      PadsOutTwice(b, a, Padded(a));
      OneStandsFor(Padded(a), Padded(b), b);
    }
  }
}

/** Grouping of a daily SEC master index by accession. The financing and the accounting source run the
    same algorithm over their own form vocabularies, so the form is a type parameter. */
module MasterIndex {
  import opened Calendar
  import opened Outcomes
  import opened Ordering
  import opened SecIdentifiers

  const MAXIMUM_ROWS: nat := 5_000
  const MAXIMUM_IDENTITIES: nat := 16

  /** The file name of an index line, as its pattern splits it. */
  datatype Path = Path(cik: string, accession: string)

  /** One line of the index after splitting: its fields as far as they could be read. */
  datatype Line<F> = Line(
    fieldCount: nat, cik: string, name: string, form: Option<F>, filedOn: Option<Day>, path: Option<Path>)

  /** An accepted line. */
  datatype Row<F> = Row(accession: string, cik: string, name: string, form: F, filedOn: Day)

  /** A line is skipped unless it has five fields, a supported form, a path of its own CIK, a date and
      a name. */
  function Accept<F>(line: Line<F>): Option<Row<F>> {
    if line.fieldCount != 5 then None
    else if line.form.None? then None
    else if line.path.None? || line.path.value.cik != line.cik then None
    else if line.filedOn.None? then None
    else if line.name == "" then None
    else Some(Row(line.path.value.accession, Padded(line.cik), line.name, line.form.value, line.filedOn.value))
  }

  function AcceptedRows<F>(lines: seq<Line<F>>): seq<Row<F>> {
    if |lines| == 0 then []
    else
      var rest := AcceptedRows(lines[..|lines| - 1]);
      match Accept(lines[|lines| - 1])
      case None => rest
      case Some(row) => rest + [row]
  }

  datatype Candidate<F> = Candidate(accession: string, ciks: seq<string>, names: seq<string>, form: F, filedOn: Day)
  {
    /** The record's validator at the day the index was retrieved. */
    predicate Valid(retrievedOn: Day) {
      && 1 <= |ciks| <= MAXIMUM_IDENTITIES && 1 <= |names| <= MAXIMUM_IDENTITIES
      && |ciks| == |names|
      && SortedBy(ciks, TextLeq) && NoDuplicates(ciks)
      && filedOn <= retrievedOn
    }
  }

  datatype IndexError = TooManyRows | InvalidCandidate

  // ----- the order-free specification -----

  /** Two rows of one accession that cannot describe one filing: another form or date, or another name
      for the same normalised CIK. */
  predicate Clash<F(==)>(a: Row<F>, b: Row<F>) {
    && a.accession == b.accession
    && (a.form != b.form || a.filedOn != b.filedOn || (a.cik == b.cik && a.name != b.name))
  }

  ghost predicate Conflicted<F>(rows: seq<Row<F>>, accession: string) {
    exists a <- rows, b <- rows :: a.accession == accession && Clash(a, b)
  }

  ghost predicate Listed<F>(rows: seq<Row<F>>, accession: string) {
    exists row <- rows :: row.accession == accession
  }

  /** The candidate says exactly what the rows of its accession say. */
  ghost predicate Describes<F>(c: Candidate<F>, rows: seq<Row<F>>) {
    && SortedBy(c.ciks, TextLeq) && NoDuplicates(c.ciks) && |c.names| == |c.ciks| > 0
    && (forall row <- rows :: row.accession == c.accession ==> row.cik in c.ciks)
    && (forall i | 0 <= i < |c.ciks| :: Row(c.accession, c.ciks[i], c.names[i], c.form, c.filedOn) in rows)
  }

  function Accessions<F>(index: seq<Candidate<F>>): seq<string> {
    seq(|index|, i requires 0 <= i < |index| => index[i].accession)
  }

  /** An index lists, in ascending order, exactly the accessions whose rows all agree. */
  ghost predicate IsIndex<F>(index: seq<Candidate<F>>, rows: seq<Row<F>>) {
    && SortedBy(Accessions(index), TextLeq) && NoDuplicates(Accessions(index))
    && (forall a :: a in Accessions(index) <==> Listed(rows, a) && !Conflicted(rows, a))
    && (forall c <- index :: Describes(c, rows))
  }

  /** What parsing must return. */
  ghost predicate Meets<F(!new)>(r: Result<seq<Candidate<F>>, IndexError>, rows: seq<Row<F>>, retrievedOn: Day) {
    match r
    case Err(TooManyRows) => |rows| > MAXIMUM_ROWS
    case Err(InvalidCandidate) =>
      |rows| <= MAXIMUM_ROWS
      && exists index: seq<Candidate<F>> :: IsIndex(index, rows) && exists c <- index :: !c.Valid(retrievedOn)
    case Ok(index) =>
      |rows| <= MAXIMUM_ROWS && IsIndex(index, rows) && forall c <- index :: c.Valid(retrievedOn)
  }

  // ----- the specification determines the result -----

  lemma SameAt<F(!new)>(a: Candidate<F>, b: Candidate<F>, rows: seq<Row<F>>, i: nat)
    requires Describes(a, rows) && Describes(b, rows) && a.accession == b.accession
    requires !Conflicted(rows, a.accession) && a.ciks == b.ciks && i < |a.ciks|
    ensures a.names[i] == b.names[i] && a.form == b.form && a.filedOn == b.filedOn
  {
    var x := Row(a.accession, a.ciks[i], a.names[i], a.form, a.filedOn);
    var y := Row(b.accession, b.ciks[i], b.names[i], b.form, b.filedOn);
    assert x in rows && y in rows && !Clash(x, y);
  }

  /** Two candidates that describe the same accession are equal. */
  lemma OneDescription<F(!new)>(a: Candidate<F>, b: Candidate<F>, rows: seq<Row<F>>)
    requires Describes(a, rows) && Describes(b, rows) && a.accession == b.accession
    requires !Conflicted(rows, a.accession)
    ensures a == b
  {
    SameCiks(a, b, rows);
    SameAt(a, b, rows, 0);
    forall i | 0 <= i < |a.ciks| ensures a.names[i] == b.names[i] { SameAt(a, b, rows, i); }
    assert a.names == b.names;
  }

  lemma SameCiks<F(!new)>(a: Candidate<F>, b: Candidate<F>, rows: seq<Row<F>>)
    requires Describes(a, rows) && Describes(b, rows) && a.accession == b.accession
    ensures a.ciks == b.ciks
  {
    CiksInclude(a, b, rows);
    CiksInclude(b, a, rows);
    TextOrder();
    SameMembersSameSequence(a.ciks, b.ciks, TextLeq);
  }

  lemma CiksInclude<F(!new)>(a: Candidate<F>, b: Candidate<F>, rows: seq<Row<F>>)
    requires Describes(a, rows) && Describes(b, rows) && a.accession == b.accession
    ensures forall cik <- a.ciks :: cik in b.ciks
  {
    forall cik | cik in a.ciks ensures cik in b.ciks {
      var i :| 0 <= i < |a.ciks| && a.ciks[i] == cik;
      assert Row(a.accession, a.ciks[i], a.names[i], a.form, a.filedOn).cik in b.ciks;
    }
  }

  /** The rows have one index. */
  lemma OneIndex<F(!new)>(x: seq<Candidate<F>>, y: seq<Candidate<F>>, rows: seq<Row<F>>)
    requires IsIndex(x, rows) && IsIndex(y, rows)
    ensures x == y
  {
    var a, b := Accessions(x), Accessions(y);
    TextOrder();
    SameMembersSameSequence(a, b, TextLeq);
    forall i | 0 <= i < |x| ensures x[i] == y[i] {
      assert x[i].accession == a[i] && y[i].accession == b[i] && a[i] in a;
      OneDescription(x[i], y[i], rows);
    }
  }

  /** Which rows occur decides the index; how often and in which order does not. */
  lemma IndexOfMembers<F>(index: seq<Candidate<F>>, rows: seq<Row<F>>, other: seq<Row<F>>)
    requires IsIndex(index, rows) && forall row :: row in rows <==> row in other
    ensures IsIndex(index, other)
  {
    forall a ensures Listed(rows, a) == Listed(other, a) && Conflicted(rows, a) == Conflicted(other, a) {}
  }

  /** A listed candidate fails its validator only by too many identities or a date after retrieval. */
  lemma ListedIsValidIff<F>(index: seq<Candidate<F>>, rows: seq<Row<F>>, c: Candidate<F>, retrievedOn: Day)
    requires IsIndex(index, rows) && c in index
    ensures c.Valid(retrievedOn) <==> |c.ciks| <= MAXIMUM_IDENTITIES && c.filedOn <= retrievedOn
  {
    assert Describes(c, rows);
  }

  lemma {:induction false} AcceptedConcat<F>(a: seq<Line<F>>, b: seq<Line<F>>)
    ensures AcceptedRows(a + b) == AcceptedRows(a) + AcceptedRows(b)
  {
    if |b| == 0 {
      assert a + b == a;
    } else {
      assert (a + b)[..|a + b| - 1] == a + b[..|b| - 1];
      AcceptedConcat(a, b[..|b| - 1]);
    }
  }

  ghost function AcceptedBag<F>(lines: seq<Line<F>>): multiset<Row<F>> { multiset(AcceptedRows(lines)) }

  /** Rearranging the lines rearranges the accepted rows. */
  lemma AcceptedOfRearranged<F(!new)>(a: seq<Line<F>>, b: seq<Line<F>>)
    requires multiset(a) == multiset(b)
    ensures multiset(AcceptedRows(a)) == multiset(AcceptedRows(b))
  {
    forall x: seq<Line<F>>, y: seq<Line<F>> ensures AcceptedBag(x + y) == AcceptedBag(x) + AcceptedBag(y) {
      AcceptedConcat(x, y);
    }
    AdditiveIgnoresOrder(AcceptedBag, a, b);
    assert AcceptedBag(a) == AcceptedBag(b);
  }

  /** Any arrangement of the accepted rows gives the same result, errors included. */
  lemma ParsingIgnoresOrder<F(!new)>(r: Result<seq<Candidate<F>>, IndexError>, q: Result<seq<Candidate<F>>, IndexError>,
                                     rows: seq<Row<F>>, other: seq<Row<F>>, retrievedOn: Day)
    requires Meets(r, rows, retrievedOn) && Meets(q, other, retrievedOn)
    requires multiset(rows) == multiset(other)
    ensures r == q
  {
    MembersOfMultiset(rows, other);
    assert |multiset(rows)| == |multiset(other)|;
    if |rows| <= MAXIMUM_ROWS {
      var x := IndexMet(r, rows, retrievedOn);
      var y := IndexMet(q, other, retrievedOn);
      IndexOfMembers(y, other, rows);
      OneIndex(x, y, rows);
    }
  }

  lemma IndexMet<F(!new)>(r: Result<seq<Candidate<F>>, IndexError>, rows: seq<Row<F>>, retrievedOn: Day)
    returns (index: seq<Candidate<F>>)
    requires Meets(r, rows, retrievedOn) && |rows| <= MAXIMUM_ROWS
    ensures IsIndex(index, rows)
    ensures r == if exists c <- index :: !c.Valid(retrievedOn) then Err(InvalidCandidate) else Ok(index)
  {
    match r
    case Ok(found) => index := found;
    case Err(_) =>
      index :| IsIndex(index, rows) && exists c <- index :: !c.Valid(retrievedOn);
  }

  // ----- the grouping loop -----

  datatype Group<F> = Group(form: F, filedOn: Day, identities: map<string, string>)

  /** Each group keeps the form and date of its first row and only names it has seen with them. */
  ghost predicate Witnessed<F>(group: Group<F>, accession: string, rows: seq<Row<F>>) {
    && |group.identities| > 0
    && (forall cik <- group.identities ::
          Row(accession, cik, group.identities[cik], group.form, group.filedOn) in rows)
  }

  /** Every row of an accession not in conflict is represented in its group. */
  predicate Holds<F(==)>(group: Group<F>, row: Row<F>) {
    && row.form == group.form && row.filedOn == group.filedOn
    && row.cik in group.identities && group.identities[row.cik] == row.name
  }

  ghost predicate GroupingInv<F>(grouped: map<string, Group<F>>, conflicted: set<string>, rows: seq<Row<F>>) {
    && (forall row <- rows :: row.accession in grouped)
    && (forall a <- grouped :: Witnessed(grouped[a], a, rows))
    && (forall row <- rows :: row.accession !in conflicted ==> Holds(grouped[row.accession], row))
    && (forall a <- conflicted :: Conflicted(rows, a))
  }

  lemma ConflictGrows<F(!new)>(rows: seq<Row<F>>, row: Row<F>)
    ensures forall a :: Conflicted(rows, a) ==> Conflicted(rows + [row], a)
  {
    forall a | Conflicted(rows, a) ensures Conflicted(rows + [row], a) {
      var x, y :| x in rows && y in rows && x.accession == a && Clash(x, y);
      assert x in rows + [row] && y in rows + [row];
    }
  }

  lemma WitnessGrows<F(!new)>(group: Group<F>, accession: string, rows: seq<Row<F>>, row: Row<F>)
    requires Witnessed(group, accession, rows)
    ensures Witnessed(group, accession, rows + [row])
  {
  }

  /** A row that its group does not hold, and that is no new identity, clashes with some earlier row. */
  lemma MisfitClashes<F(!new)>(group: Group<F>, row: Row<F>, rows: seq<Row<F>>)
    requires Witnessed(group, row.accession, rows)
    requires row.form != group.form || row.filedOn != group.filedOn
      || (row.cik in group.identities && group.identities[row.cik] != row.name)
    ensures Conflicted(rows + [row], row.accession)
  {
    var cik := if row.cik in group.identities then row.cik else SomeKey(group.identities);
    var earlier := Row(row.accession, cik, group.identities[cik], group.form, group.filedOn);
    assert earlier in rows + [row] && row in rows + [row] && Clash(earlier, row);
  }

  ghost function SomeKey(identities: map<string, string>): (key: string)
    requires |identities| > 0
    ensures key in identities
  {
    assert |identities.Keys| > 0;
    var key :| key in identities; key
  }

  lemma FirstRowKeeps<F(!new)>(grouped: map<string, Group<F>>, conflicted: set<string>, rows: seq<Row<F>>, row: Row<F>)
    requires GroupingInv(grouped, conflicted, rows) && row.accession !in grouped
    ensures GroupingInv(grouped[row.accession := Group(row.form, row.filedOn, map[row.cik := row.name])], conflicted,
                        rows + [row])
  {
    ConflictGrows(rows, row);
    forall a | a in grouped ensures Witnessed(grouped[a], a, rows + [row]) {
      WitnessGrows(grouped[a], a, rows, row);
    }
    assert row in rows + [row];
  }

  lemma MisfitKeeps<F(!new)>(grouped: map<string, Group<F>>, conflicted: set<string>, rows: seq<Row<F>>, row: Row<F>)
    requires GroupingInv(grouped, conflicted, rows) && row.accession in grouped
    requires var group := grouped[row.accession];
      row.form != group.form || row.filedOn != group.filedOn
      || (row.cik in group.identities && group.identities[row.cik] != row.name)
    ensures GroupingInv(grouped, conflicted + {row.accession}, rows + [row])
  {
    ConflictGrows(rows, row);
    MisfitClashes(grouped[row.accession], row, rows);
    forall a | a in grouped ensures Witnessed(grouped[a], a, rows + [row]) {
      WitnessGrows(grouped[a], a, rows, row);
    }
  }

  /** A group takes in a fitting row: it holds that row and all it held before. */
  lemma GroupTakes<F(!new)>(group: Group<F>, row: Row<F>, rows: seq<Row<F>>)
    requires Witnessed(group, row.accession, rows)
    requires row.form == group.form && row.filedOn == group.filedOn
    requires row.cik in group.identities ==> group.identities[row.cik] == row.name
    ensures var taken := group.(identities := group.identities[row.cik := row.name]);
      && Witnessed(taken, row.accession, rows + [row])
      && Holds(taken, row)
      && (forall other :: Holds(group, other) ==> Holds(taken, other))
  {
    assert row in rows + [row];
  }

  lemma FitKeeps<F(!new)>(grouped: map<string, Group<F>>, conflicted: set<string>, rows: seq<Row<F>>, row: Row<F>,
                          taken: Group<F>)
    requires GroupingInv(grouped, conflicted, rows) && row.accession in grouped
    requires Witnessed(taken, row.accession, rows + [row]) && Holds(taken, row)
    requires forall other :: Holds(grouped[row.accession], other) ==> Holds(taken, other)
    ensures GroupingInv(grouped[row.accession := taken], conflicted, rows + [row])
  {
    ConflictGrows(rows, row);
    forall a | a in grouped ensures Witnessed(grouped[a], a, rows + [row]) {
      WitnessGrows(grouped[a], a, rows, row);
    }
  }

  /** Enters one accepted row. */
  method EnterRow<F(==, !new)>(grouped: map<string, Group<F>>, conflicted: set<string>, row: Row<F>, ghost rows: seq<Row<F>>)
    returns (grouped': map<string, Group<F>>, conflicted': set<string>)
    requires GroupingInv(grouped, conflicted, rows)
    ensures GroupingInv(grouped', conflicted', rows + [row])
  {
    if row.accession !in grouped {
      FirstRowKeeps(grouped, conflicted, rows, row);
      return grouped[row.accession := Group(row.form, row.filedOn, map[row.cik := row.name])], conflicted;
    }
    var group := grouped[row.accession];
    if group.form != row.form || group.filedOn != row.filedOn {
      MisfitKeeps(grouped, conflicted, rows, row);
      return grouped, conflicted + {row.accession};
    }
    if row.cik in group.identities && group.identities[row.cik] != row.name {
      MisfitKeeps(grouped, conflicted, rows, row);
      return grouped, conflicted + {row.accession};
    }
    GroupTakes(group, row, rows);
    group := group.(identities := group.identities[row.cik := row.name]);
    FitKeeps(grouped, conflicted, rows, row, group);
    return grouped[row.accession := group], conflicted;
  }

  method GroupLines<F(==, !new)>(lines: seq<Line<F>>)
    returns (tooMany: bool, grouped: map<string, Group<F>>, conflicted: set<string>)
    ensures tooMany <==> |AcceptedRows(lines)| > MAXIMUM_ROWS
    ensures !tooMany ==> GroupingInv(grouped, conflicted, AcceptedRows(lines))
  {
    tooMany, grouped, conflicted := false, map[], {};
    var selectedRows := 0;
    for i := 0 to |lines|
      invariant selectedRows == |AcceptedRows(lines[..i])| <= MAXIMUM_ROWS
      invariant GroupingInv(grouped, conflicted, AcceptedRows(lines[..i]))
    {
      assert lines[..i + 1][..i] == lines[..i];
      var accepted := Accept(lines[i]);
      if accepted.None? { continue; }
      var row := accepted.value;
      ghost var rows := AcceptedRows(lines[..i]);
      selectedRows := selectedRows + 1;
      if selectedRows > MAXIMUM_ROWS {
        AcceptedRowsGrow(lines, i + 1);
        return true, map[], {};
      }
      grouped, conflicted := EnterRow(grouped, conflicted, row, rows);
    }
    assert lines[..|lines|] == lines;
  }

  lemma {:induction false} AcceptedRowsGrow<F>(lines: seq<Line<F>>, i: nat)
    requires i <= |lines|
    ensures |AcceptedRows(lines[..i])| <= |AcceptedRows(lines)|
    decreases |lines| - i
  {
    if i == |lines| {
      assert lines[..i] == lines;
    } else {
      assert lines[..i + 1][..i] == lines[..i];
      AcceptedRowsGrow(lines, i + 1);
    }
  }

  // ----- the output -----

  lemma SettledIff<F(!new)>(grouped: map<string, Group<F>>, conflicted: set<string>, rows: seq<Row<F>>, a: string)
    requires GroupingInv(grouped, conflicted, rows)
    ensures a in grouped && a !in conflicted <==> Listed(rows, a) && !Conflicted(rows, a)
  {
    if a in grouped {
      var cik := SomeKey(grouped[a].identities);
      assert Row(a, cik, grouped[a].identities[cik], grouped[a].form, grouped[a].filedOn).accession == a;
      if a !in conflicted {
        forall x, y | x in rows && y in rows && x.accession == a ensures !Clash(x, y) {
          assert x.accession == y.accession ==> Holds(grouped[a], x) && Holds(grouped[a], y);
        }
      }
    }
  }

  /** The group says exactly what the rows of its accession say. */
  ghost predicate Settled<F>(group: Group<F>, accession: string, rows: seq<Row<F>>) {
    Witnessed(group, accession, rows) && forall row <- rows :: row.accession == accession ==> Holds(group, row)
  }

  function ToCandidate<F>(accession: string, group: Group<F>, ciks: seq<string>): Candidate<F>
    requires forall cik <- ciks :: cik in group.identities
  {
    Candidate(accession, ciks, seq(|ciks|, i requires 0 <= i < |ciks| => group.identities[ciks[i]]),
              group.form, group.filedOn)
  }

  lemma GroupDescribes<F(!new)>(accession: string, group: Group<F>, ciks: seq<string>, rows: seq<Row<F>>)
    requires Settled(group, accession, rows)
    requires SortedBy(ciks, TextLeq) && NoDuplicates(ciks) && forall cik :: cik in ciks <==> cik in group.identities
    ensures Describes(ToCandidate(accession, group, ciks), rows)
  {
    assert SomeKey(group.identities) in ciks;
    var c := ToCandidate(accession, group, ciks);
    forall i | 0 <= i < |ciks| ensures Row(c.accession, c.ciks[i], c.names[i], c.form, c.filedOn) in rows {
      assert ciks[i] in group.identities;
    }
  }

  /** Builds one candidate with its identities in ascending order. */
  method BuildCandidate<F(==, !new)>(accession: string, group: Group<F>, ghost rows: seq<Row<F>>)
    returns (c: Candidate<F>)
    requires Settled(group, accession, rows)
    ensures c.accession == accession && Describes(c, rows)
  {
    TextOrder();
    var ciks := ListAscending(group.identities.Keys, TextLeq);
    GroupDescribes(accession, group, ciks, rows);
    c := ToCandidate(accession, group, ciks);
  }

  /** Lists the candidates of the settled accessions in ascending order. */
  method BuildIndex<F(==, !new)>(accessions: seq<string>, grouped: map<string, Group<F>>, ghost rows: seq<Row<F>>)
    returns (index: seq<Candidate<F>>)
    requires forall a <- accessions :: a in grouped && Settled(grouped[a], a, rows)
    ensures Accessions(index) == accessions
    ensures forall c <- index :: Describes(c, rows)
  {
    index := [];
    for i := 0 to |accessions|
      invariant |index| == i && Accessions(index) == accessions[..i]
      invariant forall c <- index :: Describes(c, rows)
    {
      assert accessions[i] in accessions;
      var c := BuildCandidate(accessions[i], grouped[accessions[i]], rows);
      index := index + [c];
    }
  }

  lemma SettledAccessions<F(!new)>(grouped: map<string, Group<F>>, conflicted: set<string>, rows: seq<Row<F>>)
    requires GroupingInv(grouped, conflicted, rows)
    ensures forall a :: a in grouped.Keys - conflicted <==> Listed(rows, a) && !Conflicted(rows, a)
    ensures forall a <- grouped.Keys - conflicted :: Settled(grouped[a], a, rows)
  {
    forall a ensures a in grouped.Keys - conflicted <==> Listed(rows, a) && !Conflicted(rows, a) {
      SettledIff(grouped, conflicted, rows, a);
    }
  }

  lemma BuiltIsIndex<F(!new)>(index: seq<Candidate<F>>, rows: seq<Row<F>>, settled: set<string>)
    requires SortedBy(Accessions(index), TextLeq) && NoDuplicates(Accessions(index))
    requires forall a :: a in Accessions(index) <==> a in settled
    requires forall a :: a in settled <==> Listed(rows, a) && !Conflicted(rows, a)
    requires forall c <- index :: Describes(c, rows)
    ensures IsIndex(index, rows)
  {
  }

  method ListCandidates<F(==, !new)>(grouped: map<string, Group<F>>, conflicted: set<string>, ghost rows: seq<Row<F>>)
    returns (index: seq<Candidate<F>>)
    requires GroupingInv(grouped, conflicted, rows)
    ensures IsIndex(index, rows)
  {
    var accessions := SortedAccessions(grouped.Keys - conflicted);
    SettledAccessions(grouped, conflicted, rows);
    index := BuildIndex(accessions, grouped, rows);
    BuiltIsIndex(index, rows, grouped.Keys - conflicted);
  }

  method SortedAccessions(accessions: set<string>) returns (sorted: seq<string>)
    ensures SortedBy(sorted, TextLeq) && NoDuplicates(sorted) && forall a :: a in sorted <==> a in accessions
  {
    TextOrder();
    sorted := ListAscending(accessions, TextLeq);
  }

  lemma ScreenedMeets<F(!new)>(index: seq<Candidate<F>>, rows: seq<Row<F>>, retrievedOn: Day)
    requires IsIndex(index, rows) && |rows| <= MAXIMUM_ROWS
    ensures Meets(if exists c <- index :: !c.Valid(retrievedOn) then Err(InvalidCandidate) else Ok(index), rows, retrievedOn)
  {
  }

  /** The whole parse: it returns what the order-free specification says. */
  method ParseMasterIndex<F(==, !new)>(lines: seq<Line<F>>, retrievedOn: Day)
    returns (r: Result<seq<Candidate<F>>, IndexError>)
    ensures Meets(r, AcceptedRows(lines), retrievedOn)
  {
    var tooMany, grouped, conflicted := GroupLines(lines);
    if tooMany { return Err(TooManyRows); }
    var index := ListCandidates(grouped, conflicted, AcceptedRows(lines));
    ScreenedMeets(index, AcceptedRows(lines), retrievedOn);
    r := if exists c <- index :: !c.Valid(retrievedOn) then Err(InvalidCandidate) else Ok(index);
  }

  // ----- the index in terms of the lines -----

  /** Five fields, a supported form, a path of the line's own CIK, a date and a name. */
  predicate Usable<F>(line: Line<F>) {
    && line.fieldCount == 5 && line.form.Some? && line.filedOn.Some? && |line.name| > 0
    && line.path.Some? && line.path.value.cik == line.cik
  }

  /** The row carries the fields of a usable line, the CIK behind zeros. */
  predicate RowOfLine<F(==)>(row: Row<F>, line: Line<F>) {
    && Usable(line) && row.accession == line.path.value.accession && StandsFor(row.cik, line.cik)
    && row.name == line.name && line.form == Some(row.form) && line.filedOn == Some(row.filedOn)
  }

  lemma AcceptIff<F>(line: Line<F>, row: Row<F>)
    ensures Accept(line) == Some(row) <==> RowOfLine(row, line)
  {
    PaddedStandsFor(line.cik);
    if RowOfLine(row, line) { OneStandsFor(row.cik, Padded(line.cik), line.cik); }
  }

  ghost predicate HasLine<F>(lines: seq<Line<F>>, row: Row<F>) { exists line :: line in lines && RowOfLine(row, line) }

  lemma {:induction false} AcceptedIff<F>(lines: seq<Line<F>>, row: Row<F>)
    ensures row in AcceptedRows(lines) <==> HasLine(lines, row)
  {
    if |lines| != 0 {
      var front, last := lines[..|lines| - 1], lines[|lines| - 1];
      assert lines == front + [last];
      AcceptedIff(front, row);
      AcceptIff(last, row);
      if HasLine(front, row) {
        var line :| line in front && RowOfLine(row, line);
        assert line in lines;
      }
    }
  }

  /** Two usable lines of one accession that cannot describe one filing: another form or date, or another
      name for the same issuer. */
  predicate LinesClash<F(==)>(x: Line<F>, y: Line<F>) {
    && Usable(x) && Usable(y) && x.path.value.accession == y.path.value.accession
    && (x.form != y.form || x.filedOn != y.filedOn || (SameIssuer(x.cik, y.cik) && x.name != y.name))
  }

  lemma RowsClashIff<F>(a: Row<F>, x: Line<F>, b: Row<F>, y: Line<F>)
    requires RowOfLine(a, x) && RowOfLine(b, y)
    ensures Clash(a, b) <==> LinesClash(x, y)
  {
    PaddedEqualIff(x.cik, y.cik);
    PaddedStandsFor(x.cik);
    PaddedStandsFor(y.cik);
    OneStandsFor(a.cik, Padded(x.cik), x.cik);
    OneStandsFor(b.cik, Padded(y.cik), y.cik);
  }

  function RowFrom<F>(line: Line<F>): (row: Row<F>)
    requires Usable(line)
    ensures RowOfLine(row, line)
  {
    PaddedStandsFor(line.cik);
    Row(line.path.value.accession, Padded(line.cik), line.name, line.form.value, line.filedOn.value)
  }

  ghost predicate LineListed<F>(lines: seq<Line<F>>, accession: string) {
    exists x :: x in lines && Usable(x) && x.path.value.accession == accession
  }

  ghost predicate LinesConflict<F>(lines: seq<Line<F>>, accession: string) {
    exists x, y :: x in lines && y in lines && LinesClash(x, y) && x.path.value.accession == accession
  }

  lemma ListedByLines<F(!new)>(lines: seq<Line<F>>, accession: string)
    ensures Listed(AcceptedRows(lines), accession) <==> LineListed(lines, accession)
  {
    if Listed(AcceptedRows(lines), accession) {
      var row :| row in AcceptedRows(lines) && row.accession == accession;
      AcceptedIff(lines, row);
    }
    if LineListed(lines, accession) {
      var x :| x in lines && Usable(x) && x.path.value.accession == accession;
      AcceptedIff(lines, RowFrom(x));
    }
  }

  lemma ConflictedByLines<F(!new)>(lines: seq<Line<F>>, accession: string)
    ensures Conflicted(AcceptedRows(lines), accession) <==> LinesConflict(lines, accession)
  {
    var rows := AcceptedRows(lines);
    if Conflicted(rows, accession) {
      var a, b :| a in rows && b in rows && a.accession == accession && Clash(a, b);
      AcceptedIff(lines, a);
      AcceptedIff(lines, b);
      var x :| x in lines && RowOfLine(a, x);
      var y :| y in lines && RowOfLine(b, y);
      RowsClashIff(a, x, b, y);
      assert LinesClash(x, y);
    }
    if LinesConflict(lines, accession) {
      var x, y :| x in lines && y in lines && LinesClash(x, y) && x.path.value.accession == accession;
      AcceptedIff(lines, RowFrom(x));
      AcceptedIff(lines, RowFrom(y));
      RowsClashIff(RowFrom(x), x, RowFrom(y), y);
      assert Clash(RowFrom(x), RowFrom(y));
    }
  }

  /** The candidate's identity at an index is that of some line: its CIK behind zeros, with its name,
      form and date. */
  ghost predicate IdentityFromLine<F>(c: Candidate<F>, i: nat, lines: seq<Line<F>>)
    requires i < |c.ciks| == |c.names|
  {
    exists line ::
      && line in lines && Usable(line) && line.path.value.accession == c.accession
      && StandsFor(c.ciks[i], line.cik) && line.name == c.names[i]
      && line.form == Some(c.form) && line.filedOn == Some(c.filedOn)
  }

  /** A line's CIK is listed behind zeros. */
  ghost predicate LineIsListed<F>(line: Line<F>, c: Candidate<F>) {
    exists cik :: cik in c.ciks && StandsFor(cik, line.cik)
  }

  lemma CandidateOfLines<F(!new)>(c: Candidate<F>, lines: seq<Line<F>>)
    requires Describes(c, AcceptedRows(lines))
    ensures forall i | 0 <= i < |c.ciks| :: IdentityFromLine(c, i, lines)
    ensures forall line <- lines :: Usable(line) && line.path.value.accession == c.accession ==> LineIsListed(line, c)
  {
    forall i | 0 <= i < |c.ciks| ensures IdentityFromLine(c, i, lines) {
      var row := Row(c.accession, c.ciks[i], c.names[i], c.form, c.filedOn);
      AcceptedIff(lines, row);
      var line :| line in lines && RowOfLine(row, line);
      assert StandsFor(c.ciks[i], line.cik);
    }
    forall line | line in lines && Usable(line) && line.path.value.accession == c.accession ensures LineIsListed(line, c) {
      var row := RowFrom(line);
      AcceptedIff(lines, row);
      assert row.cik in c.ciks;
    }
  }

  /** What a successful parse lists, in terms of the lines: exactly the accessions of usable lines of which
      no two clash, two lines being about one issuer when their CIKs are the same up to leading zeros.
      Every identity of a candidate is that of a line, and every line of its accession is listed. */
  lemma IndexOfLines<F(!new)>(index: seq<Candidate<F>>, lines: seq<Line<F>>, retrievedOn: Day)
    requires Meets(Ok(index), AcceptedRows(lines), retrievedOn)
    ensures forall a :: a in Accessions(index) <==> LineListed(lines, a) && !LinesConflict(lines, a)
    ensures forall c <- index ::
      && |c.ciks| == |c.names| <= 16 && c.filedOn <= retrievedOn
      && (forall i | 0 <= i < |c.ciks| :: IdentityFromLine(c, i, lines))
      && (forall line <- lines :: Usable(line) && line.path.value.accession == c.accession ==> LineIsListed(line, c))
  {
    forall a ensures a in Accessions(index) <==> LineListed(lines, a) && !LinesConflict(lines, a) {
      ListedByLines(lines, a);
      ConflictedByLines(lines, a);
    }
    forall c | c in index
      ensures |c.ciks| == |c.names| <= 16 && c.filedOn <= retrievedOn
      ensures forall i | 0 <= i < |c.ciks| :: IdentityFromLine(c, i, lines)
      ensures forall line <- lines :: Usable(line) && line.path.value.accession == c.accession ==> LineIsListed(line, c)
    {
      CandidateOfLines(c, lines);
    }
  }

  ghost function UsableIndices<F>(lines: seq<Line<F>>): set<int> { set i | 0 <= i < |lines| && Usable(lines[i]) }

  lemma {:induction false} AcceptedCount<F>(lines: seq<Line<F>>)
    ensures |AcceptedRows(lines)| == |UsableIndices(lines)|
  {
    if |lines| == 0 {
      assert UsableIndices(lines) == {};
    } else {
      var n := |lines| - 1;
      var front := lines[..n];
      AcceptedCount(front);
      assert Accept(lines[n]).Some? <==> Usable(lines[n]);
      var before := UsableIndices(front);
      assert n !in before;
      assert UsableIndices(lines) == if Usable(lines[n]) then before + {n} else before;
    }
  }

  /** Parsing is refused for its size exactly when more than 5,000 lines are usable. */
  lemma TooManyIff<F(!new)>(r: Result<seq<Candidate<F>>, IndexError>, lines: seq<Line<F>>, retrievedOn: Day)
    requires Meets(r, AcceptedRows(lines), retrievedOn)
    ensures r == Err(TooManyRows) <==> |set i | 0 <= i < |lines| && Usable(lines[i])| > 5_000
  {
    AcceptedCount(lines);
    assert UsableIndices(lines) == set i | 0 <= i < |lines| && Usable(lines[i]);
  }
}
