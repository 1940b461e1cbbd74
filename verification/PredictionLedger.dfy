/** The append-only prediction ledger: three record lists with referential integrity, and one hash
    chain over all of them in the order they were appended. The digest is a function given from
    outside; tamper evidence assumes it is injective and never yields the genesis value. */
module PredictionLedger {
  import opened Calendar
  import opened Outcomes

  type Uuid = nat

  datatype EvaluationRule = PriceReturnAndBenchmark | TotalReturnAndBenchmark

  /** Every other field of a record is part of `content`. */
  datatype Prediction = Prediction(
    predictionId: Uuid, publishedAt: Instant, evaluationDueOn: Day, rule: EvaluationRule, content: string)
  datatype Correction = Correction(
    correctionId: Uuid, predictionId: Uuid, appendedAt: Instant, content: string)
  datatype OutcomeRecord = OutcomeRecord(
    outcomeId: Uuid, predictionId: Uuid, evaluatedAt: Instant, rule: EvaluationRule, content: string)

  /** What one append hashes: the kind and the whole record. */
  datatype Entry = PredictionEntry(prediction: Prediction) | CorrectionEntry(correction: Correction)
    | OutcomeEntry(outcome: OutcomeRecord)

  datatype LedgerError = DuplicateRecord | UnknownPrediction | CorrectionTooEarly | OutcomeTooEarly | RuleChanged

  datatype Lists = Lists(predictions: seq<Prediction>, corrections: seq<Correction>, outcomes: seq<OutcomeRecord>)

  const NO_RECORDS := Lists([], [], [])

  /** The first published prediction with the identifier. */
  function Find(predictions: seq<Prediction>, id: Uuid): (found: Option<Prediction>)
    ensures found.Some? ==> found.value in predictions && found.value.predictionId == id
    ensures found.None? ==> forall p | p in predictions :: p.predictionId != id
  {
    if |predictions| == 0 then None
    else if predictions[0].predictionId == id then Some(predictions[0])
    else Find(predictions[1..], id)
  }

  /** Why an append is refused, if it is. */
  function Refusal(l: Lists, e: Entry): Option<LedgerError> {
    match e
    case PredictionEntry(p) =>
      if exists q | q in l.predictions :: q.predictionId == p.predictionId then Some(DuplicateRecord) else None
    case CorrectionEntry(c) =>
      (match Find(l.predictions, c.predictionId)
       case None => Some(UnknownPrediction)
       case Some(p) =>
         if c.appendedAt < p.publishedAt then Some(CorrectionTooEarly)
         else if exists q | q in l.corrections :: q.correctionId == c.correctionId then Some(DuplicateRecord)
         else None)
    case OutcomeEntry(o) =>
      (match Find(l.predictions, o.predictionId)
       case None => Some(UnknownPrediction)
       case Some(p) =>
         if DateOf(o.evaluatedAt) < p.evaluationDueOn then Some(OutcomeTooEarly)
         else if o.rule != p.rule then Some(RuleChanged)
         else if exists q | q in l.outcomes :: q.outcomeId == o.outcomeId then Some(DuplicateRecord)
         else None)
  }

  function Add(l: Lists, e: Entry): Lists {
    match e
    case PredictionEntry(p) => l.(predictions := l.predictions + [p])
    case CorrectionEntry(c) => l.(corrections := l.corrections + [c])
    case OutcomeEntry(o) => l.(outcomes := l.outcomes + [o])
  }

  function Replay(log: seq<Entry>): Lists {
    if |log| == 0 then NO_RECORDS else Add(Replay(log[..|log| - 1]), log[|log| - 1])
  }

  /** A log every entry of which was accepted when it was appended. */
  ghost predicate Accepted(log: seq<Entry>) {
    |log| == 0 || (Accepted(log[..|log| - 1]) && Refusal(Replay(log[..|log| - 1]), log[|log| - 1]).None?)
  }

  /** The hash chain of a log. */
  function Chain<H>(digest: (H, Entry) -> H, genesis: H, log: seq<Entry>): (chain: seq<H>)
    ensures |chain| == |log|
  {
    if |log| == 0 then []
    else
      var front := Chain(digest, genesis, log[..|log| - 1]);
      front + [digest(Tip(genesis, front), log[|log| - 1])]
  }

  function Tip<H>(genesis: H, chain: seq<H>): H {
    if |chain| == 0 then genesis else chain[|chain| - 1]
  }

  function Head<H>(chain: seq<H>): Option<H> {
    if |chain| == 0 then None else Some(chain[|chain| - 1])
  }

  class MemoryPredictionLedger<H> {
    const digest: (H, Entry) -> H
    const genesis: H
    var predictions: seq<Prediction>
    var corrections: seq<Correction>
    var outcomes: seq<OutcomeRecord>
    var hashChain: seq<H>

    /** Every accepted append, in order, across the three kinds. */
    ghost var log: seq<Entry>

    ghost function Contents(): Lists
      reads this
    {
      Lists(predictions, corrections, outcomes)
    }

    /** The lists and the chain are both determined by the accepted log. */
    ghost predicate Valid()
      reads this
    {
      Accepted(log) && Contents() == Replay(log) && hashChain == Chain(digest, genesis, log)
    }

    constructor (digest: (H, Entry) -> H, genesis: H)
      ensures Valid() && log == [] && this.digest == digest && this.genesis == genesis
    {
      this.digest, this.genesis := digest, genesis;
      predictions, corrections, outcomes, hashChain, log := [], [], [], [], [];
    }

    method AppendPrediction(record: Prediction) returns (result: Result<H, LedgerError>)
      requires Valid()
      modifies this
      ensures Valid() && Appended(old(log), PredictionEntry(record), log, hashChain, result)
    {
      if exists q | q in predictions :: q.predictionId == record.predictionId { return Err(DuplicateRecord); }
      predictions := predictions + [record];
      var hash := AppendHash(PredictionEntry(record));
      return Ok(hash);
    }

    method AppendCorrection(record: Correction) returns (result: Result<H, LedgerError>)
      requires Valid()
      modifies this
      ensures Valid() && Appended(old(log), CorrectionEntry(record), log, hashChain, result)
    {
      var prediction := RequirePrediction(record.predictionId);
      if prediction.None? { return Err(UnknownPrediction); }
      if record.appendedAt < prediction.value.publishedAt { return Err(CorrectionTooEarly); }
      if exists q | q in corrections :: q.correctionId == record.correctionId { return Err(DuplicateRecord); }
      corrections := corrections + [record];
      var hash := AppendHash(CorrectionEntry(record));
      return Ok(hash);
    }

    method AppendOutcome(record: OutcomeRecord) returns (result: Result<H, LedgerError>)
      requires Valid()
      modifies this
      ensures Valid() && Appended(old(log), OutcomeEntry(record), log, hashChain, result)
    {
      var prediction := RequirePrediction(record.predictionId);
      if prediction.None? { return Err(UnknownPrediction); }
      if DateOf(record.evaluatedAt) < prediction.value.evaluationDueOn { return Err(OutcomeTooEarly); }
      if record.rule != prediction.value.rule { return Err(RuleChanged); }
      if exists q | q in outcomes :: q.outcomeId == record.outcomeId { return Err(DuplicateRecord); }
      outcomes := outcomes + [record];
      var hash := AppendHash(OutcomeEntry(record));
      return Ok(hash);
    }

    /** Extends the chain by the record just added to its list. */
    method AppendHash(entry: Entry) returns (hash: H)
      requires Accepted(log) && Refusal(Replay(log), entry).None?
      requires Contents() == Add(Replay(log), entry) && hashChain == Chain(digest, genesis, log)
      modifies this`hashChain, this`log
      ensures Valid() && log == old(log) + [entry]
      ensures hashChain == old(hashChain) + [hash]
    {
      var previous := if |hashChain| > 0 then hashChain[|hashChain| - 1] else genesis;
      hash := digest(previous, entry);
      hashChain := hashChain + [hash];
      LogSnoc(digest, genesis, log, entry);
      log := log + [entry];
    }

    method RequirePrediction(id: Uuid) returns (found: Option<Prediction>)
      ensures found == Find(predictions, id)
    {
      for i := 0 to |predictions|
        invariant Find(predictions, id) == Find(predictions[i..], id)
      {
        if predictions[i].predictionId == id { return Some(predictions[i]); }
      }
      return None;
    }
  }

  /** How a log, its lists and its chain grow by one entry. */
  lemma LogSnoc<H>(digest: (H, Entry) -> H, genesis: H, log: seq<Entry>, entry: Entry)
    ensures Replay(log + [entry]) == Add(Replay(log), entry)
    ensures Accepted(log + [entry]) <==> Accepted(log) && Refusal(Replay(log), entry).None?
    ensures var chain := Chain(digest, genesis, log);
      Chain(digest, genesis, log + [entry]) == chain + [digest(Tip(genesis, chain), entry)]
  {
    assert (log + [entry])[..|log|] == log;
  }

  /** What one append does: the whole new log and the chain head on success, nothing on refusal. */
  ghost predicate Appended<H>(before: seq<Entry>, entry: Entry, after: seq<Entry>, chain: seq<H>,
                              result: Result<H, LedgerError>) {
    match Refusal(Replay(before), entry)
    case Some(error) => result == Err(error) && after == before
    case None => after == before + [entry] && result.Ok? && Head(chain) == Some(result.value)
  }

  // ----- integrity -----

  ghost predicate Integrity(l: Lists) {
    && (forall i, j | 0 <= i < j < |l.predictions| :: l.predictions[i].predictionId != l.predictions[j].predictionId)
    && (forall i, j | 0 <= i < j < |l.corrections| :: l.corrections[i].correctionId != l.corrections[j].correctionId)
    && (forall i, j | 0 <= i < j < |l.outcomes| :: l.outcomes[i].outcomeId != l.outcomes[j].outcomeId)
    && (forall c | c in l.corrections :: HasParent(l, c.predictionId, c.appendedAt))
    && (forall o | o in l.outcomes :: HasDueParent(l, o))
  }

  ghost predicate HasParent(l: Lists, id: Uuid, appendedAt: Instant) {
    exists p :: p in l.predictions && p.predictionId == id && p.publishedAt <= appendedAt
  }

  ghost predicate HasDueParent(l: Lists, o: OutcomeRecord) {
    exists p :: p in l.predictions && p.predictionId == o.predictionId
      && p.evaluationDueOn <= DateOf(o.evaluatedAt) && p.rule == o.rule
  }

  lemma ParentsSurvive(l: Lists, more: Lists)
    requires l.predictions <= more.predictions
    ensures forall id, at :: HasParent(l, id, at) ==> HasParent(more, id, at)
    ensures forall o :: HasDueParent(l, o) ==> HasDueParent(more, o)
  {
    assert forall p | p in l.predictions :: p in more.predictions;
  }

  lemma AddKeepsIntegrity(l: Lists, e: Entry)
    requires Integrity(l) && Refusal(l, e).None?
    ensures Integrity(Add(l, e))
  {
    ParentsSurvive(l, Add(l, e));
    match e
    case PredictionEntry(p) =>
    case CorrectionEntry(c) =>
      var parent := Find(l.predictions, c.predictionId).value;
      assert HasParent(l, c.predictionId, c.appendedAt);
    case OutcomeEntry(o) =>
      var parent := Find(l.predictions, o.predictionId).value;
      assert HasDueParent(l, o);
  }

  /** Every reachable ledger keeps unique identifiers, an existing and compatible parent for every
      child, and one chain link per record. */
  lemma {:induction false} ReachableIntegrity<H>(digest: (H, Entry) -> H, genesis: H, log: seq<Entry>)
    requires Accepted(log)
    ensures var l := Replay(log);
      && Integrity(l)
      && |Chain(digest, genesis, log)| == |l.predictions| + |l.corrections| + |l.outcomes|
  {
    if |log| != 0 {
      ReachableIntegrity(digest, genesis, log[..|log| - 1]);
      AddKeepsIntegrity(Replay(log[..|log| - 1]), log[|log| - 1]);
    }
  }

  // ----- which appends are taken -----

  ghost predicate OnePrediction(l: Lists, id: Uuid, p: Prediction) {
    && p in l.predictions && p.predictionId == id
    && forall q <- l.predictions :: q.predictionId == id ==> q == p
  }

  lemma FindsTheOnlyOne(l: Lists, id: Uuid)
    requires Integrity(l)
    ensures match Find(l.predictions, id)
      case None => forall q <- l.predictions :: q.predictionId != id
      case Some(p) => OnePrediction(l, id, p)
  {
    var found := Find(l.predictions, id);
    if found.Some? {
      forall q | q in l.predictions && q.predictionId == id ensures q == found.value {
        var i :| 0 <= i < |l.predictions| && l.predictions[i] == q;
        var j :| 0 <= j < |l.predictions| && l.predictions[j] == found.value;
      }
    }
  }

  /** A correction needs its prediction, published by then, and a new identifier. */
  ghost predicate CorrectionFits(l: Lists, c: Correction) {
    && (exists p :: p in l.predictions && p.predictionId == c.predictionId && p.publishedAt <= c.appendedAt)
    && forall q <- l.corrections :: q.correctionId != c.correctionId
  }

  /** An outcome needs its prediction, due by the day of evaluation (in whole days of 86,400 seconds) and
      under the same rule, and a new identifier. */
  ghost predicate OutcomeFits(l: Lists, o: OutcomeRecord) {
    && (exists p :: p in l.predictions && p.predictionId == o.predictionId
                    && p.evaluationDueOn * 86_400_000_000 <= o.evaluatedAt && p.rule == o.rule)
    && forall q <- l.outcomes :: q.outcomeId != o.outcomeId
  }

  /** Which appends a reachable ledger takes: exactly those that break none of the rules; nothing else is
      ever refused. A record whose prediction is missing is refused for that. */
  lemma AppendTakenIff<H>(digest: (H, Entry) -> H, genesis: H, log: seq<Entry>, e: Entry)
    requires Accepted(log)
    ensures Accepted(log + [e]) <==>
      var l := Replay(log);
      match e
      case PredictionEntry(p) => forall q <- l.predictions :: q.predictionId != p.predictionId
      case CorrectionEntry(c) => CorrectionFits(l, c)
      case OutcomeEntry(o) => OutcomeFits(l, o)
    ensures Refusal(Replay(log), e) == Some(UnknownPrediction) <==>
      match e
      case PredictionEntry(_) => false
      case CorrectionEntry(c) => forall q <- Replay(log).predictions :: q.predictionId != c.predictionId
      case OutcomeEntry(o) => forall q <- Replay(log).predictions :: q.predictionId != o.predictionId
  {
    LogSnoc(digest, genesis, log, e);
    ReachableIntegrity(digest, genesis, log);
    var l := Replay(log);
    match e
    case PredictionEntry(p) =>
    case CorrectionEntry(c) => FindsTheOnlyOne(l, c.predictionId);
    case OutcomeEntry(o) => FindsTheOnlyOne(l, o.predictionId);
  }

  // ----- tamper evidence -----

  ghost predicate Injective<H(!new)>(digest: (H, Entry) -> H) {
    forall a, b, e, f :: digest(a, e) == digest(b, f) ==> a == b && e == f
  }

  ghost predicate Avoids<H(!new)>(digest: (H, Entry) -> H, genesis: H) {
    forall a, e :: digest(a, e) != genesis
  }

  lemma {:induction false} TipDeterminesLog<H(!new)>(digest: (H, Entry) -> H, genesis: H, log: seq<Entry>, other: seq<Entry>)
    requires Injective(digest) && Avoids(digest, genesis)
    requires Tip(genesis, Chain(digest, genesis, log)) == Tip(genesis, Chain(digest, genesis, other))
    ensures log == other
  {
    if |log| != 0 && |other| != 0 {
      var front, rear := log[..|log| - 1], other[..|other| - 1];
      assert log == front + [log[|log| - 1]] && other == rear + [other[|other| - 1]];
      TipDeterminesLog(digest, genesis, front, rear);
    }
  }

  /** Two ledgers, however they were built, that show the same chain head hold the same appends in
      the same interleaved order, hence the same lists and the same chain. */
  lemma EqualHeadsEqualLedgers<H(!new)>(digest: (H, Entry) -> H, genesis: H, log: seq<Entry>, other: seq<Entry>)
    requires Injective(digest) && Avoids(digest, genesis)
    ensures Head(Chain(digest, genesis, log)) == Head(Chain(digest, genesis, other))
      <==> log == other
  {
    if Head(Chain(digest, genesis, log)) == Head(Chain(digest, genesis, other)) {
      TipDeterminesLog(digest, genesis, log, other);
    }
  }

  /** The same for two ledger objects. */
  lemma EqualHeadsEqualContents<H(!new)>(a: MemoryPredictionLedger<H>, b: MemoryPredictionLedger<H>)
    requires a.Valid() && b.Valid() && a.digest == b.digest && a.genesis == b.genesis
    requires Injective(a.digest) && Avoids(a.digest, a.genesis)
    requires Head(a.hashChain) == Head(b.hashChain)
    ensures a.log == b.log && a.Contents() == b.Contents() && a.hashChain == b.hashChain
  {
    EqualHeadsEqualLedgers(a.digest, a.genesis, a.log, b.log);
  }

  /** An older chain is a prefix of every later one, and its head is found nowhere else: an earlier
      published head pins down every record appended before it. */
  lemma {:induction false} ChainExtends<H>(digest: (H, Entry) -> H, genesis: H, log: seq<Entry>, more: seq<Entry>)
    ensures Chain(digest, genesis, log) <= Chain(digest, genesis, log + more)
  {
    if |more| == 0 {
      assert log + more == log;
    } else {
      assert (log + more)[..|log + more| - 1] == log + more[..|more| - 1];
      ChainExtends(digest, genesis, log, more[..|more| - 1]);
    }
  }

  lemma ChainAt<H>(digest: (H, Entry) -> H, genesis: H, log: seq<Entry>, i: nat)
    requires i < |log|
    ensures Chain(digest, genesis, log)[i] == Tip(genesis, Chain(digest, genesis, log[..i + 1]))
  {
    assert log == log[..i + 1] + log[i + 1..];
    ChainExtends(digest, genesis, log[..i + 1], log[i + 1..]);
  }

  lemma PublishedHeadPinsPrefix<H(!new)>(digest: (H, Entry) -> H, genesis: H, log: seq<Entry>, later: seq<Entry>, i: nat)
    requires Injective(digest) && Avoids(digest, genesis)
    requires i < |later| && log != []
    requires Chain(digest, genesis, later)[i] == Chain(digest, genesis, log)[|log| - 1]
    ensures later[..i + 1] == log
  {
    ChainAt(digest, genesis, later, i);
    TipDeterminesLog(digest, genesis, later[..i + 1], log);
  }

  /** The two assumptions on the digest can be met together: an ideal digest that keeps its input. */
  datatype IdealHash = Genesis | Digest(previous: IdealHash, entry: Entry)

  lemma IdealDigestQualifies()
    ensures Injective((previous: IdealHash, entry: Entry) => Digest(previous, entry))
    ensures Avoids((previous: IdealHash, entry: Entry) => Digest(previous, entry), Genesis)
  {
  }
}
