/** At-most-once webhook delivery: a bounded retry loop, a set of suppressed keys and an audit list. */
module DiscordContracts {
  import opened Calendar
  import opened Outcomes

  type Key = nat

  datatype Status = Sent | Duplicate | Disabled | Rejected | RateLimited | DeliveryUncertain

  datatype ErrorCode = HttpRejected | RateLimitExhausted | ResponseInvalid | TransportAmbiguous | ServerAmbiguous

  datatype Delivery = Delivery(
    key: Key,
    predictionId: Option<nat>,
    requestedAt: Instant,
    completedAt: Instant,
    status: Status,
    attempts: int,
    payload: nat,
    messageId: Option<string>,
    priorKey: Option<Key>,
    errorCode: Option<ErrorCode>)
  {
    /** The record validator. */
    predicate Valid() {
      && 0 <= attempts <= 3
      && requestedAt <= completedAt
      && (if status.Sent? then messageId.Some? && attempts >= 1 else messageId.None?)
      && (if status.Duplicate? then priorKey.Some? && attempts == 0 else priorKey.None?)
      && (status in {Rejected, RateLimited, DeliveryUncertain} <==> errorCode.Some?)
    }
  }

  /** A number as it appears in a header or a JSON body. */
  datatype Numeral = Malformed | NotFinite | Finite(value: real)

  datatype Reply =
    | TransportFailure
    | Response(
        status: int,
        bodyId: Option<string>,
        remainingIsZero: bool,
        resetAfter: Option<Numeral>,
        retryAfterHeader: Option<Numeral>,
        retryAfterBody: Option<Numeral>)

  /** Only numbers in [0, 300] survive. */
  function BoundedDecimal(text: Option<Numeral>): (bounded: Option<real>)
    ensures bounded.Some? ==> 0.0 <= bounded.value <= 300.0
  {
    if text.Some? && text.value.Finite? && !(text.value.value < 0.0 || text.value.value > 300.0)
    then Some(text.value.value) else None
  }

  function RetryAfter(reply: Reply): (seconds: Option<real>)
    requires reply.Response?
    ensures seconds.Some? ==> 0.0 <= seconds.value <= 300.0
  {
    var header := BoundedDecimal(reply.retryAfterHeader);
    if header.Some? then header else BoundedDecimal(reply.retryAfterBody)
  }

  predicate IsDigit(c: char) { '0' <= c <= '9' }

  /** The message id of a 200 body: 17 to 20 digits. */
  function MessageId(reply: Reply): (id: Option<string>)
    requires reply.Response?
  {
    if && reply.bodyId.Some? && 17 <= |reply.bodyId.value| <= 20
       && forall i | 0 <= i < |reply.bodyId.value| :: IsDigit(reply.bodyId.value[i])
    then reply.bodyId else None
  }

  /** The message may have been delivered: anything but an explicit client-error refusal. */
  predicate PossiblyDelivered(reply: Reply) {
    reply.TransportFailure? || !(400 <= reply.status < 500)
  }

  datatype Post = Post(key: Key, reply: Reply)

  datatype Request = Request(
    key: Key,
    predictionId: Option<nat>,
    payload: nat,
    requestedAt: Instant,
    completedAt: Instant,
    replies: seq<Reply>)

  /** How one delivery ends. */
  datatype Ending = Ending(status: Status, attempts: int, messageId: Option<string>, errorCode: Option<ErrorCode>)

  /** What one reply settles; `None` asks for another attempt. */
  function Settle(reply: Reply, attempts: nat, maximum: nat): (ending: Option<Ending>)
    ensures ending.Some? ==> ending.value.attempts == attempts
    ensures ending.None? ==> reply.Response? && reply.status == 429 && RetryAfter(reply).Some? && attempts != maximum
  {
    if reply.TransportFailure? then Some(Ending(DeliveryUncertain, attempts, None, Some(TransportAmbiguous)))
    else if reply.status == 200 then
      if MessageId(reply).None? then Some(Ending(DeliveryUncertain, attempts, None, Some(ResponseInvalid)))
      else Some(Ending(Sent, attempts, MessageId(reply), None))
    else if reply.status == 429 then
      if RetryAfter(reply).None? || attempts == maximum
      then Some(Ending(RateLimited, attempts, None, Some(RateLimitExhausted)))
      else None
    else if 400 <= reply.status < 500 then Some(Ending(Rejected, attempts, None, Some(HttpRejected)))
    else Some(Ending(DeliveryUncertain, attempts, None, Some(ServerAmbiguous)))
  }

  /** The attempts from number `made + 1` on, against the replies the transport would give. */
  function Attempt(replies: seq<Reply>, maximum: nat, made: nat): (ending: Ending)
    requires made < maximum <= |replies|
    ensures made < ending.attempts <= maximum
    decreases maximum - made
  {
    match Settle(replies[made], made + 1, maximum)
    case Some(ending) => ending
    case None => Attempt(replies, maximum, made + 1)
  }

  predicate Final(status: Status) { status.Sent? || status.DeliveryUncertain? }

  /** The notifier's fields, with the posts it has made. */
  datatype State = State(records: seq<Delivery>, suppressed: set<Key>, posts: seq<Post>)

  function PostsFor(key: Key, replies: seq<Reply>): seq<Post> {
    seq(|replies|, i requires 0 <= i < |replies| => Post(key, replies[i]))
  }

  lemma PostsSnoc(key: Key, replies: seq<Reply>, n: nat)
    requires n < |replies|
    ensures PostsFor(key, replies[..n + 1]) == PostsFor(key, replies[..n]) + [Post(key, replies[n])]
  {
  }

  function RecordFor(request: Request, ending: Ending, prior: Option<Key>): Delivery {
    Delivery(request.key, request.predictionId, request.requestedAt, request.completedAt, ending.status,
             ending.attempts, request.payload, ending.messageId, prior, ending.errorCode)
  }

  /** Appends the record, unless its validator refuses it because the clock ran backwards. */
  function Log(s: State, record: Delivery): State {
    if record.Valid() then s.(records := s.records + [record]) else s
  }

  function Send(s: State, enabled: bool, maximum: nat, request: Request): State
    requires 1 <= maximum <= |request.replies|
  {
    if !enabled then Log(s, RecordFor(request, Ending(Disabled, 0, None, None), None))
    else if request.key in s.suppressed then
      Log(s, RecordFor(request, Ending(Duplicate, 0, None, None), Some(request.key)))
    else Delivered(s, request, Attempt(request.replies, maximum, 0))
  }

  /** The state after a delivery with this ending. */
  function Delivered(s: State, request: Request, ending: Ending): State
    requires 0 <= ending.attempts <= |request.replies|
  {
    Close(s.(posts := s.posts + PostsFor(request.key, request.replies[..ending.attempts])), request, ending)
  }

  /** Suppresses the key if the message may have arrived, and records the ending. */
  function Close(s: State, request: Request, ending: Ending): State {
    Log(if Final(ending.status) then s.(suppressed := s.suppressed + {request.key}) else s,
        RecordFor(request, ending, None))
  }
}

module DiscordDelivery {
  import opened Calendar
  import opened Outcomes
  import opened Clocks
  import opened GrantHistory
  import opened WebhookLimiter
  import opened DiscordContracts

  // ----- the notifier object -----

  class DiscordNotifier {
    const enabled: bool
    const maximumAttempts: nat
    const limiter: DiscordRateLimiter
    var records: seq<Delivery>
    var suppressedKeys: set<Key>
    ghost var posts: seq<Post>

    ghost function Contents(): State
      reads this
    {
      State(records, suppressedKeys, posts)
    }

    ghost predicate Valid()
      reads this, limiter, limiter.clock
    {
      1 <= maximumAttempts <= 3 && limiter.Valid()
    }

    /** Both the caller and the limiter have waited for `seconds` since `from`. */
    ghost predicate WaitsFor(from: real, seconds: real)
      reads limiter, limiter.clock
    {
      limiter.clock.now >= from + seconds && limiter.nextRequestAt >= from + seconds
    }

    constructor (enabled: bool, maximumAttempts: nat, limiter: DiscordRateLimiter)
      requires 1 <= maximumAttempts <= 3 && limiter.Valid()
      ensures Valid() && Contents() == State([], {}, [])
      ensures this.enabled == enabled && this.maximumAttempts == maximumAttempts && this.limiter == limiter
    {
      this.enabled, this.maximumAttempts, this.limiter := enabled, maximumAttempts, limiter;
      records, suppressedKeys, posts := [], {}, [];
    }

    method Record(request: Request, ending: Ending, prior: Option<Key>) returns (record: Option<Delivery>)
      modifies this`records
      ensures Contents() == Log(old(Contents()), RecordFor(request, ending, prior))
      ensures record.Some? ==> record.value.Valid() && records == old(records) + [record.value]
    {
      var built := RecordFor(request, ending, prior);
      if !built.Valid() { return None; }
      records := records + [built];
      return Some(built);
    }

    /** Sends one notification; `None` is the ValueError of a record whose clock ran backwards.
        Every post was let through by the limiter. */
    method SendNotification(request: Request) returns (record: Option<Delivery>)
      requires Valid() && maximumAttempts <= |request.replies|
      modifies this, limiter, limiter.clock
      ensures Valid()
      ensures Contents() == Send(old(Contents()), enabled, maximumAttempts, request)
      ensures |limiter.history| - |old(limiter.history)| == |posts| - |old(posts)|
    {
      if !enabled {
        record := Record(request, Ending(Disabled, 0, None, None), None);
        return;
      }
      if request.key in suppressedKeys {
        record := Record(request, Ending(Duplicate, 0, None, None), Some(request.key));
        return;
      }
      record := Deliver(request);
    }

    method Deliver(request: Request) returns (record: Option<Delivery>)
      requires Valid() && maximumAttempts <= |request.replies| && enabled && request.key !in suppressedKeys
      modifies this, limiter, limiter.clock
      ensures Valid()
      ensures Contents() == Delivered(old(Contents()), request, Attempt(request.replies, maximumAttempts, 0))
      ensures |limiter.history| - |old(limiter.history)| == |posts| - |old(posts)|
    {
      var attempts := 0;
      while attempts < maximumAttempts
        invariant Valid() && attempts < maximumAttempts
        invariant records == old(records) && suppressedKeys == old(suppressedKeys)
        invariant posts == old(posts) + PostsFor(request.key, request.replies[..attempts])
        invariant Attempt(request.replies, maximumAttempts, 0) == Attempt(request.replies, maximumAttempts, attempts)
        invariant |limiter.history| == |old(limiter.history)| + attempts
        decreases maximumAttempts - attempts
      {
        var reply := request.replies[attempts];
        attempts := attempts + 1;
        limiter.Wait();
        PostsSnoc(request.key, request.replies, attempts - 1);
        posts := posts + [Post(request.key, reply)];
        var settled;
        settled, record := HandleReply(request, reply, attempts);
        if settled { return; }
      }
      assert false;
    }

    /** What the loop does with one reply: it settles the delivery, or waits for the next attempt. */
    method HandleReply(request: Request, reply: Reply, attempts: nat)
      returns (settled: bool, record: Option<Delivery>)
      requires Valid()
      modifies this`records, this`suppressedKeys, limiter`nextRequestAt, limiter.clock
      ensures Valid()
      ensures settled <==> Settle(reply, attempts, maximumAttempts).Some?
      ensures Contents() == match Settle(reply, attempts, maximumAttempts)
        case Some(ending) => Close(old(Contents()), request, ending)
        case None => old(Contents())
      ensures !settled ==> reply.Response? && RetryAfter(reply).Some?
      ensures !settled ==> WaitsFor(old(limiter.clock.now), RetryAfter(reply).value)
    {
      if reply.TransportFailure? {
        record := TerminalUncertain(request, attempts, TransportAmbiguous);
        return true, record;
      }
      if reply.status == 200 {
        var messageId := MessageId(reply);
        if messageId.None? {
          record := TerminalUncertain(request, attempts, ResponseInvalid);
          return true, record;
        }
        ApplyRateLimitHeaders(reply);
        suppressedKeys := suppressedKeys + {request.key};
        record := Record(request, Ending(Sent, attempts, messageId, None), None);
        return true, record;
      }
      if reply.status == 429 {
        var retryAfter := RetryAfter(reply);
        if retryAfter.None? || attempts == maximumAttempts {
          record := Record(request, Ending(RateLimited, attempts, None, Some(RateLimitExhausted)), None);
          return true, record;
        }
        var accepted := limiter.Defer(retryAfter.value);
        assert accepted;
        limiter.clock.Sleep(retryAfter.value);
        return false, None;
      }
      if 400 <= reply.status < 500 {
        record := Record(request, Ending(Rejected, attempts, None, Some(HttpRejected)), None);
        return true, record;
      }
      record := TerminalUncertain(request, attempts, ServerAmbiguous);
      settled := true;
    }

    method TerminalUncertain(request: Request, attempts: int, code: ErrorCode) returns (record: Option<Delivery>)
      modifies this`records, this`suppressedKeys
      ensures Contents() == Log(old(Contents()).(suppressed := old(suppressedKeys) + {request.key}),
                                RecordFor(request, Ending(DeliveryUncertain, attempts, None, Some(code)), None))
    {
      suppressedKeys := suppressedKeys + {request.key};
      record := Record(request, Ending(DeliveryUncertain, attempts, None, Some(code)), None);
    }

    /** A response that used up its quota defers the next request; the deferral is never refused. */
    method ApplyRateLimitHeaders(reply: Reply)
      requires reply.Response? && limiter.Valid()
      modifies limiter`nextRequestAt, limiter.clock
      ensures limiter.Valid() && limiter.nextRequestAt >= old(limiter.nextRequestAt)
      ensures reply.remainingIsZero && BoundedDecimal(reply.resetAfter).Some? ==>
        limiter.nextRequestAt >= old(limiter.clock.now) + BoundedDecimal(reply.resetAfter).value
    {
      if !reply.remainingIsZero { return; }
      var resetAfter := BoundedDecimal(reply.resetAfter);
      if resetAfter.Some? {
        var accepted := limiter.Defer(resetAfter.value);
        assert accepted;
      }
    }
  }

  // ----- one delivery -----

  /** Which replies a delivery was given before it ended: every one but the last was an explicit
      refusal, and the last one was possibly delivered exactly when the key becomes suppressed. */
  lemma {:induction false} OnlyTheLastPostMayArrive(replies: seq<Reply>, maximum: nat, made: nat)
    requires made < maximum <= |replies|
    ensures var ending := Attempt(replies, maximum, made);
      && (forall i | made <= i < ending.attempts - 1 :: !PossiblyDelivered(replies[i]))
      && (PossiblyDelivered(replies[ending.attempts - 1]) <==> Final(ending.status))
      && (ending.status.Sent? <==> ending.messageId.Some?)
      && (ending.errorCode.Some? <==> !ending.status.Sent?)
      && ending.status !in {Duplicate, Disabled}
    decreases maximum - made
  {
    var reply := replies[made];
    if reply.Response? && reply.status == 429 && RetryAfter(reply).Some? && made + 1 != maximum {
      OnlyTheLastPostMayArrive(replies, maximum, made + 1);
    }
  }

  // ----- whole runs -----

  function Run(s: State, enabled: bool, maximum: nat, requests: seq<Request>): State
    requires 1 <= maximum <= 3 && forall r | r in requests :: maximum <= |r.replies|
  {
    if |requests| == 0 then s
    else Send(Run(s, enabled, maximum, requests[..|requests| - 1]), enabled, maximum, requests[|requests| - 1])
  }

  /** How many posts of a key the recipient may have received. */
  function Arrivals(posts: seq<Post>, key: Key): (n: nat) {
    if |posts| == 0 then 0
    else
      var last := posts[|posts| - 1];
      Arrivals(posts[..|posts| - 1], key) + if last.key == key && PossiblyDelivered(last.reply) then 1 else 0
  }

  /** How many records of a key say the message was, or may have been, delivered. */
  function FinalRecords(records: seq<Delivery>, key: Key): (n: nat) {
    if |records| == 0 then 0
    else
      var last := records[|records| - 1];
      FinalRecords(records[..|records| - 1], key) + if last.key == key && Final(last.status) then 1 else 0
  }

  /** All posts of a key, whatever became of them. */
  function PostCount(posts: seq<Post>, key: Key): (n: nat) {
    if |posts| == 0 then 0
    else PostCount(posts[..|posts| - 1], key) + if posts[|posts| - 1].key == key then 1 else 0
  }

  lemma {:induction false} ArrivalsOfAppend(posts: seq<Post>, more: seq<Post>, key: Key)
    ensures Arrivals(posts + more, key) == Arrivals(posts, key) + Arrivals(more, key)
    ensures PostCount(posts + more, key) == PostCount(posts, key) + PostCount(more, key)
  {
    if |more| == 0 {
      assert posts + more == posts;
    } else {
      assert (posts + more)[..|posts + more| - 1] == posts + more[..|more| - 1];
      ArrivalsOfAppend(posts, more[..|more| - 1], key);
    }
  }

  lemma {:induction false} RefusedPosts(own: Key, replies: seq<Reply>, key: Key)
    requires forall i | 0 <= i < |replies| :: !PossiblyDelivered(replies[i])
    ensures Arrivals(PostsFor(own, replies), key) == 0
  {
    if |replies| != 0 {
      assert PostsFor(own, replies)[..|replies| - 1] == PostsFor(own, replies[..|replies| - 1]);
      RefusedPosts(own, replies[..|replies| - 1], key);
    }
  }

  lemma {:induction false} PostsForCount(own: Key, replies: seq<Reply>, key: Key)
    ensures PostCount(PostsFor(own, replies), key) == if own == key then |replies| else 0
    ensures own != key ==> Arrivals(PostsFor(own, replies), key) == 0
  {
    if |replies| != 0 {
      assert PostsFor(own, replies)[..|replies| - 1] == PostsFor(own, replies[..|replies| - 1]);
      PostsForCount(own, replies[..|replies| - 1], key);
    }
  }

  /** A delivery's posts arrive at most once in all, and exactly when it suppresses its key. */
  lemma DeliveryArrivals(request: Request, maximum: nat, key: Key)
    requires 1 <= maximum <= |request.replies|
    ensures var ending := Attempt(request.replies, maximum, 0);
      Arrivals(PostsFor(request.key, request.replies[..ending.attempts]), key)
      == if request.key == key && Final(ending.status) then 1 else 0
  {
    var ending := Attempt(request.replies, maximum, 0);
    var made := request.replies[..ending.attempts];
    OnlyTheLastPostMayArrive(request.replies, maximum, 0);
    PostsForCount(request.key, made, key);
    var front := made[..|made| - 1];
    assert PostsFor(request.key, made)[..|made| - 1] == PostsFor(request.key, front);
    RefusedPosts(request.key, front, key);
  }

  ghost predicate KeyInv(s: State, key: Key) {
    && Arrivals(s.posts, key) == (if key in s.suppressed then 1 else 0)
    && FinalRecords(s.records, key) <= Arrivals(s.posts, key)
  }

  lemma FinalRecordsOfAppend(records: seq<Delivery>, record: Delivery, key: Key)
    ensures FinalRecords(records + [record], key)
         == FinalRecords(records, key) + if record.key == key && Final(record.status) then 1 else 0
  {
    assert (records + [record])[..|records|] == records;
  }

  lemma LogKeepsKeys(s: State, record: Delivery, key: Key)
    requires FinalRecords(s.records, key) + (if record.key == key && Final(record.status) then 1 else 0)
      <= Arrivals(s.posts, key)
    requires Arrivals(s.posts, key) == (if key in s.suppressed then 1 else 0)
    ensures KeyInv(Log(s, record), key)
  {
    FinalRecordsOfAppend(s.records, record, key);
  }

  lemma DeliveredKeepsKeys(s: State, request: Request, ending: Ending, key: Key)
    requires 0 <= ending.attempts <= |request.replies| && KeyInv(s, key) && request.key !in s.suppressed
    requires Arrivals(PostsFor(request.key, request.replies[..ending.attempts]), key)
          == if request.key == key && Final(ending.status) then 1 else 0
    ensures KeyInv(Delivered(s, request, ending), key)
  {
    var posts := PostsFor(request.key, request.replies[..ending.attempts]);
    ArrivalsOfAppend(s.posts, posts, key);
    var posted := s.(posts := s.posts + posts);
    var closed := if Final(ending.status) then posted.(suppressed := s.suppressed + {request.key}) else posted;
    LogKeepsKeys(closed, RecordFor(request, ending, None), key);
  }

  lemma SendKeepsKeys(s: State, enabled: bool, maximum: nat, request: Request, key: Key)
    requires 1 <= maximum <= |request.replies| && KeyInv(s, key)
    ensures KeyInv(Send(s, enabled, maximum, request), key)
  {
    if !enabled {
      LogKeepsKeys(s, RecordFor(request, Ending(Disabled, 0, None, None), None), key);
    } else if request.key in s.suppressed {
      LogKeepsKeys(s, RecordFor(request, Ending(Duplicate, 0, None, None), Some(request.key)), key);
    } else {
      DeliveryArrivals(request, maximum, key);
      DeliveredKeepsKeys(s, request, Attempt(request.replies, maximum, 0), key);
    }
  }

  const NOTHING_SENT := State([], {}, [])

  /** Over any run, whatever the transport answers and whatever the clock shows: at most one post
      of a key may have arrived, at most one record says so, and a key is suppressed exactly when
      one of its posts may have arrived. */
  lemma {:induction false} AtMostOnce(enabled: bool, maximum: nat, requests: seq<Request>, key: Key)
    requires 1 <= maximum <= 3 && forall r | r in requests :: maximum <= |r.replies|
    ensures var s := Run(NOTHING_SENT, enabled, maximum, requests);
      && FinalRecords(s.records, key) <= Arrivals(s.posts, key) <= 1
      && (Arrivals(s.posts, key) == 1 <==> key in s.suppressed)
      && KeyInv(s, key)
  {
    if |requests| != 0 {
      var front, last := requests[..|requests| - 1], requests[|requests| - 1];
      AtMostOnce(enabled, maximum, front, key);
      SendKeepsKeys(Run(NOTHING_SENT, enabled, maximum, front), enabled, maximum, last, key);
    }
  }

  /** The new records of a key are duplicates naming it, or come from a disabled notifier. */
  ghost predicate OnlyRepeats(before: seq<Delivery>, after: seq<Delivery>, key: Key) {
    before <= after && forall i | |before| <= i < |after| && after[i].key == key :: Repeats(after[i])
  }

  predicate Repeats(record: Delivery) {
    record.status.Disabled? || (record.status.Duplicate? && record.priorKey == Some(record.key))
  }

  lemma LogRepeats(s: State, record: Delivery, key: Key)
    requires record.key == key ==> Repeats(record)
    ensures OnlyRepeats(s.records, Log(s, record).records, key)
  {
  }

  lemma SuppressedSend(s: State, enabled: bool, maximum: nat, request: Request, key: Key)
    requires 1 <= maximum <= |request.replies| && key in s.suppressed
    ensures var after := Send(s, enabled, maximum, request);
      && key in after.suppressed
      && PostCount(after.posts, key) == PostCount(s.posts, key)
      && OnlyRepeats(s.records, after.records, key)
  {
    if !enabled {
      LogRepeats(s, RecordFor(request, Ending(Disabled, 0, None, None), None), key);
    } else if request.key in s.suppressed {
      LogRepeats(s, RecordFor(request, Ending(Duplicate, 0, None, None), Some(request.key)), key);
    } else {
      var ending := Attempt(request.replies, maximum, 0);
      var posts := PostsFor(request.key, request.replies[..ending.attempts]);
      ArrivalsOfAppend(s.posts, posts, key);
      PostsForCount(request.key, request.replies[..ending.attempts], key);
      LogRepeats(s, RecordFor(request, ending, None), key);
    }
  }

  /** Once a post of a key may have arrived, every later send of that key posts nothing and is
      recorded as a duplicate naming the key. */
  lemma {:induction false} LaterSendsAreDuplicates(
    s: State, enabled: bool, maximum: nat, requests: seq<Request>, key: Key)
    requires 1 <= maximum <= 3 && forall r | r in requests :: maximum <= |r.replies|
    requires key in s.suppressed
    ensures var after := Run(s, enabled, maximum, requests);
      && key in after.suppressed
      && PostCount(after.posts, key) == PostCount(s.posts, key)
      && OnlyRepeats(s.records, after.records, key)
  {
    if |requests| != 0 {
      var front, last := requests[..|requests| - 1], requests[|requests| - 1];
      LaterSendsAreDuplicates(s, enabled, maximum, front, key);
      SuppressedSend(Run(s, enabled, maximum, front), enabled, maximum, last, key);
    }
  }

  /** One send makes as many posts as it records attempts, at most three; when the clock does not
      run backwards it always leaves a valid record. */
  lemma SendIsRecorded(s: State, enabled: bool, maximum: nat, request: Request)
    requires 1 <= maximum <= 3 && maximum <= |request.replies|
    ensures var after := Send(s, enabled, maximum, request); var made := |after.posts| - |s.posts|;
      && 0 <= made <= 3
      && (request.requestedAt <= request.completedAt <==> |after.records| == |s.records| + 1)
      && (|after.records| == |s.records| + 1 ==>
            && after.records[|s.records|].attempts == made
            && after.records[|s.records|].key == request.key
            && after.records[|s.records|].Valid())
  {
    OnlyTheLastPostMayArrive(request.replies, maximum, 0);
  }

  /** The audit list of any run holds only records that satisfy their validator. */
  lemma {:induction false} EveryRecordIsValid(enabled: bool, maximum: nat, requests: seq<Request>)
    requires 1 <= maximum <= 3 && forall r | r in requests :: maximum <= |r.replies|
    ensures forall record | record in Run(NOTHING_SENT, enabled, maximum, requests).records :: record.Valid()
  {
    if |requests| != 0 { EveryRecordIsValid(enabled, maximum, requests[..|requests| - 1]); }
  }

  // ----- what a send does, reply by reply -----

  /** A number that may be waited for. */
  predicate Waitable(text: Option<Numeral>, seconds: real) {
    text == Some(Finite(seconds)) && 0.0 <= seconds <= 300.0
  }

  /** The server asks for another attempt after so many seconds: those of the header, or those of the
      body when the header's cannot be waited for. */
  ghost predicate AsksToWait(reply: Reply, seconds: real) {
    && reply.Response? && reply.status == 429
    && (|| Waitable(reply.retryAfterHeader, seconds)
        || ((forall other :: !Waitable(reply.retryAfterHeader, other)) && Waitable(reply.retryAfterBody, seconds)))
  }

  ghost predicate AsksToRetry(reply: Reply) { exists seconds :: AsksToWait(reply, seconds) }

  lemma BoundedIff(text: Option<Numeral>, seconds: real)
    ensures BoundedDecimal(text) == Some(seconds) <==> Waitable(text, seconds)
  {
  }

  /** The seconds to wait are those the reply asks for. */
  lemma WaitsAsAsked(reply: Reply, seconds: real)
    requires reply.Response? && reply.status == 429
    ensures RetryAfter(reply) == Some(seconds) <==> AsksToWait(reply, seconds)
  {
    forall other ensures BoundedDecimal(reply.retryAfterHeader) == Some(other) <==> Waitable(reply.retryAfterHeader, other) {
      BoundedIff(reply.retryAfterHeader, other);
    }
    BoundedIff(reply.retryAfterBody, seconds);
    var header := BoundedDecimal(reply.retryAfterHeader);
    if header.Some? { assert Waitable(reply.retryAfterHeader, header.value); }
  }

  lemma RetriedIff(reply: Reply)
    requires reply.Response? && reply.status == 429
    ensures RetryAfter(reply).Some? <==> AsksToRetry(reply)
  {
    if RetryAfter(reply).Some? { WaitsAsAsked(reply, RetryAfter(reply).value); }
    if AsksToRetry(reply) {
      var seconds :| AsksToWait(reply, seconds);
      WaitsAsAsked(reply, seconds);
    }
  }

  /** The body names a message: 17 to 20 decimal digits. */
  predicate NamesMessage(reply: Reply) {
    && reply.Response? && reply.bodyId.Some? && 17 <= |reply.bodyId.value| <= 20
    && forall i | 0 <= i < |reply.bodyId.value| :: '0' <= reply.bodyId.value[i] <= '9'
  }

  lemma MessageIdIff(reply: Reply)
    requires reply.Response?
    ensures MessageId(reply) == if NamesMessage(reply) then reply.bodyId else None
  {
  }

  /** How the reply that ends a delivery is recorded. */
  predicate EndsWith(reply: Reply, status: Status, messageId: Option<string>, code: Option<ErrorCode>) {
    if reply.TransportFailure? then status == DeliveryUncertain && messageId == None && code == Some(TransportAmbiguous)
    else if reply.status == 200 && NamesMessage(reply) then status == Sent && messageId == reply.bodyId && code == None
    else if reply.status == 200 then status == DeliveryUncertain && messageId == None && code == Some(ResponseInvalid)
    else if reply.status == 429 then status == RateLimited && messageId == None && code == Some(RateLimitExhausted)
    else if 400 <= reply.status < 500 then status == Rejected && messageId == None && code == Some(HttpRejected)
    else status == DeliveryUncertain && messageId == None && code == Some(ServerAmbiguous)
  }

  lemma SettlesAs(reply: Reply, attempts: nat, maximum: nat)
    ensures Settle(reply, attempts, maximum).None? <==> AsksToRetry(reply) && attempts != maximum
    ensures Settle(reply, attempts, maximum).Some? ==>
      var e := Settle(reply, attempts, maximum).value;
      e.attempts == attempts && EndsWith(reply, e.status, e.messageId, e.errorCode)
  {
    if reply.Response? {
      MessageIdIff(reply);
      if reply.status == 429 { RetriedIff(reply); }
    }
  }

  lemma {:induction false} AttemptEndsAt(replies: seq<Reply>, maximum: nat, made: nat)
    requires made < maximum <= |replies|
    ensures var e := Attempt(replies, maximum, made);
      && made < e.attempts <= maximum
      && (forall i | made <= i < e.attempts - 1 :: AsksToRetry(replies[i]))
      && (e.attempts == maximum || !AsksToRetry(replies[e.attempts - 1]))
      && EndsWith(replies[e.attempts - 1], e.status, e.messageId, e.errorCode)
    decreases maximum - made
  {
    SettlesAs(replies[made], made + 1, maximum);
    if Settle(replies[made], made + 1, maximum).None? { AttemptEndsAt(replies, maximum, made + 1); }
  }

  /** The record carries the request's own fields. */
  predicate RecordsRequest(record: Delivery, request: Request) {
    && record.key == request.key && record.predictionId == request.predictionId && record.payload == request.payload
    && record.requestedAt == request.requestedAt && record.completedAt == request.completedAt
  }

  /** The post made for a reply of the request. */
  ghost predicate PostsReplies(more: seq<Post>, request: Request) {
    |more| <= |request.replies|
    && forall i | 0 <= i < |more| :: more[i].key == request.key && more[i].reply == request.replies[i]
  }

  /** No response, or any status but a client error. */
  predicate MayHaveArrived(reply: Reply) { reply.TransportFailure? || reply.status < 400 || reply.status >= 500 }

  /** What one send does to the notifier. A disabled one and a suppressed key post nothing. Otherwise it
      posts as long as the server asks for another attempt, up to the maximum; the last reply decides the
      record and whether the key is suppressed. The record is kept unless the clock ran backwards. */
  lemma SendStates(s: State, enabled: bool, maximum: nat, request: Request)
    requires 1 <= maximum <= 3 && maximum <= |request.replies|
    ensures var after := Send(s, enabled, maximum, request);
      && s.posts <= after.posts && PostsReplies(after.posts[|s.posts|..], request)
      && (!enabled || request.key in s.suppressed ==> after.posts == s.posts && after.suppressed == s.suppressed)
      && (enabled && request.key !in s.suppressed ==>
            var made := |after.posts| - |s.posts|;
            && 1 <= made <= maximum
            && (forall i | 0 <= i < made - 1 :: AsksToRetry(request.replies[i]))
            && (made == maximum || !AsksToRetry(request.replies[made - 1]))
            && after.suppressed == s.suppressed +
                 (if MayHaveArrived(request.replies[made - 1]) then {request.key} else {}))
  {
    if enabled && request.key !in s.suppressed {
      AttemptEndsAt(request.replies, maximum, 0);
      OnlyTheLastPostMayArrive(request.replies, maximum, 0);
    }
  }

  /** What one send records. */
  lemma SendRecords(s: State, enabled: bool, maximum: nat, request: Request)
    requires 1 <= maximum <= 3 && maximum <= |request.replies|
    ensures var after := Send(s, enabled, maximum, request); var made := |after.posts| - |s.posts|;
      if request.requestedAt > request.completedAt then after.records == s.records
      else
        && |after.records| == |s.records| + 1 && s.records <= after.records
        && var record := after.records[|s.records|];
           && RecordsRequest(record, request) && record.attempts == made
           && (if !enabled then
                 record.status == Disabled && record.messageId == None && record.errorCode == None && record.priorKey == None
               else if request.key in s.suppressed then
                 && record.status == Duplicate && record.messageId == None && record.errorCode == None
                 && record.priorKey == Some(request.key)
               else
                 && record.priorKey == None
                 && 1 <= made <= |request.replies|
                 && EndsWith(request.replies[made - 1], record.status, record.messageId, record.errorCode))
  {
    SendIsRecorded(s, enabled, maximum, request);
    if enabled && request.key !in s.suppressed { AttemptEndsAt(request.replies, maximum, 0); }
  }
}
