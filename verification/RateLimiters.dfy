/** The process clock the limiters read: it never runs backwards, and a sleep lasts at least as
    long as it was asked to. How much time passes otherwise is arbitrary. */
module Clocks {
  class ProcessClock {
    var now: real

    constructor (start: real)
      ensures now == start
    {
      now := start;
    }

    method Monotonic() returns (reading: real)
      modifies this
      ensures old(now) <= now && reading == now
    {
      var later: real := *;
      if later > now { now := later; }
      reading := now;
    }

    method Sleep(delay: real)
      requires delay >= 0.0
      modifies this
      ensures old(now) + delay <= now
    {
      var later: real := *;
      now := if later > now + delay then later else now + delay;
    }
  }
}

/** Rolling-window reasoning over the full history of granted requests. */
module GrantHistory {
  import opened Ordering
  import opened RealArithmetic

  ghost predicate Chronological(history: seq<real>) {
    forall i, j | 0 <= i <= j < |history| :: history[i] <= history[j]
  }

  /** Every grant comes at least `width` after the grant `count` places before it. */
  ghost predicate Spread(history: seq<real>, count: nat, width: real) {
    forall i | count <= i < |history| :: SpreadAt(history, count, width, i)
  }

  ghost predicate SpreadAt(history: seq<real>, count: nat, width: real, i: int)
    requires count <= i < |history|
  {
    history[i] >= history[i - count] + width
  }

  /** The grants in the half-open window [from, from + width). */
  ghost function GrantsIn(history: seq<real>, from: real, width: real): set<int> {
    set i | 0 <= i < |history| && from <= history[i] < from + width
  }

  lemma {:induction false} RangeSize(s: set<int>, low: int, count: nat)
    requires forall i | i in s :: low <= i < low + count
    ensures |s| <= count
  {
    if count == 0 {
      forall i ensures i !in s {}
      assert s == {};
    } else {
      RangeSize(s - {low + count - 1}, low, count - 1);
    }
  }

  predicate IndexLeq(a: int, b: int) { a <= b }

  /** Grants that are spaced apart are in order. */
  lemma SpacedIsChronological(history: seq<real>, width: real)
    requires Spread(history, 1, width) && width >= 0.0
    ensures Chronological(history)
  {
    forall i, j | 0 <= i <= j < |history| ensures history[i] <= history[j] {
      SpreadMultiplies(history, width, j - i, j);
      PositiveProduct((j - i) as real, width);
    }
  }

  /** A spread history never has more than `count` grants in any window of the width. */
  lemma WindowHoldsAtMost(history: seq<real>, count: nat, width: real, from: real)
    requires Chronological(history) && Spread(history, count, width)
    ensures |GrantsIn(history, from, width)| <= count
  {
    var s := GrantsIn(history, from, width);
    if s != {} {
      LeastExists(s, IndexLeq);
      var m :| IsLeast(m, s, IndexLeq);
      if m + count < |history| { assert SpreadAt(history, count, width, m + count); }
      forall i | i in s ensures m <= i < m + count {
        assert IndexLeq(m, i);
      }
      RangeSize(s, m, count);
    }
  }

  lemma {:induction false} SpreadMultiplies(history: seq<real>, width: real, k: nat, i: nat)
    requires Spread(history, 1, width) && k <= i < |history|
    ensures history[i] >= history[i - k] + k as real * width
  {
    if k > 0 {
      SpreadMultiplies(history, width, k - 1, i);
      assert SpreadAt(history, 1, width, i - k + 1);
      assert (k - 1) as real * width + width == k as real * width;
    }
  }
}

/** The market-data provider's limiter: one request per 7.5 seconds and 800 per rolling day. */
module ProviderLimiter {
  import opened Clocks
  import opened GrantHistory
  import opened RealArithmetic

  const DAY := 86_400.0
  const SPACING := 7.5
  const DAILY_LIMIT: nat := 800

  class ProviderRateLimiter {
    const clock: ProcessClock
    var nextRequestAt: real
    var requestTimes: seq<real>

    /** Every grant ever made, of which `requestTimes` keeps only the recent ones. */
    ghost var history: seq<real>

    /** What the two fields know about the grants: the deque is a suffix of the history that has
        lost only grants older than a day, and the next slot is one spacing after the last grant. */
    ghost predicate Valid()
      reads this, clock
    {
      && Spread(history, 1, SPACING)
      && Spread(history, DAILY_LIMIT, DAY)
      && |requestTimes| <= DAILY_LIMIT
      && IsSuffix(requestTimes, history)
      && Gone(history, |history| - |requestTimes|, clock.now - DAY)
      && (history != [] ==>
            && history[|history| - 1] <= clock.now
            && nextRequestAt == history[|history| - 1] + SPACING)
    }

    constructor (clock: ProcessClock)
      ensures Valid() && history == [] && this.clock == clock
    {
      this.clock := clock;
      nextRequestAt, requestTimes, history := 0.0, [], [];
    }

    /** Blocks until a request may go out. The grant is appended to the history, and the deque is
        then exactly the part of the history inside the day that ends with it. */
    method Wait()
      requires Valid()
      modifies this, clock
      ensures Valid()
      ensures clock.now >= old(clock.now)
      ensures |history| == |old(history)| + 1 && history[..|history| - 1] == old(history)
      ensures history[|history| - 1] <= clock.now
      ensures old(history) != [] ==> history[|history| - 1] >= old(nextRequestAt)
      ensures requestTimes == InLastDay(history)
    {
      // At most one sleep is ever needed: the delay slept is the longest one standing.
      ghost var slept := false;
      while true
        invariant Valid() && history == old(history) && nextRequestAt == old(nextRequestAt)
        invariant clock.now >= old(clock.now)
        invariant slept ==> clock.now >= nextRequestAt
        invariant slept ==> |requestTimes| < DAILY_LIMIT || requestTimes[0] <= clock.now - DAY
        decreases if slept then 0 else 1
      {
        var now := clock.Monotonic();
        PruneOld(now);
        var minuteDelay := Max(0.0, nextRequestAt - now);
        var dailyDelay := if |requestTimes| >= DAILY_LIMIT then Max(0.0, requestTimes[0] + DAY - now) else 0.0;
        var delay := Max(minuteDelay, dailyDelay);
        if delay == 0.0 {
          Grant(now);
          return;
        }
        clock.Sleep(delay);
        slept := true;
      }
    }

    /** Drops the grants that have left the day ending now. */
    method PruneOld(now: real)
      requires Valid() && now == clock.now
      modifies this`requestTimes
      ensures Valid()
      ensures requestTimes != [] ==> requestTimes[0] > now - DAY
      ensures |requestTimes| <= |old(requestTimes)|
      ensures old(requestTimes) != [] && old(requestTimes[0]) <= now - DAY ==> |requestTimes| < |old(requestTimes)|
    {
      while requestTimes != [] && requestTimes[0] <= now - DAY
        invariant Valid()
        invariant |requestTimes| <= |old(requestTimes)|
        invariant |requestTimes| == |old(requestTimes)| ==> requestTimes == old(requestTimes)
        decreases |requestTimes|
      {
        SuffixHead(requestTimes, history);
        requestTimes := requestTimes[1..];
      }
    }

    /** Records a grant that both delays allow. */
    method Grant(now: real)
      requires Valid() && now == clock.now && nextRequestAt <= now
      requires requestTimes != [] ==> requestTimes[0] > now - DAY
      requires |requestTimes| < DAILY_LIMIT
      modifies this
      ensures Valid() && history == old(history) + [now]
      ensures requestTimes == InLastDay(history)
    {
      ghost var before := history;
      GrantKeepsSpread(before, requestTimes, now);
      requestTimes := requestTimes + [now];
      nextRequestAt := now + SPACING;
      history := history + [now];
      SuffixIsLastDay(requestTimes, history);
    }
  }

  /** The first `count` grants lie before the cut. */
  ghost predicate Gone(history: seq<real>, count: int, cut: real)
    requires count <= |history|
  {
    forall i | 0 <= i < count :: history[i] <= cut
  }

  ghost predicate IsSuffix(tail: seq<real>, whole: seq<real>) {
    |tail| <= |whole| && tail == whole[|whole| - |tail|..]
  }

  lemma SuffixHead(tail: seq<real>, whole: seq<real>)
    requires IsSuffix(tail, whole) && tail != []
    ensures tail[0] == whole[|whole| - |tail|]
    ensures IsSuffix(tail[1..], whole)
  {
  }

  /** The grants less than a day before the latest one, by definition. */
  ghost function InLastDay(history: seq<real>): seq<real>
    requires history != []
  {
    Recent(history, history[|history| - 1] - DAY)
  }

  ghost function Recent(history: seq<real>, cut: real): seq<real> {
    if history == [] then []
    else Recent(history[..|history| - 1], cut)
         + if history[|history| - 1] > cut then [history[|history| - 1]] else []
  }

  lemma {:induction false} RecentIsSuffix(history: seq<real>, k: nat, cut: real)
    requires k <= |history|
    requires forall i | 0 <= i < k :: history[i] <= cut
    requires forall i | k <= i < |history| :: history[i] > cut
    ensures Recent(history, cut) == history[k..]
  {
    if history != [] {
      var n := |history| - 1;
      if k <= n {
        RecentIsSuffix(history[..n], k, cut);
        assert history[k..] == history[..n][k..] + [history[n]];
      } else {
        RecentIsSuffix(history[..n], n, cut);
      }
    }
  }

  lemma SuffixIsLastDay(tail: seq<real>, history: seq<real>)
    requires tail != [] && IsSuffix(tail, history) && Spread(history, 1, SPACING)
    requires var now := history[|history| - 1];
      tail[0] > now - DAY && Gone(history, |history| - |tail|, now - DAY)
    ensures tail == InLastDay(history)
  {
    var k := |history| - |tail|;
    SpacedIsChronological(history, SPACING);
    forall i | k <= i < |history| ensures history[i] > history[|history| - 1] - DAY {
      assert history[k] <= history[i];
    }
    RecentIsSuffix(history, k, history[|history| - 1] - DAY);
  }

  /** Fewer than 800 grants inside the day leave room for one more. */
  lemma GrantKeepsSpread(history: seq<real>, tail: seq<real>, now: real)
    requires Spread(history, 1, SPACING) && Spread(history, DAILY_LIMIT, DAY)
    requires IsSuffix(tail, history) && |tail| < DAILY_LIMIT
    requires Gone(history, |history| - |tail|, now - DAY)
    requires history != [] ==> history[|history| - 1] + SPACING <= now
    ensures Spread(history + [now], 1, SPACING)
    ensures Spread(history + [now], DAILY_LIMIT, DAY)
  {
    var longer := history + [now];
    forall i | 1 <= i < |longer| ensures SpreadAt(longer, 1, SPACING, i) {
      if i < |history| { assert SpreadAt(history, 1, SPACING, i); }
    }
    forall i | DAILY_LIMIT <= i < |longer| ensures SpreadAt(longer, DAILY_LIMIT, DAY, i) {
      if i < |history| { assert SpreadAt(history, DAILY_LIMIT, DAY, i); }
    }
  }

  /** What every reachable limiter has done: at most 800 grants in any half-open day, at most 8 in
      any half-open minute, and 7.5 seconds between any two. */
  lemma ReachableHistoryIsBounded(limiter: ProviderRateLimiter, from: real)
    requires limiter.Valid()
    ensures |GrantsIn(limiter.history, from, 86_400.0)| <= 800
    ensures |GrantsIn(limiter.history, from, 60.0)| <= 8
    ensures forall i | 0 < i < |limiter.history| :: limiter.history[i] - limiter.history[i - 1] >= 7.5
  {
    var h := limiter.history;
    SpacedIsChronological(h, SPACING);
    WindowHoldsAtMost(h, DAILY_LIMIT, DAY, from);
    forall i | 8 <= i < |h| ensures SpreadAt(h, 8, 60.0, i) { SpreadMultiplies(h, SPACING, 8, i); }
    WindowHoldsAtMost(h, 8, 60.0, from);
    forall i | 0 < i < |h| ensures h[i] - h[i - 1] >= 7.5 { assert SpreadAt(h, 1, SPACING, i); }
  }
}

/** The webhook limiter: local spacing plus server-directed deferral. */
module WebhookLimiter {
  import opened Clocks
  import opened GrantHistory
  import opened RealArithmetic

  class DiscordRateLimiter {
    const clock: ProcessClock
    const interval: real
    var nextRequestAt: real

    /** When each request was let through, and the latest instant any of them or any deferral asked
        the next one to wait for. */
    ghost var history: seq<real>

    ghost predicate Valid()
      reads this, clock
    {
      && interval >= 0.5
      && Spread(history, 1, interval)
      && (history != [] ==>
            && history[|history| - 1] <= clock.now
            && history[|history| - 1] + interval <= nextRequestAt)
    }

    constructor (clock: ProcessClock, requestsPerSecond: real)
      requires 0.0 < requestsPerSecond <= 2.0
      ensures Valid() && history == [] && this.clock == clock
      ensures interval * requestsPerSecond == 1.0 && nextRequestAt == 0.0
    {
      this.clock := clock;
      QuotientTimes(1.0, requestsPerSecond);
      DivideOrder(1.0, 0.5, requestsPerSecond);
      interval := 1.0 / requestsPerSecond;
      nextRequestAt, history := 0.0, [];
    }

    /** Lets one request through, no earlier than every earlier spacing and deferral allows. */
    method Wait()
      requires Valid()
      modifies this, clock
      ensures Valid() && clock.now >= old(clock.now)
      ensures |history| == |old(history)| + 1 && history[..|history| - 1] == old(history)
      ensures old(nextRequestAt) <= history[|history| - 1] <= clock.now
      ensures nextRequestAt == history[|history| - 1] + interval
    {
      var now := clock.Monotonic();
      var delay := Max(0.0, nextRequestAt - now);
      if delay != 0.0 {
        clock.Sleep(delay);
        now := clock.Monotonic();
      }
      ghost var before := history;
      nextRequestAt := Max(now, nextRequestAt) + interval;
      history := history + [now];
      forall i | 1 <= i < |history| ensures SpreadAt(history, 1, interval, i) {
        if i < |before| { assert SpreadAt(before, 1, interval, i); }
      }
    }

    /** A server-directed deferral; `false` is the ValueError for a delay outside 0 to 300. */
    method Defer(seconds: real) returns (accepted: bool)
      requires Valid()
      modifies this`nextRequestAt, clock
      ensures Valid() && clock.now >= old(clock.now)
      ensures accepted <==> 0.0 <= seconds <= 300.0
      ensures nextRequestAt >= old(nextRequestAt)
      ensures accepted ==> nextRequestAt >= old(clock.now) + seconds
      ensures !accepted ==> nextRequestAt == old(nextRequestAt)
    {
      if seconds < 0.0 || seconds > 300.0 { return false; }
      var now := clock.Monotonic();
      nextRequestAt := Max(nextRequestAt, now + seconds);
      return true;
    }
  }

  /** Whatever rate the limiter was given: at most two requests in any half-open second, and every two
      at least its interval apart. */
  lemma AtMostTwoPerSecond(limiter: DiscordRateLimiter, from: real)
    requires limiter.Valid()
    ensures |GrantsIn(limiter.history, from, 1.0)| <= 2
    ensures forall i | 0 < i < |limiter.history| :: limiter.history[i] - limiter.history[i - 1] >= limiter.interval
  {
    var h := limiter.history;
    SpacedIsChronological(h, limiter.interval);
    forall i | 2 <= i < |h| ensures SpreadAt(h, 2, 1.0, i) { SpreadMultiplies(h, limiter.interval, 2, i); }
    WindowHoldsAtMost(h, 2, 1.0, from);
    forall i | 0 < i < |h| ensures h[i] - h[i - 1] >= limiter.interval { assert SpreadAt(h, 1, limiter.interval, i); }
  }
}
