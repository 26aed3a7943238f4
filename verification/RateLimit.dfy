/**
 * The website's in-memory fixed-window rate limiter: one bucket per key, a
 * periodic purge of expired buckets, and bounds over whole timed runs.
 */
module RateLimit {
  import opened Basics

  datatype Bucket = Bucket(count: int, resetAt: int)
  type Buckets = map<string, Bucket>

  datatype LimitResult = LimitResult(ok: bool, remaining: int, resetAt: int)

  /** The answer to one call, and the buckets after it. */
  function Limited(buckets: Buckets, key: string, limit: int, windowMs: int, now: int): (Buckets, LimitResult) {
    if key !in buckets || buckets[key].resetAt < now then
      (buckets[key := Bucket(1, now + windowMs)], LimitResult(true, limit - 1, now + windowMs))
    else
      var b := Bucket(buckets[key].count + 1, buckets[key].resetAt);
      (buckets[key := b],
       if b.count > limit then LimitResult(false, 0, b.resetAt)
       else LimitResult(true, limit - b.count, b.resetAt))
  }

  function Purged(buckets: Buckets, now: int): Buckets {
    map k | k in buckets && buckets[k].resetAt >= now :: buckets[k]
  }

  class RateLimiter {
    var buckets: Buckets

    constructor ()
      ensures buckets == map[]
    {
      buckets := map[];
    }

    method RateLimit(key: string, limit: int, windowMs: int, now: int) returns (result: LimitResult)
      modifies this
      ensures (buckets, result) == Limited(old(buckets), key, limit, windowMs, now)
      ensures key in buckets && buckets[key].resetAt == result.resetAt && buckets == old(buckets)[key := buckets[key]]
      ensures key in old(buckets) && old(buckets)[key].resetAt >= now ==>
                && buckets[key] == Bucket(old(buckets)[key].count + 1, old(buckets)[key].resetAt)
                && (result.ok <==> buckets[key].count <= limit)
      ensures key !in old(buckets) || old(buckets)[key].resetAt < now ==>
                buckets[key] == Bucket(1, now + windowMs) && result.ok
      ensures result.remaining == if result.ok then limit - buckets[key].count else 0
    {
      if key !in buckets || buckets[key].resetAt < now {
        var anew := Bucket(1, now + windowMs);
        buckets := buckets[key := anew];
        return LimitResult(true, limit - 1, anew.resetAt);
      }
      buckets := buckets[key := Bucket(buckets[key].count + 1, buckets[key].resetAt)];
      var existing := buckets[key];
      if existing.count > limit {
        return LimitResult(false, 0, existing.resetAt);
      }
      return LimitResult(true, limit - existing.count, existing.resetAt);
    }

    /** The interval callback: delete every expired bucket, in whatever order the map yields them. */
    method Purge(now: int)
      modifies this
      ensures buckets == Purged(old(buckets), now)
      ensures forall k :: k in buckets <==> k in old(buckets) && old(buckets)[k].resetAt >= now
      ensures forall k :: k in buckets ==> buckets[k] == old(buckets)[k]
    {
      var unseen := buckets.Keys;
      while unseen != {}
        invariant unseen <= old(buckets).Keys
        invariant buckets == map k | k in old(buckets) && (k in unseen || old(buckets)[k].resetAt >= now) :: old(buckets)[k]
        decreases unseen
      {
        var key :| key in unseen;
        unseen := unseen - {key};
        if buckets[key].resetAt < now {
          buckets := buckets - {key};
        }
      }
    }
  }

  // ---------------------------------------------------------------- timed runs

  datatype Event =
    | Call(key: string, limit: int, windowMs: int, now: int)
    | Purge(now: int)

  function After(buckets: Buckets, e: Event): Buckets {
    match e
    case Call(key, limit, windowMs, now) => Limited(buckets, key, limit, windowMs, now).0
    case Purge(now) => Purged(buckets, now)
  }

  function Answer(buckets: Buckets, e: Event): LimitResult
    requires e.Call?
  {
    Limited(buckets, e.key, e.limit, e.windowMs, e.now).1
  }

  /** The clock never goes back. */
  predicate ClockFrom(t: int, events: seq<Event>)
    decreases |events|
  {
    events == [] || (t <= events[0].now && ClockFrom(events[0].now, events[1..]))
  }

  /** Every answer given to `key` along the run. */
  function Answers(buckets: Buckets, events: seq<Event>, key: string): seq<LimitResult>
    decreases |events|
  {
    if events == [] then []
    else
      (if events[0].Call? && events[0].key == key then [Answer(buckets, events[0])] else [])
      + Answers(After(buckets, events[0]), events[1..], key)
  }

  function CallsOn(events: seq<Event>, key: string): seq<Event> {
    if events == [] then []
    else
      (if events[0].Call? && events[0].key == key then [events[0]] else []) + CallsOn(events[1..], key)
  }

  /** The bucket of `key` if it has not expired at `t`. */
  function Live(buckets: Buckets, key: string, t: int): Option<Bucket> {
    if key in buckets && buckets[key].resetAt >= t then Some(buckets[key]) else None
  }

  lemma AnswerFromLive(b1: Buckets, b2: Buckets, e: Event)
    requires e.Call? && Live(b1, e.key, e.now) == Live(b2, e.key, e.now)
    ensures Answer(b1, e) == Answer(b2, e)
    ensures Live(After(b1, e), e.key, e.now) == Live(After(b2, e), e.key, e.now)
  {
  }

  /**
   * Other keys and purges are invisible: the answers to a key are those of the
   * run made of its own calls only, from any buckets that agree on what is live.
   */
  lemma {:induction false} OnlyOwnCallsMatter(b1: Buckets, b2: Buckets, events: seq<Event>, key: string, t: int)
    requires ClockFrom(t, events) && Live(b1, key, t) == Live(b2, key, t)
    ensures Answers(b1, events, key) == Answers(b2, CallsOn(events, key), key)
    decreases |events|
  {
    if events != [] {
      var e, rest := events[0], events[1..];
      if e.Call? && e.key == key {
        AnswerFromLive(b1, b2, e);
        OnlyOwnCallsMatter(After(b1, e), After(b2, e), rest, key, e.now);
        assert CallsOn(events, key)[0] == e && CallsOn(events, key)[1..] == CallsOn(rest, key);
      } else {
        assert CallsOn(events, key) == CallsOn(rest, key);
        OnlyOwnCallsMatter(After(b1, e), b2, rest, key, e.now);
      }
    }
  }

  /** Every call on the key is answered. */
  lemma {:induction false} OneAnswerPerCall(buckets: Buckets, events: seq<Event>, key: string)
    ensures |Answers(buckets, events, key)| == |CallsOn(events, key)|
    decreases |events|
  {
    if events != [] {
      OneAnswerPerCall(After(buckets, events[0]), events[1..], key);
    }
  }

  /** A refusal says that nothing remains and when the window it met resets, which is not past. */
  lemma RefusalSays(buckets: Buckets, e: Event)
    requires e.Call? && !Answer(buckets, e).ok
    ensures Answer(buckets, e).remaining == 0
    ensures e.key in buckets && Answer(buckets, e).resetAt == buckets[e.key].resetAt >= e.now
  {
  }

  // ---------------------------------------------------------------- how many calls get through

  /** All calls on `key` use this limit and this window. */
  predicate Fixed(events: seq<Event>, key: string, limit: int, windowMs: int) {
    forall e :: e in events && e.Call? && e.key == key ==> e.limit == limit && e.windowMs == windowMs
  }

  function Accepted(buckets: Buckets, e: Event, key: string): nat {
    if e.Call? && e.key == key && Answer(buckets, e).ok then 1 else 0
  }

  /** Calls on `key` accepted in the window that resets at `r`. */
  function AcceptedInWindow(buckets: Buckets, events: seq<Event>, key: string, r: int): nat
    decreases |events|
  {
    if events == [] then 0
    else
      (if Accepted(buckets, events[0], key) == 1 && Answer(buckets, events[0]).resetAt == r then 1 else 0)
      + AcceptedInWindow(After(buckets, events[0]), events[1..], key, r)
  }

  /** Calls on `key` accepted at times from `lo` to `hi`, both included. */
  function AcceptedBetween(buckets: Buckets, events: seq<Event>, key: string, lo: int, hi: int): nat
    decreases |events|
  {
    if events == [] then 0
    else
      (if lo <= events[0].now <= hi then Accepted(buckets, events[0], key) else 0)
      + AcceptedBetween(After(buckets, events[0]), events[1..], key, lo, hi)
  }

  /** The first call of a window is accepted whatever the limit. */
  function Quota(limit: int): int {
    if limit < 1 then 1 else limit
  }

  function Left(limit: int, count: int): int {
    if count < Quota(limit) then Quota(limit) - count else 0
  }

  predicate CountsFromOne(buckets: Buckets) {
    forall k :: k in buckets ==> buckets[k].count >= 1
  }

  lemma CountsStay(buckets: Buckets, e: Event)
    requires CountsFromOne(buckets)
    ensures CountsFromOne(After(buckets, e))
  {
  }

  function WindowBudget(live: Option<Bucket>, t: int, windowMs: int, limit: int, r: int): int {
    match live
    case None => if t + windowMs > r then 0 else Quota(limit)
    case Some(b) => if b.resetAt > r then 0 else if b.resetAt == r then Left(limit, b.count) else Quota(limit)
  }

  lemma {:induction false} WindowBound(buckets: Buckets, events: seq<Event>, key: string, limit: int, windowMs: int, r: int, t: int)
    requires ClockFrom(t, events) && Fixed(events, key, limit, windowMs) && windowMs >= 0 && CountsFromOne(buckets)
    ensures AcceptedInWindow(buckets, events, key, r) <= WindowBudget(Live(buckets, key, t), t, windowMs, limit, r)
    decreases |events|
  {
    if events != [] {
      var e, rest := events[0], events[1..];
      CountsStay(buckets, e);
      WindowBound(After(buckets, e), rest, key, limit, windowMs, r, e.now);
      WindowRound(buckets, e, key, limit, windowMs, r, t);
    }
  }

  lemma WindowRound(buckets: Buckets, e: Event, key: string, limit: int, windowMs: int, r: int, t: int)
    requires t <= e.now && windowMs >= 0 && CountsFromOne(buckets)
    requires e.Call? && e.key == key ==> e.limit == limit && e.windowMs == windowMs
    ensures (if Accepted(buckets, e, key) == 1 && Answer(buckets, e).resetAt == r then 1 else 0)
            + WindowBudget(Live(After(buckets, e), key, e.now), e.now, windowMs, limit, r)
            <= WindowBudget(Live(buckets, key, t), t, windowMs, limit, r)
  {
  }

  /** At most `limit` calls (one, if the limit is below one) are accepted per window. */
  lemma AtMostLimitPerWindow(events: seq<Event>, key: string, limit: int, windowMs: int, r: int, t: int)
    requires ClockFrom(t, events) && Fixed(events, key, limit, windowMs) && windowMs >= 0
    ensures AcceptedInWindow(map[], events, key, r) <= Quota(limit)
  {
    WindowBound(map[], events, key, limit, windowMs, r, t);
  }

  /** `remaining` keeps its word: after an accepted call at most that many more get through in its window. */
  lemma RemainingIsABound(buckets: Buckets, e: Event, events: seq<Event>)
    requires e.Call? && Answer(buckets, e).ok && e.limit >= 1 && e.windowMs >= 0 && CountsFromOne(buckets)
    requires ClockFrom(e.now, events) && Fixed(events, e.key, e.limit, e.windowMs)
    ensures AcceptedInWindow(After(buckets, e), events, e.key, Answer(buckets, e).resetAt) <= Answer(buckets, e).remaining
  {
    CountsStay(buckets, e);
    WindowBound(After(buckets, e), events, e.key, e.limit, e.windowMs, Answer(buckets, e).resetAt, e.now);
  }

  lemma {:induction false} FullUntil(buckets: Buckets, events: seq<Event>, key: string, limit: int, windowMs: int, t: int, lo: int)
    requires ClockFrom(t, events) && Fixed(events, key, limit, windowMs)
    requires Live(buckets, key, t).Some? && buckets[key].count >= limit
    ensures AcceptedBetween(buckets, events, key, lo, buckets[key].resetAt) == 0
    decreases |events|
  {
    if events != [] {
      var e := events[0];
      if e.now <= buckets[key].resetAt {
        FullUntil(After(buckets, e), events[1..], key, limit, windowMs, e.now, lo);
      } else {
        TooLate(After(buckets, e), events[1..], key, e.now, lo, buckets[key].resetAt);
      }
    }
  }

  lemma {:induction false} TooLate(buckets: Buckets, events: seq<Event>, key: string, t: int, lo: int, hi: int)
    requires ClockFrom(t, events) && t > hi
    ensures AcceptedBetween(buckets, events, key, lo, hi) == 0
    decreases |events|
  {
    if events != [] {
      TooLate(After(buckets, events[0]), events[1..], key, events[0].now, lo, hi);
    }
  }

  /** `resetAt` keeps its word: after a refusal every call on the key is refused up to and including that time. */
  lemma RefusedUntilReset(buckets: Buckets, e: Event, events: seq<Event>)
    requires e.Call? && !Answer(buckets, e).ok
    requires ClockFrom(e.now, events) && Fixed(events, e.key, e.limit, e.windowMs)
    ensures AcceptedBetween(After(buckets, e), events, e.key, e.now, Answer(buckets, e).resetAt) == 0
  {
    FullUntil(After(buckets, e), events, e.key, e.limit, e.windowMs, e.now, e.now);
  }

  /** What a closed interval of one window's length can still see accepted. */
  function IntervalBound(limit: int, windowMs: int): int {
    if windowMs == 0 then Quota(limit) else 2 * Quota(limit) - 1
  }

  function IntervalBudget(live: Option<Bucket>, t: int, windowMs: int, limit: int, a: int): int {
    if t > a + windowMs then 0
    else match live
      case None => if t > a then Quota(limit) else IntervalBound(limit, windowMs)
      case Some(b) =>
        if b.resetAt - windowMs >= a then Left(limit, b.count)
        else if b.resetAt >= a then Left(limit, b.count) + Quota(limit)
        else IntervalBound(limit, windowMs)
  }

  lemma IntervalRound(buckets: Buckets, e: Event, key: string, limit: int, windowMs: int, a: int, t: int)
    requires t <= e.now && windowMs >= 0 && CountsFromOne(buckets)
    requires e.Call? && e.key == key ==> e.limit == limit && e.windowMs == windowMs
    ensures (if a <= e.now <= a + windowMs then Accepted(buckets, e, key) else 0)
            + IntervalBudget(Live(After(buckets, e), key, e.now), e.now, windowMs, limit, a)
            <= IntervalBudget(Live(buckets, key, t), t, windowMs, limit, a)
  {
  }

  lemma {:induction false} IntervalBudgetHolds(buckets: Buckets, events: seq<Event>, key: string, limit: int, windowMs: int, a: int, t: int)
    requires ClockFrom(t, events) && Fixed(events, key, limit, windowMs) && windowMs >= 0 && CountsFromOne(buckets)
    ensures AcceptedBetween(buckets, events, key, a, a + windowMs)
            <= IntervalBudget(Live(buckets, key, t), t, windowMs, limit, a)
    decreases |events|
  {
    if events != [] {
      var e, rest := events[0], events[1..];
      CountsStay(buckets, e);
      IntervalBudgetHolds(After(buckets, e), rest, key, limit, windowMs, a, e.now);
      IntervalRound(buckets, e, key, limit, windowMs, a, t);
    }
  }

  /** Any closed interval of length `windowMs` sees at most `2 * limit - 1` accepted calls. */
  lemma AtMostTwiceTheLimit(events: seq<Event>, key: string, limit: int, windowMs: int, a: int, t: int)
    requires ClockFrom(t, events) && Fixed(events, key, limit, windowMs) && windowMs >= 0
    ensures AcceptedBetween(map[], events, key, a, a + windowMs) <= IntervalBound(limit, windowMs)
  {
    IntervalBudgetHolds(map[], events, key, limit, windowMs, a, t);
  }

  function Burst(n: nat, key: string, limit: int, windowMs: int, now: int): seq<Event> {
    if n == 0 then [] else [Call(key, limit, windowMs, now)] + Burst(n - 1, key, limit, windowMs, now)
  }

  lemma {:induction false} BurstShape(n: nat, key: string, limit: int, windowMs: int, now: int, rest: seq<Event>)
    requires ClockFrom(now, rest) && Fixed(rest, key, limit, windowMs)
    ensures ClockFrom(now, Burst(n, key, limit, windowMs, now) + rest)
    ensures Fixed(Burst(n, key, limit, windowMs, now) + rest, key, limit, windowMs)
  {
    if n > 0 {
      var burst := Burst(n, key, limit, windowMs, now);
      BurstShape(n - 1, key, limit, windowMs, now, rest);
      assert (burst + rest)[1..] == Burst(n - 1, key, limit, windowMs, now) + rest;
      assert burst + rest == [(burst + rest)[0]] + (burst + rest)[1..];
    } else {
      assert [] + rest == rest;
    }
  }

  /** A burst into a live bucket with room is accepted call by call. */
  lemma {:induction false} BurstAccepted(buckets: Buckets, n: nat, key: string, limit: int, windowMs: int, now: int, rest: seq<Event>, lo: int, hi: int)
    requires lo <= now <= hi && Live(buckets, key, now).Some? && buckets[key].count + n <= limit
    ensures AcceptedBetween(buckets, Burst(n, key, limit, windowMs, now) + rest, key, lo, hi)
         == n + AcceptedBetween(buckets[key := Bucket(buckets[key].count + n, buckets[key].resetAt)], rest, key, lo, hi)
  {
    if n > 0 {
      var burst := Burst(n, key, limit, windowMs, now);
      assert (burst + rest)[1..] == Burst(n - 1, key, limit, windowMs, now) + rest;
      var after := After(buckets, burst[0]);
      BurstAccepted(after, n - 1, key, limit, windowMs, now, rest, lo, hi);
      assert after[key := Bucket(after[key].count + (n - 1), after[key].resetAt)]
          == buckets[key := Bucket(buckets[key].count + n, buckets[key].resetAt)];
    } else {
      assert [] + rest == rest;
      assert buckets[key := Bucket(buckets[key].count + 0, buckets[key].resetAt)] == buckets;
    }
  }

  /** One call at 0, the rest of the limit at the window's last instant, a full limit just after. */
  function Straddling(key: string, limit: nat, windowMs: int): seq<Event>
    requires limit >= 1
  {
    [Call(key, limit, windowMs, 0)]
    + (Burst(limit - 1, key, limit, windowMs, windowMs)
       + ([Call(key, limit, windowMs, windowMs + 1)] + (Burst(limit - 1, key, limit, windowMs, windowMs + 1) + [])))
  }

  lemma StraddlingShape(key: string, limit: nat, windowMs: int)
    requires limit >= 1 && windowMs >= 1
    ensures ClockFrom(0, Straddling(key, limit, windowMs)) && Fixed(Straddling(key, limit, windowMs), key, limit, windowMs)
  {
    var last := Burst(limit - 1, key, limit, windowMs, windowMs + 1) + [];
    BurstShape(limit - 1, key, limit, windowMs, windowMs + 1, []);
    var second := [Call(key, limit, windowMs, windowMs + 1)] + last;
    assert second[1..] == last;
    var first := Burst(limit - 1, key, limit, windowMs, windowMs) + second;
    BurstShape(limit - 1, key, limit, windowMs, windowMs, second);
    var all := [Call(key, limit, windowMs, 0)] + first;
    assert all[1..] == first;
    assert ClockFrom(0, first) by {
      assert first != [] ==> first[0].now >= windowMs;
    }
  }

  /** The bound is reached, for every limit and every window of at least one millisecond. */
  lemma TwiceTheLimitIsReached(key: string, limit: nat, windowMs: int)
    requires limit >= 1 && windowMs >= 1
    ensures AcceptedBetween(map[], Straddling(key, limit, windowMs), key, 1, 1 + windowMs) == 2 * limit - 1
  {
    var lo, hi := 1, 1 + windowMs;
    var opening, reopening := Call(key, limit, windowMs, 0), Call(key, limit, windowMs, windowMs + 1);
    var last := Burst(limit - 1, key, limit, windowMs, windowMs + 1) + [];
    var second := [reopening] + last;
    var first := Burst(limit - 1, key, limit, windowMs, windowMs) + second;
    assert Straddling(key, limit, windowMs)[1..] == first;
    assert second[1..] == last;
    var b1: Buckets := map[key := Bucket(1, windowMs)];
    assert After(map[], opening) == b1;
    BurstAccepted(b1, limit - 1, key, limit, windowMs, windowMs, second, lo, hi);
    var b2 := b1[key := Bucket(limit, windowMs)];
    var b3 := After(b2, reopening);
    assert b3[key] == Bucket(1, windowMs + 1 + windowMs);
    BurstAccepted(b3, limit - 1, key, limit, windowMs, windowMs + 1, [], lo, hi);
  }

  /** A bucket that has counted its limit lets nothing more through in a burst. */
  lemma {:induction false} BurstRefused(buckets: Buckets, n: nat, key: string, limit: int, windowMs: int, now: int)
    requires Live(buckets, key, now).Some? && buckets[key].count >= limit
    ensures AcceptedBetween(buckets, Burst(n, key, limit, windowMs, now), key, now, now) == 0
  {
    if n > 0 {
      var burst := Burst(n, key, limit, windowMs, now);
      assert burst[1..] == Burst(n - 1, key, limit, windowMs, now);
      BurstRefused(After(buckets, burst[0]), n - 1, key, limit, windowMs, now);
    }
  }

  lemma {:induction false} BurstSplit(m: nat, n: nat, key: string, limit: int, windowMs: int, now: int)
    ensures Burst(m + n, key, limit, windowMs, now)
         == Burst(m, key, limit, windowMs, now) + Burst(n, key, limit, windowMs, now)
  {
    if m > 0 {
      BurstSplit(m - 1, n, key, limit, windowMs, now);
    } else {
      assert [] + Burst(n, key, limit, windowMs, now) == Burst(n, key, limit, windowMs, now);
    }
  }

  lemma AcceptedLeaves(buckets: Buckets, e: Event)
    requires e.Call? && Answer(buckets, e).ok && e.limit >= 1 && e.windowMs >= 0 && CountsFromOne(buckets)
    ensures var left, b := Answer(buckets, e).remaining, After(buckets, e);
            left >= 0 && Live(b, e.key, e.now).Some? && b[e.key].count == e.limit - left
  {
  }

  /** Into a bucket with `left` places a burst of any size gets that many calls through. */
  lemma BurstIntoRoom(b: Buckets, left: nat, n: nat, key: string, limit: int, windowMs: int, now: int)
    requires Live(b, key, now).Some? && b[key].count == limit - left
    ensures AcceptedBetween(b, Burst(n, key, limit, windowMs, now), key, now, now) == if n < left then n else left
  {
    hide AcceptedBetween;
    hide Burst;
    var m := if n < left then n else left;
    var rest := Burst(n - m, key, limit, windowMs, now);
    BurstSplit(m, n - m, key, limit, windowMs, now);
    BurstAccepted(b, m, key, limit, windowMs, now, rest, now, now);
    var filled := b[key := Bucket(b[key].count + m, b[key].resetAt)];
    if m == left {
      BurstRefused(filled, n - m, key, limit, windowMs, now);
    } else {
      NoBurst(filled, key, limit, windowMs, now);
    }
  }

  lemma NoBurst(buckets: Buckets, key: string, limit: int, windowMs: int, now: int)
    ensures AcceptedBetween(buckets, Burst(0, key, limit, windowMs, now), key, now, now) == 0
  {
  }

  /** `remaining` is exact: of any number of further calls at once, just that many get through. */
  lemma RemainingIsExact(buckets: Buckets, e: Event, n: nat)
    requires e.Call? && Answer(buckets, e).ok && e.limit >= 1 && e.windowMs >= 0 && CountsFromOne(buckets)
    ensures var left := Answer(buckets, e).remaining;
            AcceptedBetween(After(buckets, e), Burst(n, e.key, e.limit, e.windowMs, e.now), e.key, e.now, e.now)
            == if n < left then n else left
  {
    hide AcceptedBetween;
    hide Burst;
    AcceptedLeaves(buckets, e);
    BurstIntoRoom(After(buckets, e), Answer(buckets, e).remaining, n, e.key, e.limit, e.windowMs, e.now);
  }

  lemma {:induction false} BurstInWindow(buckets: Buckets, n: nat, key: string, limit: int, windowMs: int, now: int)
    requires Live(buckets, key, now).Some? && buckets[key].count + n <= limit
    ensures AcceptedInWindow(buckets, Burst(n, key, limit, windowMs, now), key, buckets[key].resetAt) == n
  {
    if n > 0 {
      var burst := Burst(n, key, limit, windowMs, now);
      assert burst[1..] == Burst(n - 1, key, limit, windowMs, now);
      BurstInWindow(After(buckets, burst[0]), n - 1, key, limit, windowMs, now);
    }
  }

  /** The quota of a window is reached by as many calls at once. */
  lemma LimitPerWindowIsReached(key: string, limit: int, windowMs: int, now: int)
    requires limit >= 1 && windowMs >= 0
    ensures AcceptedInWindow(map[], Burst(limit, key, limit, windowMs, now), key, now + windowMs) == limit
  {
    var burst := Burst(limit, key, limit, windowMs, now);
    assert burst[1..] == Burst(limit - 1, key, limit, windowMs, now);
    BurstInWindow(After(map[], burst[0]), limit - 1, key, limit, windowMs, now);
  }

  function AcceptedFrom(events: seq<Event>, key: string, a: int, windowMs: int): nat {
    AcceptedBetween(map[], events, key, a, a + windowMs)
  }

  /** Every closed interval of one window's length sees at most `limit` accepted calls, in every run. */
  ghost predicate SlidingLimit(key: string, limit: int, windowMs: int) {
    forall events, a :: ClockFrom(0, events) && Fixed(events, key, limit, windowMs)
      ==> AcceptedFrom(events, key, a, windowMs) <= limit
  }

  /**
   * The documented "max requests in `windowMs`" holds of every interval of that
   * length exactly when the limit is one, or positive with an empty window;
   * otherwise a run straddling a reset gets `2 * limit - 1` calls through, and
   * a limit below one still lets the first call pass.
   */
  lemma SlidingLimitIff(key: string, limit: int, windowMs: int)
    requires windowMs >= 0
    ensures SlidingLimit(key, limit, windowMs) <==> limit == 1 || (limit > 1 && windowMs == 0)
  {
    if limit == 1 || (limit > 1 && windowMs == 0) {
      forall events, a | ClockFrom(0, events) && Fixed(events, key, limit, windowMs)
        ensures AcceptedFrom(events, key, a, windowMs) <= limit
      {
        AtMostTwiceTheLimit(events, key, limit, windowMs, a, 0);
      }
    } else if limit > 1 {
      StraddlingShape(key, limit, windowMs);
      TwiceTheLimitIsReached(key, limit, windowMs);
      assert AcceptedFrom(Straddling(key, limit, windowMs), key, 1, windowMs) > limit;
    } else {
      var once := [Call(key, limit, windowMs, 0)];
      assert once[1..] == [];
      assert ClockFrom(0, once) && Fixed(once, key, limit, windowMs);
      assert Accepted(map[], once[0], key) == 1;
      assert AcceptedBetween(After(map[], once[0]), [], key, 0, windowMs) == 0;
      assert AcceptedFrom(once, key, 0, windowMs) == 1;
    }
  }
}
