/** Model of request-rate admission (RequestRateLimit) over two sliding
    windows, one hour and one day long.

    The bucket implementation (RateBucket) is not part of this model; it is
    replaced by a reference bucket that keeps every accepted hit with its
    millisecond timestamp (instead of per-slot counters) and sums the hits
    of the trailing window. Its `RetryAfter` answers whole seconds, rounded
    up. Its `Update`, `Add` and `RetryAfter` carry the contracts the
    admission logic relies on. */
module RateLimiting {

  /** One accepted request batch: when it happened and how many requests it counts for. */
  datatype Hit = Hit(time: int, count: int)

  /** Whether a hit at `time` lies in the window of length `window` ending at `t`. */
  predicate InWindow(time: int, window: nat, t: int) {
    t - window < time <= t
  }

  /** The rolling total at `t`: the counts of the hits in `(t - window, t]`. */
  function WindowTotal(hits: seq<Hit>, window: nat, t: int): int
    decreases |hits|
  {
    if |hits| == 0 then 0
    else
      var last := hits[|hits| - 1];
      WindowTotal(hits[..|hits| - 1], window, t) + (if InWindow(last.time, window, t) then last.count else 0)
  }

  /** Hits that can only age out: none lies after `now` and none counts negatively. */
  predicate Settled(hits: seq<Hit>, now: int) {
    forall i :: 0 <= i < |hits| ==> hits[i].time <= now && hits[i].count >= 0
  }

  /** The least wait `d`, searched from `from` up to `window`, after which the
      rolling total is below `limit`; `window` when no such wait exists. */
  function RetryAfterFrom(hits: seq<Hit>, window: nat, now: int, limit: int, from: nat): (d: nat)
    requires from <= window
    ensures from <= d <= window
    ensures forall t :: now + from <= t < now + d ==> WindowTotal(hits, window, t) >= limit
    ensures d < window ==> WindowTotal(hits, window, now + d) < limit
    decreases window - from
  {
    if from == window then window
    else if WindowTotal(hits, window, now + from) < limit then from
    else RetryAfterFrom(hits, window, now, limit, from + 1)
  }

  function RetryWait(hits: seq<Hit>, window: nat, now: int, limit: int): nat {
    RetryAfterFrom(hits, window, now, limit, 0)
  }

  /** A wait in milliseconds as whole seconds, rounded up: the unit of `Retry-After`. */
  function Seconds(ms: nat): (s: nat)
    ensures ms <= 1000 * s < ms + 1000
  {
    var q := (ms + 999) / 1000;
    assert ms + 999 == 1000 * q + (ms + 999) % 1000;
    q
  }

  datatype RateWindow = Hour | Day

  /** Window lengths in milliseconds, the unit of the request timestamps. */
  function Length(w: RateWindow): nat {
    match w
    case Hour => 3_600_000
    case Day => 86_400_000
  }

  /** A reference rate bucket: the accepted hits and the time of the last update. */
  class RateBucket {
    const window: nat
    var hits: seq<Hit>
    var now: int

    constructor (w: RateWindow)
      ensures window == Length(w) && hits == [] && now == 0
    {
      window := Length(w);
      hits := [];
      now := 0;
    }

    /** Advances the bucket to `timestamp` and answers the rolling total there. */
    method Update(timestamp: int) returns (total: int)
      modifies this`now
      ensures now == timestamp && total == WindowTotal(hits, window, timestamp)
    {
      now := timestamp;
      total := WindowTotal(hits, window, timestamp);
    }

    /** Advances the bucket to `timestamp` and counts `count` requests there. */
    method Add(timestamp: int, count: int)
      modifies this`now, this`hits
      ensures now == timestamp && hits == old(hits) + [Hit(timestamp, count)]
    {
      now := timestamp;
      hits := hits + [Hit(timestamp, count)];
    }

    /** The least wait, in whole seconds, after which the rolling total drops below `limit`. */
    function RetryAfter(limit: int): nat
      reads this
    {
      Seconds(RetryWait(hits, window, now, limit))
    }
  }

  /** The per-subject ceilings. */
  datatype Limit = Limit(requestHour: int, requestDay: int)

  /** The figures quoted by the denial message: both totals and both ceilings. */
  datatype LimitMessage = LimitMessage(hourTotal: int, hourLimit: int, dayTotal: int, dayLimit: int)

  const TooManyRequestsStatus: int := 429

  datatype RateLimitResult =
    | Success
    | Denied(status: int, message: LimitMessage, retryAfter: int)

  function Max(a: int, b: int): int {
    if a >= b then a else b
  }

  /** The admission rule: a request is refused once either total reaches its ceiling. */
  predicate Refused(hourTotal: int, dayTotal: int, limit: Limit) {
    hourTotal >= limit.requestHour || dayTotal >= limit.requestDay
  }

  /** The usage report filled in by `Update`. */
  class LimitStats {
    var hourRequestUsed: int
    var dayRequestUsed: int

    constructor ()
      ensures hourRequestUsed == 0 && dayRequestUsed == 0
    {
      hourRequestUsed := 0;
      dayRequestUsed := 0;
    }
  }

  class RequestRateLimit {
    const hour: RateBucket
    const day: RateBucket

    ghost predicate Valid()
      reads this
    {
      hour != day && hour.window == Length(Hour) && day.window == Length(Day)
    }

    constructor ()
      ensures Valid() && fresh(hour) && fresh(day)
      ensures hour.hits == [] && day.hits == []
    {
      hour := new RateBucket(Hour);
      day := new RateBucket(Day);
    }

    /** Admission of `count` requests at `timestamp`: both totals are taken
        after advancing the buckets; a refusal leaves the hits untouched and
        answers 429 with the larger of the two waits, an admission counts the
        requests in both buckets. */
    method Check(timestamp: int, limit: Limit, count: int) returns (r: RateLimitResult)
      requires Valid()
      modifies hour, day
      ensures Valid() && hour.now == timestamp && day.now == timestamp
      ensures var hourTotal := WindowTotal(old(hour.hits), hour.window, timestamp);
              var dayTotal := WindowTotal(old(day.hits), day.window, timestamp);
              if Refused(hourTotal, dayTotal, limit) then
                hour.hits == old(hour.hits) && day.hits == old(day.hits)
                && r == Denied(TooManyRequestsStatus,
                               LimitMessage(hourTotal, limit.requestHour, dayTotal, limit.requestDay),
                               Max(hour.RetryAfter(limit.requestHour), day.RetryAfter(limit.requestDay)))
              else
                hour.hits == old(hour.hits) + [Hit(timestamp, count)]
                && day.hits == old(day.hits) + [Hit(timestamp, count)]
                && r == Success
    {
      var hourTotal := hour.Update(timestamp);
      var dayTotal := day.Update(timestamp);
      if hourTotal >= limit.requestHour || dayTotal >= limit.requestDay {
        var message := LimitMessage(hourTotal, limit.requestHour, dayTotal, limit.requestDay);
        var hourRetryAfter := hour.RetryAfter(limit.requestHour);
        var dayRetryAfter := day.RetryAfter(limit.requestDay);
        var retryAfter := Max(hourRetryAfter, dayRetryAfter);
        return Denied(TooManyRequestsStatus, message, retryAfter);
      } else {
        hour.Add(timestamp, count);
        day.Add(timestamp, count);
        return Success;
      }
    }

    /** Refreshes both buckets and reports their totals; never counts a request. */
    method Update(timestamp: int, stats: LimitStats)
      requires Valid()
      modifies hour`now, day`now, stats
      ensures Valid() && hour.now == timestamp && day.now == timestamp
      ensures hour.hits == old(hour.hits) && day.hits == old(day.hits)
      ensures stats.hourRequestUsed == WindowTotal(hour.hits, hour.window, timestamp)
      ensures stats.dayRequestUsed == WindowTotal(day.hits, day.window, timestamp)
    {
      var hourTotal := hour.Update(timestamp);
      var dayTotal := day.Update(timestamp);
      stats.dayRequestUsed := dayTotal;
      stats.hourRequestUsed := hourTotal;
    }
  }

  // ---------------------------------------------------------------------
  // Properties

  /** A hit added at `t` is counted exactly once by the total at `t`. */
  lemma AddedHitCountedOnce(hits: seq<Hit>, window: nat, t: int, count: int)
    requires window > 0
    ensures WindowTotal(hits + [Hit(t, count)], window, t) == WindowTotal(hits, window, t) + count
  {
    var hs := hits + [Hit(t, count)];
    assert hs[..|hs| - 1] == hits;
  }

  /** Admission compares the total before the addition, so an admitted batch
      can carry the total past its ceiling, by less than the batch size. */
  lemma AdmittedTotalBound(hits: seq<Hit>, window: nat, t: int, ceiling: int, count: int)
    requires window > 0 && WindowTotal(hits, window, t) < ceiling
    ensures WindowTotal(hits + [Hit(t, count)], window, t) < ceiling + count
    ensures count > ceiling - WindowTotal(hits, window, t) ==>
              WindowTotal(hits + [Hit(t, count)], window, t) > ceiling
  {
    AddedHitCountedOnce(hits, window, t, count);
  }

  /** Hits only leave the window as time goes on, so the total cannot grow. */
  lemma {:induction false} TotalNonIncreasing(hits: seq<Hit>, window: nat, now: int, t1: int, t2: int)
    requires Settled(hits, now) && now <= t1 <= t2
    ensures WindowTotal(hits, window, t2) <= WindowTotal(hits, window, t1)
    decreases |hits|
  {
    if |hits| > 0 {
      var init := hits[..|hits| - 1];
      assert Settled(init, now) by {
        forall i | 0 <= i < |init| ensures init[i].time <= now && init[i].count >= 0 {
          assert init[i] == hits[i];
        }
      }
      assert hits[|hits| - 1].time <= now && hits[|hits| - 1].count >= 0;
      TotalNonIncreasing(init, window, now, t1, t2);
    }
  }

  /** A whole window after the last hit, every hit has aged out. */
  lemma {:induction false} WindowEmpties(hits: seq<Hit>, window: nat, now: int, t: int)
    requires Settled(hits, now) && t >= now + window
    ensures WindowTotal(hits, window, t) == 0
    decreases |hits|
  {
    if |hits| > 0 {
      var init := hits[..|hits| - 1];
      assert Settled(init, now) by {
        forall i | 0 <= i < |init| ensures init[i].time <= now && init[i].count >= 0 {
          assert init[i] == hits[i];
        }
      }
      WindowEmpties(init, window, now, t);
    }
  }

  /** At the wait's end the total is below a positive ceiling: either the
      search found such a time, or the whole window has passed. */
  lemma WaitEndAdmits(hits: seq<Hit>, window: nat, now: int, limit: int)
    requires Settled(hits, now) && limit > 0
    ensures WindowTotal(hits, window, now + RetryWait(hits, window, now, limit)) < limit
  {
    if RetryWait(hits, window, now, limit) == window {
      WindowEmpties(hits, window, now, now + window);
    }
  }

  /** Waiting the advertised time is enough: from then on the total stays below the ceiling. */
  lemma RetryAfterSuffices(hits: seq<Hit>, window: nat, now: int, limit: int, t: int)
    requires Settled(hits, now) && limit > 0
    requires t >= now + RetryWait(hits, window, now, limit)
    ensures WindowTotal(hits, window, t) < limit
  {
    WaitEndAdmits(hits, window, now, limit);
    TotalNonIncreasing(hits, window, now, now + RetryWait(hits, window, now, limit), t);
  }

  /** The wait is exact: advancing the clock by `k` within it shortens it by `k`. */
  lemma {:induction false} RetryAfterCountsDown(hits: seq<Hit>, window: nat, now: int, limit: int, k: nat)
    requires Settled(hits, now) && limit > 0
    requires k <= RetryWait(hits, window, now, limit)
    ensures RetryWait(hits, window, now + k, limit) == RetryWait(hits, window, now, limit) - k
  {
    var d := RetryWait(hits, window, now, limit);
    if k > 0 {
      WaitEndAdmits(hits, window, now, limit);
      assert now + k + (d - k) == now + d;
      WaitFromIsLeast(hits, window, now + k, limit, 0, d - k);
    }
  }

  /** The search returns `target` whenever `target` is the first wait from `from` that works. */
  lemma {:induction false} WaitFromIsLeast(hits: seq<Hit>, window: nat, now: int, limit: int, from: nat, target: nat)
    requires from <= target < window
    requires WindowTotal(hits, window, now + target) < limit
    requires forall t :: now + from <= t < now + target ==> WindowTotal(hits, window, t) >= limit
    ensures RetryAfterFrom(hits, window, now, limit, from) == target
    decreases target - from
  {
    if from < target {
      assert WindowTotal(hits, window, now + from) >= limit;
      WaitFromIsLeast(hits, window, now, limit, from + 1, target);
    }
  }

  /** A subject is told to wait exactly when it is over its ceiling now; a
      wait of some milliseconds is at least one second. */
  lemma RefusedMeansWait(hits: seq<Hit>, window: nat, now: int, limit: int)
    requires window > 0
    ensures RetryWait(hits, window, now, limit) > 0 <==> WindowTotal(hits, window, now) >= limit
    ensures Seconds(RetryWait(hits, window, now, limit)) > 0 <==> WindowTotal(hits, window, now) >= limit
  {
  }

  /** Retrying after the `Retry-After` of a refusal, in seconds, is admitted
      when no other request intervened. */
  lemma RetryAfterAdmits(hourHits: seq<Hit>, dayHits: seq<Hit>, now: int, limit: Limit)
    requires Settled(hourHits, now) && Settled(dayHits, now)
    requires limit.requestHour > 0 && limit.requestDay > 0
    ensures var t := now + 1000 * Max(Seconds(RetryWait(hourHits, Length(Hour), now, limit.requestHour)),
                                      Seconds(RetryWait(dayHits, Length(Day), now, limit.requestDay)));
            !Refused(WindowTotal(hourHits, Length(Hour), t), WindowTotal(dayHits, Length(Day), t), limit)
  {
    var sh := Seconds(RetryWait(hourHits, Length(Hour), now, limit.requestHour));
    var sd := Seconds(RetryWait(dayHits, Length(Day), now, limit.requestDay));
    BothWaitsAdmit(hourHits, dayHits, Length(Hour), Length(Day), now, limit, now + 1000 * Max(sh, sd));
  }

  lemma BothWaitsAdmit(hourHits: seq<Hit>, dayHits: seq<Hit>, hour: nat, day: nat, now: int, limit: Limit, t: int)
    requires Settled(hourHits, now) && Settled(dayHits, now)
    requires limit.requestHour > 0 && limit.requestDay > 0
    requires t >= now + RetryWait(hourHits, hour, now, limit.requestHour)
    requires t >= now + RetryWait(dayHits, day, now, limit.requestDay)
    ensures !Refused(WindowTotal(hourHits, hour, t), WindowTotal(dayHits, day, t), limit)
  {
    RetryAfterSuffices(hourHits, hour, now, limit.requestHour, t);
    RetryAfterSuffices(dayHits, day, now, limit.requestDay, t);
  }

  /** A refused request leaves nothing behind: checking again at the same
      time is refused again with the same answer. */
  method RecheckAfterRefusal(rl: RequestRateLimit, timestamp: int, limit: Limit, count: int)
    returns (first: RateLimitResult, second: RateLimitResult)
    requires rl.Valid()
    modifies rl.hour, rl.day
    ensures first.Denied? ==> second == first
    ensures first.Denied? ==> rl.hour.hits == old(rl.hour.hits) && rl.day.hits == old(rl.day.hits)
  {
    first := rl.Check(timestamp, limit, count);
    second := rl.Check(timestamp, limit, count);
  }
}
