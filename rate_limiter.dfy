/**
 * The API rate limiter (src/RateLimiter.ts): a log of request timestamps
 * in milliseconds, pruned to a sliding one-hour window when a request is
 * recorded, with a limit of 200 requests per hour and at least one second
 * between requests. The clock is an explicit parameter; a sleep of `ms`
 * advances it by exactly `ms`.
 */
module RateLimiting {
  const HourlyLimit: int := 200
  const MinDelay: int := 1000
  const Hour: int := 60 * 60 * 1000

  /** The timestamps within the hour before `now`: `filter(t => t > now - 1h)`. */
  function Recent(log: seq<int>, now: int): (r: seq<int>)
    ensures |r| <= |log|
    ensures forall t :: t in r <==> t in log && t > now - Hour
    decreases |log|
  {
    if |log| == 0 then []
    else
      var init := log[..|log| - 1];
      var t := log[|log| - 1];
      assert log == init + [t];
      if t > now - Hour then Recent(init, now) + [t] else Recent(init, now)
  }

  /** Pruning keeps the log's order: entries appended later stay after earlier ones. */
  lemma {:induction false} RecentAppend(log: seq<int>, t: int, now: int)
    ensures Recent(log + [t], now) == Recent(log, now) + (if t > now - Hour then [t] else [])
  {
    assert (log + [t])[..|log|] == log;
  }

  /** The earliest timestamp of a non-empty log (`Math.min(...requestLog)`). */
  function Oldest(log: seq<int>): (m: int)
    requires |log| > 0
    ensures m in log && forall t :: t in log ==> m <= t
    decreases |log|
  {
    if |log| == 1 then log[0]
    else
      var rest := Oldest(log[1..]);
      assert forall t :: t in log ==> t == log[0] || t in log[1..];
      if log[0] <= rest then log[0] else rest
  }

  /** The statistics of `getHourlyStats`; `percentage` is `count / limit * 100` rounded to one decimal, exact here. */
  datatype HourlyStats = HourlyStats(count: nat, limit: int, remaining: int, percentage: real)

  class RateLimiter {
    var requestLog: seq<int>

    constructor ()
      ensures requestLog == []
    {
      requestLog := [];
    }

    /** `recordRequest`: appends `now` and drops every entry older than an hour. */
    method RecordRequest(now: int)
      modifies this
      ensures requestLog == Recent(old(requestLog) + [now], now)
      ensures |requestLog| > 0 && requestLog[|requestLog| - 1] == now
      ensures forall t :: t in requestLog ==> t > now - Hour
    {
      RecentAppend(requestLog, now, now);
      requestLog := Recent(requestLog + [now], now);
    }

    /** `canMakeRequest`: fewer than 200 requests within the last hour. */
    function CanMakeRequest(now: int): (ok: bool)
      reads this
      ensures ok <==> |Recent(requestLog, now)| < HourlyLimit
    {
      |Recent(requestLog, now)| < HourlyLimit
    }

    /** `getHourlyStats`: the count in the window and what is left of the limit (negative once over it). */
    function GetHourlyStats(now: int): (s: HourlyStats)
      reads this
      ensures s.count == |Recent(requestLog, now)|
      ensures s.limit == HourlyLimit && s.count + s.remaining == s.limit
      ensures s.remaining > 0 <==> CanMakeRequest(now)
      ensures s.percentage == s.count as real / 2.0
    {
      var count := |Recent(requestLog, now)|;
      HourlyStats(count, HourlyLimit, HourlyLimit - count, (count * 5) as real / 10.0)
    }

    /** `reset`: empties the log, after which a request is always allowed. */
    method Reset()
      modifies this
      ensures requestLog == []
      ensures forall now :: CanMakeRequest(now)
    {
      requestLog := [];
    }

    /**
     * The bookkeeping of `waitAndExecute`: over the limit, sleep until an
     * hour and a second after the oldest entry; then keep at least one
     * second after the last entry; then record exactly one request, at the
     * time reached, and run the call.
     */
    method WaitAndExecute<T>(now: int, apiCall: T) returns (result: T, recordedAt: int)
      modifies this
      ensures result == apiCall
      ensures recordedAt >= now
      ensures requestLog == Recent(old(requestLog) + [recordedAt], recordedAt)
      ensures requestLog[|requestLog| - 1] == recordedAt
      ensures |old(requestLog)| > 0 ==> recordedAt >= old(requestLog)[|old(requestLog)| - 1] + MinDelay
      ensures !old(CanMakeRequest(now)) ==> recordedAt > Oldest(old(requestLog)) + Hour
    {
      var clock := now;
      if !CanMakeRequest(clock) {
        var oldest := Oldest(requestLog);
        var waitTime := oldest + Hour - clock + 1000;
        if waitTime > 0 {
          clock := clock + waitTime;
        }
      }
      if |requestLog| > 0 {
        var lastRequest := requestLog[|requestLog| - 1];
        var timeSinceLast := clock - lastRequest;
        if timeSinceLast < MinDelay {
          clock := clock + (MinDelay - timeSinceLast);
        }
      }
      RecordRequest(clock);
      recordedAt := clock;
      result := apiCall;
    }
  }

  /** Recording twice at the same instant keeps both entries: the log counts requests, not distinct times. */
  lemma {:induction false} SameInstantCountsTwice(log: seq<int>, now: int)
    ensures |Recent(Recent(log + [now], now) + [now], now)| == |Recent(log, now)| + 2
  {
    RecentAppend(log, now, now);
    RecentAppend(Recent(log + [now], now), now, now);
    RecentIdempotent(log, now);
  }

  /** Pruning twice at the same time is pruning once. */
  lemma {:induction false} RecentIdempotent(log: seq<int>, now: int)
    ensures Recent(Recent(log, now), now) == Recent(log, now)
    decreases |log|
  {
    if |log| > 0 {
      var init := log[..|log| - 1];
      var t := log[|log| - 1];
      RecentIdempotent(init, now);
      if t > now - Hour {
        RecentAppend(Recent(init, now), t, now);
      }
    }
  }
}
