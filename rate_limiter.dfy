/**
 * The fixed-window rate limiter middleware (middleware/rateLimiter.ts). `rateLimiter(limit,
 * windowMs)` owns a map from client IP to a hit counter and the time its window expires;
 * every request counts, and a request that takes its IP's count above `limit` within
 * the window is answered with 429 instead of being passed on. The clock is a parameter.
 */
module RateLimiter {
  import opened Wrappers

  const DEFAULT_LIMIT: int := 60
  const DEFAULT_WINDOW_MS: int := 60_000

  datatype HitInfo = HitInfo(count: int, expires: int)

  /** The one outcome of a request: `next()` is called, or a 429 with `{error: 'Too many requests'}` is sent. */
  datatype Outcome = CallNext | Respond(status: int, error: string)

  const TOO_MANY_REQUESTS: Outcome := Respond(429, "Too many requests")

  /**
   * The entry for an IP after one request at `now`: a missing entry starts at count 0 with
   * its window ending at `now + windowMs`; an entry whose window ended before `now` restarts
   * the same way; then the count goes up by one.
   */
  function Counted(entry: Option<HitInfo>, now: int, windowMs: int): HitInfo
  {
    var e := entry.GetOr(HitInfo(0, now + windowMs));
    var current := if now > e.expires then HitInfo(0, now + windowMs) else e;
    current.(count := current.count + 1)
  }

  function Lookup(hits: map<string, HitInfo>, ip: string): Option<HitInfo>
  {
    if ip in hits then Some(hits[ip]) else None
  }

  /** The decision for a count: pass while it is at most `limit`. */
  function Decide(count: int, limit: int): Outcome
  {
    if count > limit then TOO_MANY_REQUESTS else CallNext
  }

  /** One request from `ip` at `now`: the new map and the outcome. */
  function Step(hits: map<string, HitInfo>, ip: string, now: int, limit: int, windowMs: int)
    : (r: (map<string, HitInfo>, Outcome))
    ensures ip in r.0
    ensures r.1 == CallNext <==> r.0[ip].count <= limit
    ensures r.0.Keys == hits.Keys + {ip}
  {
    var entry := Counted(Lookup(hits, ip), now, windowMs);
    (hits[ip := entry], Decide(entry.count, limit))
  }

  /**
   * A request counts by exactly one on top of the (possibly restarted) entry, touches no
   * other IP, and is blocked exactly when the new count exceeds the limit.
   */
  lemma StepEffect(hits: map<string, HitInfo>, ip: string, now: int, limit: int, windowMs: int)
    ensures var (after, outcome) := Step(hits, ip, now, limit, windowMs);
      && ip in after
      && (ip !in hits || now > hits[ip].expires ==> after[ip] == HitInfo(1, now + windowMs))
      && (ip in hits && now <= hits[ip].expires ==> after[ip] == hits[ip].(count := hits[ip].count + 1))
      && (forall other | other != ip :: (other in after <==> other in hits) && (other in hits ==> after[other] == hits[other]))
      && (outcome == CallNext <==> after[ip].count <= limit)
      && (outcome != CallNext ==> outcome == Respond(429, "Too many requests"))
  {
  }

  /** Outcomes of successive requests from one IP at the given times, starting from `hits`. */
  function Burst(hits: map<string, HitInfo>, ip: string, times: seq<int>, limit: int, windowMs: int)
    : (outcomes: seq<Outcome>)
    ensures |outcomes| == |times|
    decreases |times|
  {
    if |times| == 0 then []
    else
      var (after, outcome) := Step(hits, ip, times[0], limit, windowMs);
      [outcome] + Burst(after, ip, times[1..], limit, windowMs)
  }

  /**
   * Within one window (every request at or before the entry's expiry, which counts as inside),
   * requests from an IP whose count is `c` pass exactly while `c` plus their rank stays within `limit`.
   */
  lemma {:induction false} BurstInWindow(hits: map<string, HitInfo>, ip: string, times: seq<int>, limit: int, windowMs: int)
    requires ip in hits
    requires forall j | 0 <= j < |times| :: times[j] <= hits[ip].expires
    ensures forall j | 0 <= j < |times| ::
      Burst(hits, ip, times, limit, windowMs)[j] == Decide(hits[ip].count + j + 1, limit)
    decreases |times|
  {
    if |times| > 0 {
      var (after, outcome) := Step(hits, ip, times[0], limit, windowMs);
      assert after[ip] == hits[ip].(count := hits[ip].count + 1);
      assert forall j | 0 <= j < |times[1..]| :: times[1..][j] == times[j + 1];
      BurstInWindow(after, ip, times[1..], limit, windowMs);
      forall j | 0 <= j < |times|
        ensures Burst(hits, ip, times, limit, windowMs)[j] == Decide(hits[ip].count + j + 1, limit)
      {
        if j > 0 {
          assert Burst(hits, ip, times, limit, windowMs)[j] == Burst(after, ip, times[1..], limit, windowMs)[j - 1];
        }
      }
    }
  }

  /**
   * For an IP seen for the first time at `times[0]`, as long as every request stays within
   * `windowMs` of that first one, the first `limit` requests call `next` and every later one gets 429.
   */
  lemma FirstLimitPass(hits: map<string, HitInfo>, ip: string, times: seq<int>, limit: int, windowMs: int)
    requires ip !in hits
    requires |times| > 0
    requires windowMs >= 0
    requires forall j | 0 <= j < |times| :: times[j] <= times[0] + windowMs
    ensures forall j | 0 <= j < |times| ::
      Burst(hits, ip, times, limit, windowMs)[j] == if j < limit then CallNext else TOO_MANY_REQUESTS
  {
    var (after, first) := Step(hits, ip, times[0], limit, windowMs);
    assert after[ip] == HitInfo(1, times[0] + windowMs);
    assert forall j | 0 <= j < |times[1..]| :: times[1..][j] == times[j + 1];
    BurstInWindow(after, ip, times[1..], limit, windowMs);
    forall j | 0 <= j < |times|
      ensures Burst(hits, ip, times, limit, windowMs)[j] == if j < limit then CallNext else TOO_MANY_REQUESTS
    {
      if j > 0 {
        assert Burst(hits, ip, times, limit, windowMs)[j] == Burst(after, ip, times[1..], limit, windowMs)[j - 1];
      }
    }
  }

  /** A request after the entry's window has ended restarts the count and passes whenever `limit` is at least 1. */
  lemma ResetAfterWindow(hits: map<string, HitInfo>, ip: string, now: int, limit: int, windowMs: int)
    requires ip in hits && now > hits[ip].expires
    requires limit >= 1
    ensures Step(hits, ip, now, limit, windowMs).0[ip] == HitInfo(1, now + windowMs)
    ensures Step(hits, ip, now, limit, windowMs).1 == CallNext
  {
  }

  /** The handler `rateLimiter(limit, windowMs)` returns, with the `hits` map it closes over. */
  class Limiter {
    const limit: int
    const windowMs: int
    var hits: map<string, HitInfo>

    /** `rateLimiter(limit, windowMs)`: no IP has been seen. */
    constructor (limit: int, windowMs: int)
      ensures this.limit == limit && this.windowMs == windowMs
      ensures hits == map[]
    {
      this.limit := limit;
      this.windowMs := windowMs;
      hits := map[];
    }

    /** `rateLimiter()` with its default arguments: 60 requests per 60 000 ms. */
    constructor Default()
      ensures limit == DEFAULT_LIMIT && windowMs == DEFAULT_WINDOW_MS
      ensures hits == map[]
    {
      limit := DEFAULT_LIMIT;
      windowMs := DEFAULT_WINDOW_MS;
      hits := map[];
    }

    /**
     * The per-request handler for a request from `ip` at time `now`: counts the request
     * against the IP's (possibly restarted) window and gives exactly one outcome.
     */
    method Handle(ip: string, now: int) returns (outcome: Outcome)
      modifies this
      ensures (hits, outcome) == Step(old(hits), ip, now, limit, windowMs)
      ensures hits.Keys == old(hits).Keys + {ip}
      ensures forall other | other in old(hits) && other != ip :: hits[other] == old(hits)[other]
      ensures outcome == CallNext <==> hits[ip].count <= limit
    {
      var entry := if ip in hits then hits[ip] else HitInfo(0, now + windowMs);
      if now > entry.expires {
        entry := entry.(count := 0);
        entry := entry.(expires := now + windowMs);
      }
      entry := entry.(count := entry.count + 1);
      hits := hits[ip := entry];
      if entry.count > limit {
        outcome := TOO_MANY_REQUESTS;
        return;
      }
      outcome := CallNext;
    }
  }

  /** The test "allows requests under the limit": limit 2, two requests, both call `next`. */
  lemma AllowsUnderLimit(t: int)
    ensures Burst(map[], "1.2.3.4", [t, t], 2, 1000) == [CallNext, CallNext]
  {
    FirstLimitPass(map[], "1.2.3.4", [t, t], 2, 1000);
  }

  /** The test "blocks requests over the limit": limit 1, the second request gets 429 with the error body. */
  lemma BlocksOverLimit(t: int)
    ensures Burst(map[], "1.2.3.4", [t, t], 1, 1000) == [CallNext, Respond(429, "Too many requests")]
  {
    FirstLimitPass(map[], "1.2.3.4", [t, t], 1, 1000);
  }

  /** The test "resets counts after window": limit 1, a second request 1001 ms later passes again. */
  lemma ResetsAfterWindow(t: int)
    ensures Burst(map[], "1.2.3.4", [t, t + 1001], 1, 1000) == [CallNext, CallNext]
  {
  }
}
