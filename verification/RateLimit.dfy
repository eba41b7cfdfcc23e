/** The per-client token-bucket limiter of `middleware/rate_limit.go`.

    Time is in nanoseconds since the process started.  A bucket of the rate library is an integer credit in
    nanoseconds: a full bucket holds `burst * interval`, a request costs `interval`, one nanosecond of waiting earns
    one, refill is computed when the bucket is used, and a refused request leaves the bucket as it was. */
module RateLimit {
  import opened Common

  const MINUTE: int := 60 * SECOND
  const DEFAULT_REQUESTS: int := 10

  // ---------------------------------------------------------------- configuration

  datatype Config = Config(burst: int, interval: int, cap: int, ttl: int)

  predicate ValidConfig(c: Config) {
    c.burst > 0 && c.interval > 0 && c.cap == c.burst * c.interval && c.interval <= c.cap && c.ttl > 0
  }

  function EffectiveRequests(requests: int): int {
    if requests <= 0 then DEFAULT_REQUESTS else requests
  }

  function EffectiveWindow(window: int): int {
    if window <= 0 then MINUTE else window
  }

  /** `NewTokenBucketRateLimiter`: the defaults, the per-request interval and the idle time-to-live. */
  function Configure(requests: int, window: int): Config {
    var r, w := EffectiveRequests(requests), EffectiveWindow(window);
    var interval := if w / r <= 0 then SECOND else w / r;
    Config(r, interval, r * interval, w * 2)
  }

  /** The limiter asked for is the one configured: as many requests at once, one more every `window / requests`, or every
      second when that is less than a nanosecond, and two windows of idle time; arguments that are not positive act as ten
      requests and a minute.  A full bucket never takes longer than the window to earn, exactly when the window has a
      nanosecond per request. */
  lemma ConfigureMeaning(requests: int, window: int)
    ensures ValidConfig(Configure(requests, window))
    ensures requests > 0 && window > 0 ==>
              var c := Configure(requests, window);
              && c.burst == requests && c.ttl == 2 * window
              && c.interval == (if requests <= window then window / requests else 1_000_000_000)
    ensures requests <= 0 ==> Configure(requests, window) == Configure(10, window)
    ensures window <= 0 ==> Configure(requests, window) == Configure(requests, 60_000_000_000)
    ensures Configure(requests, window).ttl == 2 * EffectiveWindow(window)
    ensures Configure(requests, window).cap <= EffectiveWindow(window) <==>
            EffectiveRequests(requests) <= EffectiveWindow(window)
    ensures EffectiveWindow(window) < EffectiveRequests(requests) ==> Configure(requests, window).interval == SECOND
  {
    IntervalFits(EffectiveRequests(requests), EffectiveWindow(window));
  }

  /** `requests` intervals fit the window if they are nanoseconds at all. */
  lemma IntervalFits(r: int, w: int)
    requires r > 0 && w > 0
    ensures w / r <= 0 <==> w < r
    ensures r <= w ==> w / r <= r * (w / r) <= w
    ensures SECOND <= r * SECOND && (w < r ==> w < r * SECOND)
  {
    var q := w / r;
    assert w == q * r + w % r && 0 <= w % r < r;
    if w < r {
      if q >= 1 { MulMono(1, q, r); }
    } else {
      if q <= 0 { MulMono(q, 0, r); }
      MulMono(1, r, q);
    }
  }

  lemma MulMono(a: int, b: int, c: int)
    requires a <= b && c >= 0
    ensures a * c <= b * c
  {
  }

  // ---------------------------------------------------------------- one bucket

  datatype Bucket = Bucket(credit: int, last: int)

  /** The credit a bucket would have if it were used at time `now`. */
  function Level(c: Config, b: Bucket, now: int): int {
    Min(c.cap, b.credit + Max(0, now - b.last))
  }

  function Fresh(c: Config, now: int): Bucket { Bucket(c.cap, now) }

  /** `Allow` of the rate library, asked for one event. */
  function Take(c: Config, b: Bucket, now: int): (bool, Bucket) {
    var level := Level(c, b, now);
    if level >= c.interval then (true, Bucket(level - c.interval, now)) else (false, b)
  }

  /** Asking a bucket costs one interval if it is admitted and nothing if it is refused: whenever the bucket is asked
      next, it holds what it would have held, less that. */
  lemma TakeMeaning(c: Config, b: Bucket, now: int, later: int)
    requires c.interval > 0 && b.last <= now <= later
    ensures
      var (ok, after) := Take(c, b, now);
      && (ok <==> Min(c.cap, b.credit + (now - b.last)) >= c.interval)
      && (ok ==> Level(c, after, later) == Min(c.cap, Level(c, b, now) - c.interval + (later - now)))
      && (!ok ==> Level(c, after, later) == Level(c, b, later))
  {
  }

  // ---------------------------------------------------------------- the map of buckets

  datatype Entry<L> = Entry(limiter: L, lastHit: int)

  function Swept<L>(m: map<string, Entry<L>>, now: int, ttl: int): map<string, Entry<L>> {
    map k | k in m && now - m[k].lastHit <= ttl :: m[k]
  }

  /** The map after `getLimiter`: a hit refreshes `lastHit`; a miss inserts and then sweeps the idle entries. */
  function AfterGet<L>(m: map<string, Entry<L>>, key: string, now: int, ttl: int, sweep: bool, created: L)
    : map<string, Entry<L>>
  {
    if key in m then m[key := m[key].(lastHit := now)]
    else
      var inserted := m[key := Entry(created, now)];
      if sweep then Swept(inserted, now, ttl) else inserted
  }

  // ---------------------------------------------------------------- the objects of the source

  /** A `rate.Limiter`. */
  class Limiter {
    const config: Config
    var credit: int
    var last: int

    constructor (config: Config, now: int)
      ensures this.config == config && Bucket(credit, last) == Fresh(config, now)
    {
      this.config, credit, last := config, config.cap, now;
    }

    method Allow(now: int) returns (ok: bool)
      modifies this
      ensures (ok, Bucket(credit, last)) == Take(config, old(Bucket(credit, last)), now)
    {
      var elapsed := if now < last then 0 else now - last;
      var level := if credit + elapsed > config.cap then config.cap else credit + elapsed;
      ok := level >= config.interval;
      if ok {
        credit, last := level - config.interval, now;
      }
    }
  }

  class TokenBucketRateLimiter {
    const config: Config
    var limiters: map<string, Entry<Limiter>>

    constructor (requests: int, window: int)
      ensures config == Configure(requests, window) && limiters == map[]
    {
      config := Configure(requests, window);
      limiters := map[];
    }

    /** `getLimiter`, under the mutex.  The map afterwards is the one the step machine below computes. */
    method GetLimiter(key: string, now: int) returns (limiter: Limiter)
      requires config.ttl >= 0
      modifies this
      ensures limiters == AfterGet(old(limiters), key, now, config.ttl, true, limiter)
      ensures key in limiters && limiters[key] == Entry(limiter, now)
      ensures key !in old(limiters) ==>
                fresh(limiter) && limiter.config == config &&
                Bucket(limiter.credit, limiter.last) == Fresh(config, now)
    {
      if key in limiters {
        limiter := limiters[key].limiter;
        limiters := limiters[key := limiters[key].(lastHit := now)];
        return;
      }
      limiter := new Limiter(config, now);
      limiters := limiters[key := Entry(limiter, now)];
      ghost var inserted := limiters;
      var todo := limiters.Keys;
      while todo != {}
        modifies `limiters
        invariant todo <= inserted.Keys && limiters.Keys <= inserted.Keys
        invariant forall k :: k in limiters ==> limiters[k] == inserted[k]
        invariant forall k :: k in inserted ==>
                    (k in limiters <==> k in todo || now - inserted[k].lastHit <= config.ttl)
        decreases |todo|
      {
        var k :| k in todo;
        todo := todo - {k};
        if now - limiters[k].lastHit > config.ttl {
          limiters := limiters - {k};
        }
      }
      assert limiters == Swept(inserted, now, config.ttl);
    }
  }
}
