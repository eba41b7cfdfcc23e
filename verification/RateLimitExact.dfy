/** When the idle sweep is invisible: exactly when a bucket is forgotten no sooner than it has refilled after the last
    request that could still draw on it.  For a limiter as configured that means a window of at least one nanosecond per
    request: a shorter one makes the constructor fall back to one request a second, which refills slower than the sweep
    forgets. */
module RateLimitExact {
  import opened Common
  import opened RateLimit
  import opened RateLimitRuns
  import opened RateLimitBounds

  /** The time `n` intervals take, and the credit `n` requests cost. */
  function Beat(c: Config, n: nat): int {
    if n == 0 then 0 else Beat(c, n - 1) + c.interval
  }

  lemma {:induction false} BeatMeaning(c: Config, n: nat)
    ensures Beat(c, n) == n * c.interval
  {
    if n > 0 {
      BeatMeaning(c, n - 1);
      assert n * c.interval == (n - 1) * c.interval + c.interval;
    }
  }

  lemma BeatWithin(c: Config, n: nat)
    requires ValidConfig(c) && n <= c.burst
    ensures 0 <= Beat(c, n) <= c.cap
    ensures n == c.burst ==> Beat(c, n) == c.cap
  {
    BeatMeaning(c, n);
    MulMono(0, n, c.interval);
    MulMono(n, c.burst, c.interval);
  }

  /** One request, answered at once. */
  function Request(r: nat, key: string, t: int): seq<Step> { [Get(r, key, t), Allow(r, t)] }

  /** `pre` and then `n` requests of a client, each answered at once. */
  function Burst(pre: seq<Step>, r: nat, n: nat, key: string, t: int): (all: seq<Step>)
    ensures pre <= all
  {
    if n == 0 then pre else Burst(pre, r, n - 1, key, t) + Request(r + n - 1, key, t)
  }

  /** No request in flight, the clock at `t` or before, every request so far prompt. */
  ghost predicate Quiet(steps: seq<Step>, slack: int, t: int) {
    Legal(steps) && Open(steps) == map[] && Now(steps) <= t && Prompt(steps, slack) && slack >= 0
  }

  lemma RequestQuiet(slack: int, pre: seq<Step>, r: nat, key: string, t: int)
    requires Quiet(pre, slack, t)
    ensures Quiet(pre + Request(r, key, t), slack, t) && Now(pre + Request(r, key, t)) == t
    ensures Legal(pre + [Get(r, key, t)])
  {
    var mid, all := pre + [Get(r, key, t)], pre + Request(r, key, t);
    assert mid[..|pre|] == pre;
    assert all[..|all| - 1] == mid;
    assert all[|all| - 1] == Allow(r, t);
    assert mid[|mid| - 1] == Get(r, key, t);
    assert Open(mid) == map[r := t];
    assert Open(all) == map[];
  }

  /** What the next request of a client at time `t` would find. */
  function Finds(c: Config, sweep: bool, pre: seq<Step>, key: string, t: int): int {
    KeyLevel(c, Run(c, sweep, pre).(now := t), key)
  }

  /** The state after one more request, answered at once. */
  function Served(c: Config, sweep: bool, s: State, r: nat, key: string): State {
    Act(c, sweep, Act(c, sweep, s, Get(r, key, s.now)), Allow(r, s.now))
  }

  lemma RequestServed(c: Config, sweep: bool, slack: int, pre: seq<Step>, r: nat, key: string, t: int)
    requires ValidConfig(c) && Quiet(pre, slack, t)
    ensures WellFormed(c, Run(c, sweep, pre).(now := t))
    ensures Run(c, sweep, pre + Request(r, key, t)) == Served(c, sweep, Run(c, sweep, pre).(now := t), r, key)
  {
    var mid, all := pre + [Get(r, key, t)], pre + Request(r, key, t);
    assert mid[..|pre|] == pre && all[..|all| - 1] == mid;
    assert mid[|mid| - 1] == Get(r, key, t) && all[|all| - 1] == Allow(r, t);
    RunFacts(c, sweep, pre);
  }

  lemma ServedMeaning(c: Config, sweep: bool, s: State, r: nat, key: string)
    requires ValidConfig(c) && WellFormed(c, s)
    ensures
      var t := Served(c, sweep, s, r, key);
      var ok := KeyLevel(c, s, key) >= c.interval;
      && t.now == s.now
      && t.log == s.log + [Answer(key, s.now, ok)]
      && KeyLevel(c, t, key) == KeyLevel(c, s, key) - (if ok then c.interval else 0)
      && t.limiters == Act(c, sweep, s, Get(r, key, s.now)).limiters
  {
    var step := Get(r, key, s.now);
    ActWellFormed(c, sweep, s, step);
    GetKnows(c, sweep, s, step);
    AllowAsks(c, sweep, Act(c, sweep, s, step), Allow(r, s.now));
  }

  lemma RequestAnswered(c: Config, sweep: bool, slack: int, pre: seq<Step>, r: nat, key: string, t: int)
    requires ValidConfig(c) && Quiet(pre, slack, t) && Finds(c, sweep, pre, key, t) >= c.interval
    ensures
      var all := pre + Request(r, key, t);
      && Admitted(Run(c, sweep, all).log, key) == Admitted(Run(c, sweep, pre).log, key) + 1
      && Finds(c, sweep, all, key, t) == Finds(c, sweep, pre, key, t) - c.interval
      && Run(c, sweep, all).limiters.Keys <= Run(c, sweep, pre).limiters.Keys + {key}
  {
    RequestServed(c, sweep, slack, pre, r, key, t);
    var s := Run(c, sweep, pre).(now := t);
    ServedMeaning(c, sweep, s, r, key);
    var after := Run(c, sweep, pre + Request(r, key, t));
    assert after.(now := t) == after;
    AdmittedSnoc(s.log, Answer(key, t, true), key);
  }

  lemma AdmittedSnoc(log: seq<Answer>, x: Answer, key: string)
    ensures Admitted(log + [x], key) == Admitted(log, key) + (if x.key == key && x.ok then 1 else 0)
  {
    assert (log + [x])[..|log|] == log;
  }

  lemma BurstStep(c: Config, sweep: bool, slack: int, pre: seq<Step>, r: nat, key: string, t: int)
    requires ValidConfig(c) && Quiet(pre, slack, t) && Finds(c, sweep, pre, key, t) >= c.interval
    ensures
      var all := pre + Request(r, key, t);
      && Quiet(all, slack, t)
      && Admitted(Run(c, sweep, all).log, key) == Admitted(Run(c, sweep, pre).log, key) + 1
      && Finds(c, sweep, all, key, t) == Finds(c, sweep, pre, key, t) - c.interval
      && Run(c, sweep, all).limiters.Keys <= Run(c, sweep, pre).limiters.Keys + {key}
  {
    RequestQuiet(slack, pre, r, key, t);
    RequestAnswered(c, sweep, slack, pre, r, key, t);
  }

  lemma {:induction false} BurstAdmitted(c: Config, sweep: bool, slack: int, pre: seq<Step>, r: nat, n: nat, key: string, t: int)
    requires ValidConfig(c) && Quiet(pre, slack, t) && Finds(c, sweep, pre, key, t) >= Beat(c, n)
    ensures
      var all := Burst(pre, r, n, key, t);
      && Quiet(all, slack, t)
      && Admitted(Run(c, sweep, all).log, key) == Admitted(Run(c, sweep, pre).log, key) + n
      && Finds(c, sweep, all, key, t) == Finds(c, sweep, pre, key, t) - Beat(c, n)
      && Run(c, sweep, all).limiters.Keys <= Run(c, sweep, pre).limiters.Keys + {key}
  {
    if n > 0 {
      BurstAdmitted(c, sweep, slack, pre, r, n - 1, key, t);
      BurstStep(c, sweep, slack, Burst(pre, r, n - 1, key, t), r + n - 1, key, t);
    }
  }

  /** A client with a full bucket spends it all at once. */
  lemma FullBurst(c: Config, sweep: bool, slack: int, pre: seq<Step>, r: nat, key: string, t: int)
    requires ValidConfig(c) && Quiet(pre, slack, t) && Finds(c, sweep, pre, key, t) == c.cap
    ensures
      var all := Burst(pre, r, c.burst, key, t);
      && Quiet(all, slack, t)
      && Admitted(Run(c, sweep, all).log, key) == Admitted(Run(c, sweep, pre).log, key) + c.burst
      && Finds(c, sweep, all, key, t) == 0
      && Run(c, sweep, all).limiters.Keys <= Run(c, sweep, pre).limiters.Keys + {key}
  {
    BeatMeaning(c, c.burst);
    BurstAdmitted(c, sweep, slack, pre, r, c.burst, key, t);
  }

  // ---------------------------------------------------------------- a late volley

  /** `n` requests of one client look its bucket up at time 0. */
  function Looks(n: nat): seq<Step> {
    if n == 0 then [] else Looks(n - 1) + [Get(n - 1, "a", 0)]
  }

  /** Then the first `k` of them ask it, at time `d`. */
  function Asks(n: nat, k: nat, d: int): seq<Step> {
    if k == 0 then Looks(n) else Asks(n, k - 1, d) + [Allow(k - 1, d)]
  }

  /** A bucketful of requests, looked up at time 0 and asked at time `d`. */
  function Volley(c: Config, d: int): seq<Step>
    requires c.burst >= 0
  {
    Asks(c.burst, c.burst, d)
  }

  /** The requests in flight are `k` to `n - 1`. */
  ghost predicate Waiting(steps: seq<Step>, k: nat, n: nat) {
    forall r: nat :: (r in Open(steps) <==> k <= r < n) && (r in Open(steps) ==> Open(steps)[r] == 0)
  }

  ghost predicate InVolley(steps: seq<Step>, k: nat, n: nat, slack: int, now: int) {
    Legal(steps) && Now(steps) == now && Waiting(steps, k, n) && Prompt(steps, slack)
  }

  lemma LookLegal(steps: seq<Step>, n: nat, slack: int)
    requires InVolley(steps, 0, n, slack, 0)
    ensures InVolley(steps + [Get(n, "a", 0)], 0, n + 1, slack, 0)
  {
    assert (steps + [Get(n, "a", 0)])[..|steps|] == steps;
  }

  lemma AskLegal(steps: seq<Step>, k: nat, n: nat, slack: int, now: int, d: int)
    requires InVolley(steps, k, n, slack, now) && k < n && now <= d <= slack
    ensures InVolley(steps + [Allow(k, d)], k + 1, n, slack, d)
  {
    assert (steps + [Allow(k, d)])[..|steps|] == steps;
  }

  lemma {:induction false} LooksLegal(n: nat, slack: int)
    ensures InVolley(Looks(n), 0, n, slack, 0)
  {
    if n > 0 {
      LooksLegal(n - 1, slack);
      LookLegal(Looks(n - 1), n - 1, slack);
    }
  }

  /** When the last of `k` asks came. */
  function Last(k: nat, d: int): int { if k == 0 then 0 else d }

  lemma {:induction false} AsksLegal(n: nat, k: nat, d: int, slack: int)
    requires k <= n && 0 <= d <= slack
    ensures InVolley(Asks(n, k, d), k, n, slack, Last(k, d))
  {
    if k == 0 {
      LooksLegal(n, slack);
    } else {
      AsksLegal(n, k - 1, d, slack);
      AskLegal(Asks(n, k - 1, d), k - 1, n, slack, Last(k - 1, d), d);
    }
  }

  /** One bucket, last hit at time 0, held by the requests `k` to `n - 1`; those before were admitted. */
  ghost predicate Volleying(s: State, bucket: Bucket, k: nat, n: nat, now: int) {
    && s.limiters == map["a" := Entry(0, 0)] && s.heap == [Slot("a", bucket)] && s.now == now
    && (forall r: nat :: k <= r < n ==> r in s.pending && s.pending[r] == Pending("a", 0, 0))
    && Admitted(s.log, "a") == k
  }

  lemma LookNext(c: Config, sweep: bool, steps: seq<Step>, n: nat)
    requires ValidConfig(c)
    requires if n == 0 then Run(c, sweep, steps) == INIT else Volleying(Run(c, sweep, steps), Fresh(c, 0), 0, n, 0)
    ensures Volleying(Run(c, sweep, steps + [Get(n, "a", 0)]), Fresh(c, 0), 0, n + 1, 0)
  {
    assert (steps + [Get(n, "a", 0)])[..|steps|] == steps;
  }

  lemma {:induction false} LooksRun(c: Config, sweep: bool, n: nat)
    requires ValidConfig(c) && n > 0
    ensures Volleying(Run(c, sweep, Looks(n)), Fresh(c, 0), 0, n, 0)
  {
    if n > 1 { LooksRun(c, sweep, n - 1); }
    LookNext(c, sweep, Looks(n - 1), n - 1);
  }

  lemma AskNext(c: Config, sweep: bool, steps: seq<Step>, bucket: Bucket, k: nat, n: nat, now: int, d: int)
    requires ValidConfig(c) && k < n && Level(c, bucket, d) >= c.interval
    requires Volleying(Run(c, sweep, steps), bucket, k, n, now)
    ensures Volleying(Run(c, sweep, steps + [Allow(k, d)]), Bucket(Level(c, bucket, d) - c.interval, d), k + 1, n, d)
  {
    assert (steps + [Allow(k, d)])[..|steps|] == steps;
    AdmittedSnoc(Run(c, sweep, steps).log, Answer("a", d, true), "a");
  }

  /** What the bucket holds after `k` asks at time `d`. */
  function Left(c: Config, k: nat, d: int): Bucket {
    if k == 0 then Fresh(c, 0) else Bucket(c.cap - Beat(c, k), d)
  }

  lemma LeftNext(c: Config, k: nat, d: int)
    requires ValidConfig(c) && k < c.burst && d >= 0
    ensures Level(c, Left(c, k, d), d) >= c.interval
    ensures Left(c, k + 1, d) == Bucket(Level(c, Left(c, k, d), d) - c.interval, d)
  {
    BeatWithin(c, k);
    BeatWithin(c, k + 1);
  }

  /** `k` requests of `n` have asked, and the rest wait. */
  ghost predicate Asked(c: Config, sweep: bool, steps: seq<Step>, k: nat, n: nat, d: int) {
    Volleying(Run(c, sweep, steps), Left(c, k, d), k, n, Last(k, d))
  }

  lemma AskedNext(c: Config, sweep: bool, steps: seq<Step>, k: nat, d: int)
    requires ValidConfig(c) && k < c.burst && d >= 0 && Asked(c, sweep, steps, k, c.burst, d)
    ensures Asked(c, sweep, steps + [Allow(k, d)], k + 1, c.burst, d)
  {
    LeftNext(c, k, d);
    AskNext(c, sweep, steps, Left(c, k, d), k, c.burst, Last(k, d), d);
  }

  lemma {:induction false} AsksRun(c: Config, sweep: bool, k: nat, d: int)
    requires ValidConfig(c) && k <= c.burst && d >= 0
    ensures Asked(c, sweep, Asks(c.burst, k, d), k, c.burst, d)
  {
    if k == 0 {
      LooksRun(c, sweep, c.burst);
    } else {
      AsksRun(c, sweep, k - 1, d);
      AskedNext(c, sweep, Asks(c.burst, k - 1, d), k - 1, d);
    }
  }

  lemma EmptiedFinds(c: Config, sweep: bool, steps: seq<Step>, bucket: Bucket, k: nat, n: nat, d: int)
    requires ValidConfig(c) && Volleying(Run(c, sweep, steps), bucket, k, n, d) && bucket == Bucket(0, d)
    ensures Finds(c, sweep, steps, "a", d) == 0
  {
  }

  /** The volley empties the bucket at time `d`, although the client was last seen at time 0. */
  lemma VolleyEmpties(c: Config, sweep: bool, d: int, slack: int)
    requires ValidConfig(c) && 0 <= d <= slack
    ensures Quiet(Volley(c, d), slack, d)
    ensures Run(c, sweep, Volley(c, d)).now == d && Run(c, sweep, Volley(c, d)).limiters == map["a" := Entry(0, 0)]
    ensures Admitted(Run(c, sweep, Volley(c, d)).log, "a") == c.burst
    ensures Finds(c, sweep, Volley(c, d), "a", d) == 0
  {
    AsksLegal(c.burst, c.burst, d, slack);
    AsksRun(c, sweep, c.burst, d);
    BeatWithin(c, c.burst);
    EmptiedFinds(c, sweep, Volley(c, d), Left(c, c.burst, d), c.burst, c.burst, d);
  }

  // ---------------------------------------------------------------- when the sweep is invisible

  lemma OtherArrives(c: Config, slack: int, pre: seq<Step>, r: nat, t: int)
    requires ValidConfig(c) && Quiet(pre, slack, t) && c.ttl < t
    requires Run(c, true, pre).limiters == map["a" := Entry(0, 0)]
    ensures
      var all := pre + Request(r, "b", t);
      && Quiet(all, slack, t)
      && Admitted(Run(c, true, all).log, "a") == Admitted(Run(c, true, pre).log, "a")
      && Finds(c, true, all, "a", t) == c.cap
  {
    RequestQuiet(slack, pre, r, "b", t);
    RunFacts(c, true, pre);
    RequestServed(c, true, slack, pre, r, "b", t);
    var s := Run(c, true, pre).(now := t);
    ServedMeaning(c, true, s, r, "b");
    GetSpares(c, true, s, Get(r, "b", t), "a");
    AdmittedSnoc(s.log, Answer("b", t, KeyLevel(c, s, "b") >= c.interval), "a");
  }

  /** Another client arrives just after the idle time, and the first one is forgotten. */
  lemma FirstForgotten(c: Config, d: int, slack: int) returns (pre: seq<Step>)
    requires ValidConfig(c) && 0 <= d <= slack && d <= c.ttl + 1
    ensures Volley(c, d) <= pre && Quiet(pre, slack, c.ttl + 1)
    ensures Admitted(Run(c, true, pre).log, "a") == c.burst && Finds(c, true, pre, "a", c.ttl + 1) == c.cap
  {
    VolleyEmpties(c, true, d, slack);
    OtherArrives(c, slack, Volley(c, d), c.burst, c.ttl + 1);
    pre := Volley(c, d) + Request(c.burst, "b", c.ttl + 1);
  }

  /** Then the first comes back and is served in full. */
  lemma SweepForgets(c: Config, d: int, slack: int) returns (all: seq<Step>)
    requires ValidConfig(c) && 0 <= d <= slack && d <= c.ttl + 1
    ensures Volley(c, d) <= all && Quiet(all, slack, c.ttl + 1)
    ensures Admitted(Run(c, true, all).log, "a") == 2 * c.burst
  {
    var pre := FirstForgotten(c, d, slack);
    FullBurst(c, true, slack, pre, c.burst + 1, "a", c.ttl + 1);
    all := Burst(pre, c.burst + 1, c.burst, "a", c.ttl + 1);
  }

  /** Whoever does not delete cannot serve that much. */
  lemma KeepRemembers(c: Config, d: int, slack: int, all: seq<Step>)
    requires ValidConfig(c) && 0 <= d <= slack && c.ttl + 1 - d < c.cap
    requires Volley(c, d) <= all && Quiet(all, slack, c.ttl + 1)
    ensures Admitted(Run(c, false, all).log, "a") < 2 * c.burst
  {
    VolleyEmpties(c, false, d, slack);
    var first := Volley(c, d);
    var n := |first|;
    assert all[..n] == first && all[..|all|] == all;
    SpentSince(c, all, n, |all|, "a");
    RunFacts(c, false, first);
    RunFacts(c, false, all);
    LevelIsCredit(c, Run(c, false, all), "a");
    SpentIsAdmitted(c, Run(c, false, first).log, "a");
    SpentIsAdmitted(c, Run(c, false, all).log, "a");
    FewerThanTwice(c, Admitted(Run(c, false, all).log, "a"), c.ttl + 1 - d);
  }

  lemma FewerThanTwice(c: Config, y: int, gap: int)
    requires ValidConfig(c) && gap < c.cap && y * c.interval <= c.burst * c.interval + gap
    ensures y < 2 * c.burst
  {
    assert 2 * c.burst * c.interval == 2 * (c.burst * c.interval);
    if y >= 2 * c.burst { MulMono(2 * c.burst, y, c.interval); }
  }

  ghost predicate Invisible(c: Config, slack: int) {
    forall steps :: Legal(steps) && Prompt(steps, slack) ==> Run(c, true, steps).log == Run(c, false, steps).log
  }

  /** For any burst, interval and idle time, and requests that may ask as late as `slack` after their lookup: the sweep
      changes no answer in any run if and only if a bucket emptied that late has refilled when it is forgotten. */
  lemma SlackExactly(c: Config, slack: int)
    requires ValidConfig(c) && slack >= 0
    ensures Invisible(c, slack) <==> slack + c.cap <= c.ttl + 1
  {
    if slack + c.cap <= c.ttl + 1 {
      forall steps | Legal(steps) && Prompt(steps, slack) ensures Run(c, true, steps).log == Run(c, false, steps).log {
        RunsSimilar(c, slack, steps);
      }
    } else {
      var d := Min(slack, c.ttl + 1);
      var all := SweepForgets(c, d, slack);
      KeepRemembers(c, d, slack, all);
      assert !Invisible(c, slack);
    }
  }

  /** As configured, with requests that ask within the window of their lookup: if and only if the window has at least one
      nanosecond per request. */
  lemma SweepInvisibleExactly(requests: int, window: int)
    ensures
      var r, w := if requests <= 0 then 10 else requests, if window <= 0 then 60_000_000_000 else window;
      Invisible(Configure(requests, window), w) <==> r <= w
  {
    var c, w := Configure(requests, window), EffectiveWindow(window);
    ConfigureMeaning(requests, window);
    SlackExactly(c, w);
    if EffectiveRequests(requests) > w {
      assert c.cap >= (2 * w + 2) by { MulMono(w + 1, c.burst, c.interval); MulMono(SECOND, c.interval, w + 1); }
    }
  }

  /** Ten a minute, whose buckets fill in exactly that minute: the sweep stays invisible while requests ask at most a
      minute and a nanosecond after their lookup, and no longer. */
  lemma LateRequestVisible(late: int)
    requires late >= 0
    ensures Invisible(Configure(10, MINUTE), late) <==> late <= MINUTE + 1
  {
    ConfigureMeaning(10, MINUTE);
    SlackExactly(Configure(10, MINUTE), late);
  }

  // ---------------------------------------------------------------- the rate bound is attained

  /** A burst, then `n` requests one interval apart. */
  function Trickle(c: Config, n: nat): seq<Step>
    requires c.burst >= 0
  {
    if n == 0 then Volley(c, 0) else Trickle(c, n - 1) + Request(c.burst + n - 1, "a", Beat(c, n))
  }

  lemma FindsLater(c: Config, sweep: bool, pre: seq<Step>, key: string, t: int, later: int)
    requires ValidConfig(c) && Quiet(pre, 0, t) && t <= later && Finds(c, sweep, pre, key, t) < c.cap
    ensures Finds(c, sweep, pre, key, later) == Min(c.cap, Finds(c, sweep, pre, key, t) + (later - t))
  {
    RunFacts(c, sweep, pre);
    var s := Run(c, sweep, pre);
    assert BucketOf(s.(now := t), key) == BucketOf(s, key) == BucketOf(s.(now := later), key);
  }

  /** A burst and `n` more requests were admitted, and the client has nothing left. */
  ghost predicate Trickled(c: Config, steps: seq<Step>, n: nat) {
    && Quiet(steps, 0, Beat(c, n))
    && Admitted(Run(c, true, steps).log, "a") == c.burst + n
    && Finds(c, true, steps, "a", Beat(c, n)) == 0
  }

  lemma TrickleStarts(c: Config)
    requires ValidConfig(c)
    ensures Trickled(c, Volley(c, 0), 0)
  {
    VolleyEmpties(c, true, 0, 0);
  }

  lemma TrickleNext(c: Config, pre: seq<Step>, r: nat, n: nat)
    requires ValidConfig(c) && Trickled(c, pre, n)
    ensures Trickled(c, pre + Request(r, "a", Beat(c, n + 1)), n + 1)
  {
    FindsLater(c, true, pre, "a", Beat(c, n), Beat(c, n + 1));
    BurstStep(c, true, 0, pre, r, "a", Beat(c, n + 1));
  }

  lemma {:induction false} TrickleAdmitted(c: Config, n: nat)
    requires ValidConfig(c)
    ensures Trickled(c, Trickle(c, n), n)
  {
    if n == 0 {
      TrickleStarts(c);
    } else {
      TrickleAdmitted(c, n - 1);
      TrickleNext(c, Trickle(c, n - 1), c.burst + n - 1, n - 1);
    }
  }

  /** The bound is attained for every multiple of the interval: `requests + n` within `n` times `window / requests`. */
  lemma RateBoundAttained(requests: int, window: int, n: nat)
    ensures
      var r, w := if requests <= 0 then 10 else requests, if window <= 0 then 60_000_000_000 else window;
      var c := Configure(requests, window);
      && c.burst == r && Legal(Trickle(c, n)) && Prompt(Trickle(c, n), 0)
      && Now(Trickle(c, n)) <= n * (if r <= w then w / r else SECOND)
      && Admitted(Run(c, true, Trickle(c, n)).log, "a") == r + n
  {
    ConfigureMeaning(requests, window);
    IntervalFits(EffectiveRequests(requests), EffectiveWindow(window));
    TrickleAdmitted(Configure(requests, window), n);
    BeatMeaning(Configure(requests, window), n);
  }

  /** Ten requests a minute lets twenty through in one minute. */
  lemma TwentyInAMinute()
    ensures
      var c := Configure(10, MINUTE);
      && c.burst == 10 && Legal(Trickle(c, 10)) && Now(Trickle(c, 10)) <= MINUTE
      && Admitted(Run(c, true, Trickle(c, 10)).log, "a") == 20
  {
    RateBoundAttained(10, MINUTE, 10);
    assert Configure(10, MINUTE).interval == 6 * SECOND;
  }
}
