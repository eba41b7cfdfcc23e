/** What the limiter promises its clients over whole runs. */
module RateLimitBounds {
  import opened Common
  import opened RateLimit
  import opened RateLimitRuns

  function Admitted(log: seq<Answer>, key: string): nat {
    if log == [] then 0
    else Admitted(log[..|log| - 1], key) + (if log[|log| - 1].key == key && log[|log| - 1].ok then 1 else 0)
  }

  /** The credit spent on a client's admitted requests. */
  function Spent(c: Config, log: seq<Answer>, key: string): int {
    if log == [] then 0
    else Spent(c, log[..|log| - 1], key) + (if log[|log| - 1].key == key && log[|log| - 1].ok then c.interval else 0)
  }

  lemma {:induction false} SpentIsAdmitted(c: Config, log: seq<Answer>, key: string)
    ensures Spent(c, log, key) == Admitted(log, key) * c.interval
  {
    if log != [] { SpentIsAdmitted(c, log[..|log| - 1], key); }
  }

  lemma SpentSnoc(c: Config, log: seq<Answer>, x: Answer, key: string)
    ensures Spent(c, log + [x], key) == Spent(c, log, key) + (if x.key == key && x.ok then c.interval else 0)
  {
    assert (log + [x])[..|log|] == log;
  }

  /** What a client's next request would find: a bucket the map does not hold is full. */
  function KeyLevel(c: Config, s: State, key: string): int {
    if key in s.limiters then Level(c, BucketOf(s, key), s.now) else c.cap
  }

  /** Without the sweep, every request in flight holds its client's bucket. */
  ghost predicate Current(s: State) {
    forall r :: r in s.pending ==>
      s.pending[r].key in s.limiters && s.limiters[s.pending[r].key].limiter == s.pending[r].limiter
  }

  // ---------------------------------------------------------------- rate bound

  lemma PaidByGet(c: Config, s: State, step: Step, key: string)
    requires ValidConfig(c) && WellFormed(c, s) && Current(s) && step.Get?
    requires WellFormed(c, Act(c, false, s, step))
    ensures
      var t := Act(c, false, s, step);
      Current(t) && t.log == s.log && KeyLevel(c, t, key) == KeyLevel(c, s, key)
  {
  }

  lemma PaidByAllow(c: Config, s: State, step: Step, key: string)
    requires ValidConfig(c) && WellFormed(c, s) && Current(s) && step.Allow?
    requires WellFormed(c, Act(c, false, s, step))
    ensures
      var t := Act(c, false, s, step);
      Current(t) && Spent(c, t.log, key) + KeyLevel(c, t, key) == Spent(c, s.log, key) + KeyLevel(c, s, key)
  {
    if step.req in s.pending {
      var asker := s.pending[step.req].key;
      AllowAsks(c, false, s, step);
      SpentSnoc(c, s.log, Answer(asker, s.now, Take(c, BucketOf(s, asker), s.now).0), key);
    }
  }

  lemma Earned(c: Config, s: State, at: int, key: string)
    requires ValidConfig(c) && WellFormed(c, s) && s.now <= at
    ensures WellFormed(c, s.(now := at))
    ensures KeyLevel(c, s.(now := at), key) <= Min(c.cap, KeyLevel(c, s, key) + (at - s.now))
  {
    assert key in s.limiters ==> BucketOf(s.(now := at), key) == BucketOf(s, key);
  }

  /** Admissions are paid for: what was spent plus what is left never exceeds what there was plus what time earned. */
  lemma PaidByStep(c: Config, s: State, step: Step, key: string)
    requires ValidConfig(c) && WellFormed(c, s) && Current(s) && s.now <= step.at
    requires WellFormed(c, s.(now := step.at)) && WellFormed(c, Act(c, false, s.(now := step.at), step))
    ensures
      var t := Act(c, false, s.(now := step.at), step);
      && Current(t)
      && Spent(c, t.log, key) + KeyLevel(c, t, key)
         <= Spent(c, s.log, key) + Min(c.cap, KeyLevel(c, s, key) + (step.at - s.now))
  {
    Earned(c, s, step.at, key);
    if step.Get? {
      PaidByGet(c, s.(now := step.at), step, key);
    } else {
      PaidByAllow(c, s.(now := step.at), step, key);
    }
  }

  lemma {:induction false} LegalPrefix(steps: seq<Step>, n: nat)
    requires Legal(steps) && n <= |steps|
    ensures Legal(steps[..n])
    decreases |steps|
  {
    if n < |steps| {
      LegalPrefix(steps[..|steps| - 1], n);
      assert steps[..|steps| - 1][..n] == steps[..n];
    } else {
      assert steps[..n] == steps;
    }
  }

  /** The state of the run after its first `n` steps. */
  function StateAt(c: Config, sweep: bool, steps: seq<Step>, n: nat): State
    requires n <= |steps|
  {
    Run(c, sweep, steps[..n])
  }

  lemma StateAtNext(c: Config, sweep: bool, steps: seq<Step>, n: nat)
    requires ValidConfig(c) && Legal(steps) && n < |steps|
    ensures StateAt(c, sweep, steps, 0) == INIT
    ensures WellFormed(c, StateAt(c, sweep, steps, n)) && StateAt(c, sweep, steps, n).now <= steps[n].at
    ensures StateAt(c, sweep, steps, n + 1) ==
            Act(c, sweep, StateAt(c, sweep, steps, n).(now := steps[n].at), steps[n])
  {
    LegalPrefix(steps, n + 1);
    assert steps[..n + 1][..n] == steps[..n];
    RunFacts(c, sweep, steps[..n]);
  }

  lemma NowAt(c: Config, steps: seq<Step>, n: nat)
    requires ValidConfig(c) && Legal(steps) && 0 < n <= |steps|
    ensures WellFormed(c, StateAt(c, false, steps, n)) && StateAt(c, false, steps, n).now == steps[n - 1].at
  {
    LegalPrefix(steps, n);
    RunFacts(c, false, steps[..n]);
  }

  lemma PaidAt(c: Config, steps: seq<Step>, n: nat, key: string)
    requires ValidConfig(c) && Legal(steps) && n < |steps| && Current(StateAt(c, false, steps, n))
    ensures
      var s, t := StateAt(c, false, steps, n), StateAt(c, false, steps, n + 1);
      && Current(t) && t.now == steps[n].at
      && Spent(c, t.log, key) + KeyLevel(c, t, key)
         <= Spent(c, s.log, key) + Min(c.cap, KeyLevel(c, s, key) + (steps[n].at - s.now))
  {
    StateAtNext(c, false, steps, n);
    var s := StateAt(c, false, steps, n);
    Earned(c, s, steps[n].at, key);
    ActWellFormed(c, false, s.(now := steps[n].at), steps[n]);
    PaidByStep(c, s, steps[n], key);
  }

  lemma {:induction false} AlwaysCurrent(c: Config, steps: seq<Step>, n: nat)
    requires ValidConfig(c) && Legal(steps) && n <= |steps|
    ensures Current(StateAt(c, false, steps, n))
  {
    if n > 0 {
      AlwaysCurrent(c, steps, n - 1);
      PaidAt(c, steps, n - 1, "");
    }
  }

  lemma {:induction false} SpentSince(c: Config, steps: seq<Step>, n: nat, m: nat, key: string)
    requires ValidConfig(c) && Legal(steps) && n <= m <= |steps|
    ensures StateAt(c, false, steps, n).now <= StateAt(c, false, steps, m).now
    ensures
      var s, t := StateAt(c, false, steps, n), StateAt(c, false, steps, m);
      Spent(c, t.log, key) + KeyLevel(c, t, key) <= Spent(c, s.log, key) + KeyLevel(c, s, key) + (t.now - s.now)
    decreases m
  {
    if n < m {
      SpentSince(c, steps, n, m - 1, key);
      AlwaysCurrent(c, steps, m - 1);
      StateAtNext(c, false, steps, m - 1);
      PaidAt(c, steps, m - 1, key);
    }
  }

  lemma CountOut(x: int, y: int, b: int, i: int, l: int)
    requires i > 0 && l >= 0 && y * i <= x * i + b * i + l
    ensures y - x <= b + l / i
  {
    var q := l / i;
    assert l < (q + 1) * i;
    assert (x + b + q + 1) * i == x * i + b * i + (q + 1) * i;
    if x + b + q + 1 <= y {
      MulMono(x + b + q + 1, y, i);
    }
  }

  lemma LevelIsCredit(c: Config, s: State, key: string)
    requires ValidConfig(c) && WellFormed(c, s)
    ensures 0 <= KeyLevel(c, s, key) <= c.cap
  {
  }

  /** Without the sweep, the requests of a client admitted by the steps `n` to `m` number at most
      `burst + L / interval`, where `L` is the time those steps span. */
  lemma KeepBound(c: Config, steps: seq<Step>, n: nat, m: nat, key: string)
    requires ValidConfig(c) && Legal(steps) && n < m <= |steps|
    ensures steps[n].at <= steps[m - 1].at
    ensures Admitted(StateAt(c, false, steps, m).log, key) - Admitted(StateAt(c, false, steps, n).log, key)
            <= c.burst + (steps[m - 1].at - steps[n].at) / c.interval
  {
    var s, t := StateAt(c, false, steps, n), StateAt(c, false, steps, m);
    AlwaysCurrent(c, steps, n);
    PaidAt(c, steps, n, key);
    SpentSince(c, steps, n + 1, m, key);
    NowAt(c, steps, m);
    LevelIsCredit(c, t, key);
    SpentIsAdmitted(c, s.log, key);
    SpentIsAdmitted(c, t.log, key);
    CountOut(Admitted(s.log, key), Admitted(t.log, key), c.burst, c.interval, steps[m - 1].at - steps[n].at);
  }

  /** The rate bound of a limiter for `requests` per `window`, sweeps included: at most `requests` and one more for each
      `window / requests` of the time the steps span. */
  lemma RateBound(requests: int, window: int, steps: seq<Step>, n: nat, m: nat, key: string)
    requires Legal(steps) && Prompt(steps, EffectiveWindow(window)) && n < m <= |steps|
    requires EffectiveRequests(requests) <= EffectiveWindow(window)
    ensures EffectiveWindow(window) / EffectiveRequests(requests) > 0
    ensures
      var r, w := if requests <= 0 then 10 else requests, if window <= 0 then 60_000_000_000 else window;
      var c := Configure(requests, window);
      Admitted(StateAt(c, true, steps, m).log, key) - Admitted(StateAt(c, true, steps, n).log, key)
      <= r + (steps[m - 1].at - steps[n].at) / (w / r)
  {
    var c := Configure(requests, window);
    ConfigureMeaning(requests, window);
    IntervalFits(EffectiveRequests(requests), EffectiveWindow(window));
    SweepInvisibleAt(requests, window, steps, n);
    SweepInvisibleAt(requests, window, steps, m);
    KeepBound(c, steps, n, m, key);
  }

  lemma {:induction false} PromptPrefix(steps: seq<Step>, n: nat, slack: int)
    requires Prompt(steps, slack) && n <= |steps|
    ensures Prompt(steps[..n], slack)
    decreases |steps|
  {
    if n < |steps| {
      PromptPrefix(steps[..|steps| - 1], n, slack);
      assert steps[..|steps| - 1][..n] == steps[..n];
    } else {
      assert steps[..n] == steps;
    }
  }

  /** At every moment of every run, the sweeping limiter has given the answers of the one that never deletes. */
  lemma SweepInvisibleAt(requests: int, window: int, steps: seq<Step>, n: nat)
    requires Legal(steps) && Prompt(steps, EffectiveWindow(window)) && n <= |steps|
    requires EffectiveRequests(requests) <= EffectiveWindow(window)
    ensures StateAt(Configure(requests, window), true, steps, n).log
            == StateAt(Configure(requests, window), false, steps, n).log
  {
    ConfigureMeaning(requests, window);
    LegalPrefix(steps, n);
    PromptPrefix(steps, n, EffectiveWindow(window));
    RunsSimilar(Configure(requests, window), EffectiveWindow(window), steps[..n]);
  }

  /** Ten requests a minute means at most twenty, not ten, in any one minute. */
  lemma TenPerMinute(steps: seq<Step>, n: nat, m: nat, key: string)
    requires Legal(steps) && Prompt(steps, MINUTE) && n < m <= |steps| && steps[m - 1].at - steps[n].at <= MINUTE
    ensures
      var c := Configure(10, MINUTE);
      Admitted(StateAt(c, true, steps, m).log, key) - Admitted(StateAt(c, true, steps, n).log, key) <= 20
  {
    RateBound(10, MINUTE, steps, n, m, key);
    var c := Configure(10, MINUTE);
    assert c.interval == 6 * SECOND && c.burst == 10;
    assert (steps[m - 1].at - steps[n].at) / (6 * SECOND) <= 10;
  }

  // ---------------------------------------------------------------- paced clients

  /** Any two requests of the client in the log are at least `gap` apart. */
  ghost predicate Paced(log: seq<Answer>, key: string, gap: int) {
    forall i, j :: 0 <= i < j < |log| && log[i].key == key && log[j].key == key ==> log[j].at - log[i].at >= gap
  }

  ghost predicate AllAdmitted(log: seq<Answer>, key: string) {
    forall i :: 0 <= i < |log| && log[i].key == key ==> log[i].ok
  }

  /** Every bucket the client ever had was full when made and last used no later than the client's last request. */
  ghost predicate UsedByLog(c: Config, s: State, key: string) {
    forall h :: 0 <= h < |s.heap| && s.heap[h].key == key ==>
      || s.heap[h].bucket.credit == c.cap
      || exists i :: 0 <= i < |s.log| && s.log[i].key == key && s.heap[h].bucket.last == s.log[i].at
  }

  lemma PacedStep(c: Config, sweep: bool, s: State, step: Step, key: string)
    requires ValidConfig(c) && WellFormed(c, s)
    requires UsedByLog(c, s, key) && AllAdmitted(s.log, key) && Paced(Act(c, sweep, s, step).log, key, c.interval)
    ensures UsedByLog(c, Act(c, sweep, s, step), key) && AllAdmitted(Act(c, sweep, s, step).log, key)
  {
    var t := Act(c, sweep, s, step);
    if step.Allow? && step.req in s.pending {
      var p := s.pending[step.req];
      var n := |s.log|;
      assert t.log[..n] == s.log && t.log[n].key == p.key && t.log[n].at == s.now;
      if p.key == key && s.heap[p.limiter].bucket.credit != c.cap {
        var i :| 0 <= i < n && s.log[i].key == key && s.heap[p.limiter].bucket.last == s.log[i].at;
        assert t.log[n].at - t.log[i].at >= c.interval;
      }
      forall h | 0 <= h < |t.heap| && t.heap[h].key == key && t.heap[h].bucket.credit != c.cap
        ensures exists i :: 0 <= i < |t.log| && t.log[i].key == key && t.heap[h].bucket.last == t.log[i].at
      {
        if h != p.limiter {
          var i :| 0 <= i < n && s.log[i].key == key && s.heap[h].bucket.last == s.log[i].at;
          assert t.log[i] == s.log[i];
        }
      }
    }
  }

  /** A client whose requests are at least `interval` apart is never refused, whatever the other clients do, however
      late its own requests are, with or without the sweep, and for every configuration. */
  lemma {:induction false} PacedNeverRefused(c: Config, sweep: bool, steps: seq<Step>, key: string)
    requires ValidConfig(c) && Legal(steps) && Paced(Run(c, sweep, steps).log, key, c.interval)
    ensures AllAdmitted(Run(c, sweep, steps).log, key) && UsedByLog(c, Run(c, sweep, steps), key)
  {
    if steps != [] {
      var before, step := steps[..|steps| - 1], steps[|steps| - 1];
      RunFacts(c, sweep, before);
      var s, t := Run(c, sweep, before), Run(c, sweep, steps);
      assert s.log <= t.log;
      assert forall i :: 0 <= i < |s.log| ==> s.log[i] == t.log[i];
      PacedNeverRefused(c, sweep, before, key);
      PacedStep(c, sweep, s.(now := step.at), step, key);
    }
  }
}
