/** Runs of the limiter: any number of requests in flight, each looking its bucket up (`Get`) and then asking it
    (`Allow`), interleaved in any way.  The same machine with `sweep` off is the limiter that never deletes. */
module RateLimitRuns {
  import opened RateLimit

  datatype Slot = Slot(key: string, bucket: Bucket)
  datatype Pending = Pending(key: string, limiter: nat, at: int)
  datatype Answer = Answer(key: string, at: int, ok: bool)

  /** `heap` holds every bucket object ever created; `limiters` and the requests in flight point into it. */
  datatype State = State(
    limiters: map<string, Entry<nat>>, heap: seq<Slot>, pending: map<nat, Pending>, log: seq<Answer>, now: int)

  datatype Step = Get(req: nat, key: string, at: int) | Allow(req: nat, at: int)

  const INIT := State(map[], [], map[], [], 0)

  function Act(c: Config, sweep: bool, s: State, step: Step): State {
    match step
    case Get(req, key, at) =>
      var limiters := AfterGet(s.limiters, key, s.now, c.ttl, sweep, |s.heap|);
      if key in s.limiters then
        s.(limiters := limiters, pending := s.pending[req := Pending(key, s.limiters[key].limiter, s.now)])
      else
        s.(limiters := limiters, heap := s.heap + [Slot(key, Fresh(c, s.now))],
           pending := s.pending[req := Pending(key, |s.heap|, s.now)])
    case Allow(req, at) =>
      if req !in s.pending || s.pending[req].limiter >= |s.heap| then s
      else
        var p := s.pending[req];
        var (ok, bucket) := Take(c, s.heap[p.limiter].bucket, s.now);
        s.(heap := s.heap[p.limiter := Slot(p.key, bucket)], pending := s.pending - {req},
           log := s.log + [Answer(p.key, s.now, ok)])
  }

  ghost predicate WellFormed(c: Config, s: State) {
    && (forall k :: k in s.limiters ==>
          && s.limiters[k].limiter < |s.heap| && s.heap[s.limiters[k].limiter].key == k
          && s.limiters[k].lastHit <= s.now)
    && (forall r :: r in s.pending ==>
          && s.pending[r].limiter < |s.heap| && s.heap[s.pending[r].limiter].key == s.pending[r].key
          && s.pending[r].at <= s.now)
    && (forall i :: 0 <= i < |s.heap| ==> 0 <= s.heap[i].bucket.credit <= c.cap && s.heap[i].bucket.last <= s.now)
  }

  lemma GetWellFormed(c: Config, sweep: bool, s: State, step: Step)
    requires ValidConfig(c) && WellFormed(c, s) && step.Get?
    ensures WellFormed(c, Act(c, sweep, s, step))
  {
  }

  lemma AllowWellFormed(c: Config, sweep: bool, s: State, step: Step)
    requires ValidConfig(c) && WellFormed(c, s) && step.Allow?
    ensures WellFormed(c, Act(c, sweep, s, step))
  {
  }

  lemma ActWellFormed(c: Config, sweep: bool, s: State, step: Step)
    requires ValidConfig(c) && WellFormed(c, s)
    ensures WellFormed(c, Act(c, sweep, s, step))
  {
    if step.Get? { GetWellFormed(c, sweep, s, step); } else { AllowWellFormed(c, sweep, s, step); }
  }

  // ---------------------------------------------------------------- runs

  function Now(steps: seq<Step>): int {
    if steps == [] then 0 else steps[|steps| - 1].at
  }

  /** The requests in flight after `steps`, each with the time it looked its bucket up. */
  function Open(steps: seq<Step>): map<nat, int> {
    if steps == [] then map[]
    else
      var before := Open(steps[..|steps| - 1]);
      match steps[|steps| - 1]
      case Get(req, _, at) => before[req := at]
      case Allow(req, _) => before - {req}
  }

  /** The clock never runs backwards, request identifiers are fresh, and only a request in flight asks its bucket. */
  ghost predicate Legal(steps: seq<Step>) {
    steps != [] ==>
      var before, step := steps[..|steps| - 1], steps[|steps| - 1];
      && Legal(before)
      && Now(before) <= step.at
      && (if step.Get? then step.req !in Open(before) else step.req in Open(before))
  }

  /** Every request asks its bucket within `slack` of having looked it up. */
  ghost predicate Prompt(steps: seq<Step>, slack: int) {
    steps != [] ==>
      var before, step := steps[..|steps| - 1], steps[|steps| - 1];
      && Prompt(before, slack)
      && (step.Allow? && step.req in Open(before) ==> step.at - Open(before)[step.req] <= slack)
  }

  ghost predicate InFlight(s: State, open: map<nat, int>) {
    s.pending.Keys == open.Keys && forall r :: r in open ==> s.pending[r].at == open[r]
  }

  function Run(c: Config, sweep: bool, steps: seq<Step>): State {
    if steps == [] then INIT
    else
      var step := steps[|steps| - 1];
      Act(c, sweep, Run(c, sweep, steps[..|steps| - 1]).(now := step.at), step)
  }

  lemma {:induction false} RunFacts(c: Config, sweep: bool, steps: seq<Step>)
    requires ValidConfig(c) && Legal(steps)
    ensures WellFormed(c, Run(c, sweep, steps))
    ensures Run(c, sweep, steps).now == Now(steps) && InFlight(Run(c, sweep, steps), Open(steps))
  {
    if steps != [] {
      var before, step := steps[..|steps| - 1], steps[|steps| - 1];
      RunFacts(c, sweep, before);
      ActWellFormed(c, sweep, Run(c, sweep, before).(now := step.at), step);
    }
  }

  // ---------------------------------------------------------------- the sweep is invisible

  /** The bucket the map holds for a client. */
  function BucketOf(s: State, k: string): Bucket {
    if k in s.limiters && s.limiters[k].limiter < |s.heap| then s.heap[s.limiters[k].limiter].bucket else Bucket(0, 0)
  }

  /** `a` sweeps, `b` does not.  A bucket `a` still has is worth what `b`'s is, and `b`'s was last used at most `slack`
      after `a` last saw the client; a bucket only `b` has is full. */
  ghost predicate SameClient(c: Config, slack: int, a: State, b: State, k: string) {
    && (k in a.limiters ==>
          && k in b.limiters
          && Level(c, BucketOf(a, k), a.now) == Level(c, BucketOf(b, k), a.now)
          && BucketOf(b, k).last <= a.limiters[k].lastHit + slack)
    && (k in b.limiters && k !in a.limiters ==> Level(c, BucketOf(b, k), a.now) == c.cap)
  }

  /** A request in flight that is not overdue holds the bucket that is still in the map. */
  ghost predicate SameRequest(slack: int, a: State, b: State, r: nat)
    requires r in a.pending && r in b.pending
  {
    var pa, pb := a.pending[r], b.pending[r];
    && pa.at == pb.at && pa.key == pb.key
    && pb.key in b.limiters && b.limiters[pb.key].limiter == pb.limiter
    && (a.now - pa.at <= slack ==>
          pa.key in a.limiters && a.limiters[pa.key].limiter == pa.limiter && pa.at <= a.limiters[pa.key].lastHit)
  }

  ghost predicate Similar(c: Config, slack: int, a: State, b: State) {
    && a.now == b.now && a.log == b.log && a.pending.Keys == b.pending.Keys
    && (forall k :: SameClient(c, slack, a, b, k))
    && (forall r :: r in a.pending ==> SameRequest(slack, a, b, r))
  }

  lemma SimilarLater(c: Config, slack: int, a: State, b: State, at: int)
    requires WellFormed(c, a) && WellFormed(c, b) && Similar(c, slack, a, b) && a.now <= at
    ensures WellFormed(c, a.(now := at)) && WellFormed(c, b.(now := at))
    ensures Similar(c, slack, a.(now := at), b.(now := at))
  {
    var a', b' := a.(now := at), b.(now := at);
    assert WellFormed(c, a') && WellFormed(c, b');
    forall k ensures SameClient(c, slack, a', b', k) {
      assert SameClient(c, slack, a, b, k);
    }
    forall r | r in a'.pending ensures SameRequest(slack, a', b', r) {
      assert SameRequest(slack, a, b, r);
    }
  }

  lemma GetKnows(c: Config, sweep: bool, s: State, step: Step)
    requires ValidConfig(c) && WellFormed(c, s) && step.Get?
    ensures
      var t := Act(c, sweep, s, step);
      && step.key in t.limiters && t.limiters[step.key].lastHit == t.now == s.now
      && BucketOf(t, step.key) == if step.key in s.limiters then BucketOf(s, step.key) else Fresh(c, s.now)
  {
  }

  lemma GetSpares(c: Config, sweep: bool, s: State, step: Step, k: string)
    requires ValidConfig(c) && WellFormed(c, s) && step.Get? && k != step.key
    ensures
      var t := Act(c, sweep, s, step);
      && t.now == s.now
      && (k in t.limiters <==>
            k in s.limiters && (sweep && step.key !in s.limiters ==> s.now - s.limiters[k].lastHit <= c.ttl))
      && (k in t.limiters ==> t.limiters[k] == s.limiters[k] && BucketOf(t, k) == BucketOf(s, k))
  {
  }

  /** Looking a bucket up keeps each client's buckets worth the same: a bucket the sweep deletes had refilled. */
  lemma GetSameClient(c: Config, slack: int, a: State, b: State, step: Step, k: string)
    requires ValidConfig(c) && slack >= 0 && slack + c.cap <= c.ttl + 1
    requires WellFormed(c, a) && WellFormed(c, b) && a.now == b.now && step.Get?
    requires SameClient(c, slack, a, b, k)
    requires WellFormed(c, Act(c, true, a, step)) && WellFormed(c, Act(c, false, b, step))
    ensures SameClient(c, slack, Act(c, true, a, step), Act(c, false, b, step), k)
  {
    if k == step.key {
      GetKnows(c, true, a, step);
      GetKnows(c, false, b, step);
    } else {
      GetSpares(c, true, a, step, k);
      GetSpares(c, false, b, step, k);
    }
  }

  /** The sweep never deletes the bucket of a request that is in flight and not overdue. */
  lemma GetSameRequest(c: Config, slack: int, a: State, b: State, step: Step, r: nat)
    requires ValidConfig(c) && slack >= 0 && slack + c.cap <= c.ttl + 1
    requires WellFormed(c, a) && WellFormed(c, b) && a.now == b.now && step.Get? && r != step.req
    requires r in a.pending && r in b.pending && SameRequest(slack, a, b, r)
    ensures SameRequest(slack, Act(c, true, a, step), Act(c, false, b, step), r)
  {
  }

  lemma GetNewRequest(c: Config, slack: int, a: State, b: State, step: Step)
    requires ValidConfig(c) && slack >= 0 && slack + c.cap <= c.ttl + 1
    requires WellFormed(c, a) && WellFormed(c, b) && a.now == b.now && step.Get?
    requires SameClient(c, slack, a, b, step.key)
    ensures
      var a', b' := Act(c, true, a, step), Act(c, false, b, step);
      && a'.now == b'.now == a.now && a'.log == a.log && b'.log == b.log
      && a'.pending.Keys == a.pending.Keys + {step.req} && b'.pending.Keys == b.pending.Keys + {step.req}
      && SameRequest(slack, a', b', step.req)
  {
  }

  lemma GetSameRequests(c: Config, slack: int, a: State, b: State, step: Step)
    requires ValidConfig(c) && slack >= 0 && slack + c.cap <= c.ttl + 1
    requires WellFormed(c, a) && WellFormed(c, b) && Similar(c, slack, a, b)
    requires step.Get? && step.req !in a.pending
    ensures
      var a', b' := Act(c, true, a, step), Act(c, false, b, step);
      && a'.now == b'.now && a'.log == b'.log && a'.pending.Keys == b'.pending.Keys
      && (forall r :: r in a'.pending ==> SameRequest(slack, a', b', r))
  {
    var a', b' := Act(c, true, a, step), Act(c, false, b, step);
    GetNewRequest(c, slack, a, b, step);
    forall r | r in a.pending && r != step.req ensures SameRequest(slack, a', b', r) {
      GetSameRequest(c, slack, a, b, step, r);
    }
  }

  lemma SimilarGet(c: Config, slack: int, a: State, b: State, step: Step)
    requires ValidConfig(c) && slack >= 0 && slack + c.cap <= c.ttl + 1
    requires WellFormed(c, a) && WellFormed(c, b) && Similar(c, slack, a, b)
    requires step.Get? && step.req !in a.pending
    ensures WellFormed(c, Act(c, true, a, step)) && WellFormed(c, Act(c, false, b, step))
    ensures Similar(c, slack, Act(c, true, a, step), Act(c, false, b, step))
  {
    ActWellFormed(c, true, a, step);
    ActWellFormed(c, false, b, step);
    forall k ensures SameClient(c, slack, Act(c, true, a, step), Act(c, false, b, step), k) {
      GetSameClient(c, slack, a, b, step, k);
    }
    GetSameRequests(c, slack, a, b, step);
  }

  lemma AllowAsks(c: Config, sweep: bool, s: State, step: Step)
    requires ValidConfig(c) && WellFormed(c, s) && step.Allow? && step.req in s.pending
    requires s.pending[step.req].key in s.limiters
    requires s.limiters[s.pending[step.req].key].limiter == s.pending[step.req].limiter
    ensures
      var t, key := Act(c, sweep, s, step), s.pending[step.req].key;
      var (ok, bucket) := Take(c, BucketOf(s, key), s.now);
      && t.now == s.now && t.limiters == s.limiters && t.pending == s.pending - {step.req}
      && t.log == s.log + [Answer(key, s.now, ok)]
      && BucketOf(t, key) == bucket
      && (forall k :: k in s.limiters && k != key ==> BucketOf(t, k) == BucketOf(s, k))
  {
  }

  lemma SimilarAllow(c: Config, slack: int, a: State, b: State, step: Step)
    requires ValidConfig(c) && WellFormed(c, a) && WellFormed(c, b) && Similar(c, slack, a, b)
    requires step.Allow? && step.req in a.pending && a.now - a.pending[step.req].at <= slack
    ensures Similar(c, slack, Act(c, true, a, step), Act(c, false, b, step))
  {
    var a', b' := Act(c, true, a, step), Act(c, false, b, step);
    assert SameRequest(slack, a, b, step.req);
    AllowAsks(c, true, a, step);
    AllowAsks(c, false, b, step);
    assert SameClient(c, slack, a, b, a.pending[step.req].key);
    forall k ensures SameClient(c, slack, a', b', k) {
      assert SameClient(c, slack, a, b, k);
    }
    forall r | r in a'.pending ensures SameRequest(slack, a', b', r) {
      assert SameRequest(slack, a, b, r);
    }
  }

  lemma {:induction false} RunsSimilar(c: Config, slack: int, steps: seq<Step>)
    requires ValidConfig(c) && slack >= 0 && slack + c.cap <= c.ttl + 1
    requires Legal(steps) && Prompt(steps, slack)
    ensures Similar(c, slack, Run(c, true, steps), Run(c, false, steps))
  {
    if steps != [] {
      var before, step := steps[..|steps| - 1], steps[|steps| - 1];
      RunsSimilar(c, slack, before);
      var a, b := Run(c, true, before), Run(c, false, before);
      RunFacts(c, true, before);
      RunFacts(c, false, before);
      SimilarLater(c, slack, a, b, step.at);
      if step.Get? {
        SimilarGet(c, slack, a.(now := step.at), b.(now := step.at), step);
      } else {
        SimilarAllow(c, slack, a.(now := step.at), b.(now := step.at), step);
      }
    }
  }
}
