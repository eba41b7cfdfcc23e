/** Read-through caches with a time to live: the promotion and news decorators of `cache/home_cache.go` and the route
    cache of `routing/osrm.go`, as one machine.

    A store `S` answers queries `Q` with values `V`; cache entries are filed under keys `K`.  Promotions have one query,
    news one per limit, routes one per pair of coordinates, filed under coordinates rounded to five decimals.  A Redis
    entry is gone at its expiry time, a route entry is still served at it (`inclusive`).  Values that do not pass `keep`
    are answered but never filed. */
module StaleCache {

  datatype Params<!S, !Q, !K, !V> =
    Params(answer: (S, Q) -> V, key: Q -> K, keep: V -> bool, ttl: int, inclusive: bool)

  /** A content of the primary store, current from `at` until the next version. */
  datatype Version<S> = Version(at: int, store: S)

  /** A cached value; `version` and `query` remember where it came from. */
  datatype Entry<V, Q> = Entry(value: V, expires: int, version: nat, query: Q, readAt: int)

  /** A reader that has read the primary and not yet written the cache. */
  datatype Fill<Q> = Fill(version: nat, query: Q, readAt: int)

  datatype Answer<Q, V> = Answer(query: Q, value: V, at: int)

  datatype State<S, Q, K, V> = State(
    versions: seq<Version<S>>, cache: map<K, Entry<V, Q>>, fills: map<nat, Fill<Q>>, served: seq<Answer<Q, V>>, now: int)

  /** `Miss` covers a missing or expired entry and a failing cache read; `Finish` writes the cache unless that fails,
      and serves what was read; `Drop` is an invalidation that succeeds. */
  datatype Step<S, Q, K> =
    | Write(store: S, at: int)
    | Drop(key: K, at: int)
    | Hit(query: Q, at: int)
    | Miss(id: nat, query: Q, at: int)
    | Finish(id: nat, stored: bool, at: int)

  predicate Live<V, Q>(e: Entry<V, Q>, inclusive: bool, now: int) {
    if inclusive then now <= e.expires else now < e.expires
  }

  ghost predicate Enabled<S, Q, K, V>(p: Params<S, Q, K, V>, delay: int, s: State<S, Q, K, V>, step: Step<S, Q, K>) {
    && s.now <= step.at
    && match step
       case Write(_, _) => true
       case Drop(_, _) => true
       case Hit(q, at) => p.ttl > 0 && p.key(q) in s.cache && Live(s.cache[p.key(q)], p.inclusive, at)
       case Miss(id, _, _) => id !in s.fills
       case Finish(id, stored, at) =>
         && id in s.fills && at - s.fills[id].readAt <= delay && s.fills[id].version < |s.versions|
         && (stored ==> p.keep(p.answer(s.versions[s.fills[id].version].store, s.fills[id].query)))
  }

  function Next<S, Q, K, V>(p: Params<S, Q, K, V>, before: State<S, Q, K, V>, step: Step<S, Q, K>): State<S, Q, K, V>
    requires before.versions != []
    requires step.Hit? ==> p.key(step.query) in before.cache
    requires step.Finish? ==> step.id in before.fills && before.fills[step.id].version < |before.versions|
  {
    var s := before.(now := step.at);
    match step
    case Write(store, at) => s.(versions := s.versions + [Version(at, store)])
    case Drop(key, _) => s.(cache := s.cache - {key})
    case Hit(q, at) => s.(served := s.served + [Answer(q, s.cache[p.key(q)].value, at)])
    case Miss(id, q, at) => s.(fills := s.fills[id := Fill(|s.versions| - 1, q, at)])
    case Finish(id, stored, at) =>
      var f := s.fills[id];
      var value := p.answer(s.versions[f.version].store, f.query);
      var entry := Entry(value, at + p.ttl, f.version, f.query, f.readAt);
      s.(fills := s.fills - {id}, served := s.served + [Answer(f.query, value, at)],
         cache := if stored then s.cache[p.key(f.query) := entry] else s.cache)
  }

  // ---------------------------------------------------------------- invariant

  /** Version `i` was the primary's content at some moment no earlier than `lo`. */
  ghost predicate CurrentSince<S>(versions: seq<Version<S>>, i: nat, lo: int) {
    i < |versions| && (i == |versions| - 1 || lo <= versions[i + 1].at)
  }

  ghost predicate FillOk<S, Q>(versions: seq<Version<S>>, f: Fill<Q>, now: int) {
    CurrentSince(versions, f.version, f.readAt) && versions[f.version].at <= f.readAt <= now
  }

  ghost predicate EntryOk<S, Q, K, V>(
    p: Params<S, Q, K, V>, delay: int, versions: seq<Version<S>>, key: K, e: Entry<V, Q>, now: int)
  {
    && CurrentSince(versions, e.version, e.readAt) && versions[e.version].at <= e.readAt <= now
    && p.key(e.query) == key && e.value == p.answer(versions[e.version].store, e.query) && p.keep(e.value)
    && e.expires <= e.readAt + delay + p.ttl
  }

  /** The answer was the primary's answer, to a query filed under the same key, at some moment within the bound. */
  ghost predicate Justified<S, Q, K, V>(
    p: Params<S, Q, K, V>, delay: int, versions: seq<Version<S>>, a: Answer<Q, V>, i: nat, q: Q)
  {
    && CurrentSince(versions, i, a.at - p.ttl - delay) && versions[i].at <= a.at
    && p.key(q) == p.key(a.query) && a.value == p.answer(versions[i].store, q)
  }

  ghost predicate Backed<S(!new), Q(!new), K(!new), V(!new)>(
    p: Params<S, Q, K, V>, delay: int, versions: seq<Version<S>>, a: Answer<Q, V>)
  {
    exists i, q :: Justified(p, delay, versions, a, i, q)
  }

  ghost predicate Invariant<S(!new), Q(!new), K(!new), V(!new)>(p: Params<S, Q, K, V>, delay: int, s: State<S, Q, K, V>) {
    && s.versions != []
    && (forall i :: 0 <= i < |s.versions| ==> s.versions[i].at <= s.now)
    && (forall id :: id in s.fills ==> FillOk(s.versions, s.fills[id], s.now))
    && (forall k :: k in s.cache ==> EntryOk(p, delay, s.versions, k, s.cache[k], s.now))
    && (forall n :: 0 <= n < |s.served| ==>
          s.served[n].at <= s.now && Backed(p, delay, s.versions, s.served[n]))
  }

  /** A run: each step with the longest delay `delay` between a fill's read of the primary and its cache write. */
  ghost predicate Reaches<S(!new), Q(!new), K(!new), V(!new)>(
    p: Params<S, Q, K, V>, delay: int, s: State<S, Q, K, V>, steps: seq<Step<S, Q, K>>, t: State<S, Q, K, V>)
    decreases |steps|
  {
    if steps == [] then t == s
    else
      && s.versions != [] && Enabled(p, delay, s, steps[0])
      && Reaches(p, delay, Next(p, s, steps[0]), steps[1..], t)
  }

  function Initial<S, Q, K, V>(store: S): State<S, Q, K, V> {
    State([Version(0, store)], map[], map[], [], 0)
  }

  lemma Extended<S>(versions: seq<Version<S>>, v: Version<S>, i: nat, lo: int)
    requires CurrentSince(versions, i, lo) && lo <= v.at
    ensures CurrentSince(versions + [v], i, lo) && (versions + [v])[i] == versions[i]
  {
  }

  lemma WriteKeeps<S(!new), Q(!new), K(!new), V(!new)>(
    p: Params<S, Q, K, V>, delay: int, s: State<S, Q, K, V>, step: Step<S, Q, K>)
    requires delay >= 0 && p.ttl >= 0 && Invariant(p, delay, s) && Enabled(p, delay, s, step) && step.Write?
    ensures Invariant(p, delay, Next(p, s, step))
  {
    var t, v := Next(p, s, step), Version(step.at, step.store);
    forall id | id in t.fills ensures FillOk(t.versions, t.fills[id], t.now) {
      Extended(s.versions, v, s.fills[id].version, s.fills[id].readAt);
    }
    forall k | k in t.cache ensures EntryOk(p, delay, t.versions, k, t.cache[k], t.now) {
      Extended(s.versions, v, s.cache[k].version, s.cache[k].readAt);
    }
    forall n | 0 <= n < |t.served| ensures Backed(p, delay, t.versions, t.served[n]) {
      var i, q :| Justified(p, delay, s.versions, s.served[n], i, q);
      Extended(s.versions, v, i, s.served[n].at - p.ttl - delay);
      assert Justified(p, delay, t.versions, t.served[n], i, q);
    }
  }

  lemma AnswerKeeps<S(!new), Q(!new), K(!new), V(!new)>(
    p: Params<S, Q, K, V>, delay: int, s: State<S, Q, K, V>, step: Step<S, Q, K>)
    requires delay >= 0 && p.ttl >= 0 && Invariant(p, delay, s) && Enabled(p, delay, s, step)
    requires step.Hit? || step.Finish?
    ensures
      var a := if step.Hit? then Answer(step.query, s.cache[p.key(step.query)].value, step.at)
               else Answer(s.fills[step.id].query, p.answer(s.versions[s.fills[step.id].version].store, s.fills[step.id].query), step.at);
      Backed(p, delay, s.versions, a)
  {
    if step.Hit? {
      var e := s.cache[p.key(step.query)];
      assert EntryOk(p, delay, s.versions, p.key(step.query), e, s.now);
      assert Justified(p, delay, s.versions, Answer(step.query, e.value, step.at), e.version, e.query);
    } else {
      var f := s.fills[step.id];
      var a := Answer(f.query, p.answer(s.versions[f.version].store, f.query), step.at);
      assert FillOk(s.versions, f, s.now);
      assert Justified(p, delay, s.versions, a, f.version, f.query);
    }
  }

  lemma StepKeeps<S(!new), Q(!new), K(!new), V(!new)>(
    p: Params<S, Q, K, V>, delay: int, s: State<S, Q, K, V>, step: Step<S, Q, K>)
    requires delay >= 0 && p.ttl >= 0 && Invariant(p, delay, s) && Enabled(p, delay, s, step)
    ensures Invariant(p, delay, Next(p, s, step))
  {
    if step.Write? {
      WriteKeeps(p, delay, s, step);
    } else {
      var t := Next(p, s, step);
      if step.Hit? || step.Finish? { AnswerKeeps(p, delay, s, step); }
      forall n | 0 <= n < |t.served|
        ensures t.served[n].at <= t.now && Backed(p, delay, t.versions, t.served[n])
      {
        if n < |s.served| { assert t.served[n] == s.served[n]; }
      }
      if step.Finish? { assert FillOk(s.versions, s.fills[step.id], s.now); }
    }
  }

  /** Bounded staleness: whatever readers, writers and failed invalidations interleave, an answer served at time `t` was
      the primary's answer, to a query filed under the same key, at some moment no earlier than `t - ttl - delay`. */
  lemma {:induction false} BoundedStaleness<S(!new), Q(!new), K(!new), V(!new)>(
    p: Params<S, Q, K, V>, delay: int, s: State<S, Q, K, V>, steps: seq<Step<S, Q, K>>, t: State<S, Q, K, V>)
    requires delay >= 0 && p.ttl >= 0 && Invariant(p, delay, s) && Reaches(p, delay, s, steps, t)
    ensures Invariant(p, delay, t)
    decreases |steps|
  {
    if steps != [] {
      StepKeeps(p, delay, s, steps[0]);
      BoundedStaleness(p, delay, Next(p, s, steps[0]), steps[1..], t);
    }
  }

  /** The same from the start, for a key that tells queries apart: the query answered is the query asked. */
  lemma BoundedStalenessPerQuery<S(!new), Q(!new), K(!new), V(!new)>(
    p: Params<S, Q, K, V>, delay: int, store: S, steps: seq<Step<S, Q, K>>, t: State<S, Q, K, V>, n: nat)
    requires delay >= 0 && p.ttl >= 0 && Reaches(p, delay, Initial(store), steps, t) && n < |t.served|
    requires forall q, r :: p.key(q) == p.key(r) ==> q == r
    ensures
      var a := t.served[n];
      exists i: nat :: && CurrentSince(t.versions, i, a.at - p.ttl - delay) && t.versions[i].at <= a.at
                  && a.value == p.answer(t.versions[i].store, a.query)
  {
    BoundedStaleness(p, delay, Initial(store), steps, t);
    assert Backed(p, delay, t.versions, t.served[n]);
    var i, q :| Justified(p, delay, t.versions, t.served[n], i, q);
  }
}
