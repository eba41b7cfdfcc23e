/** The promotion repository behind its cache, one call at a time: `cachedPromotionRepository` of `cache/home_cache.go`. */
module CachedPromotions {
  import opened Common
  import StaleCache

  datatype Promotion = Promotion(id: string, active: bool)

  datatype Cached = Cached(items: seq<Promotion>, expires: int)

  /** The promotions table in the order the primary lists it, and the entry under `home:promotions`. */
  datatype State = State(table: seq<Promotion>, entry: Option<Cached>)

  /** Which calls to the primary and to Redis fail. */
  datatype Faults = Faults(primary: bool, cacheGet: bool, cacheSet: bool, cacheDel: bool)

  const NO_FAULTS := Faults(false, false, false, false)

  function Active(table: seq<Promotion>): seq<Promotion> {
    if table == [] then [] else (if table[0].active then [table[0]] else []) + Active(table[1..])
  }

  function Deactivated(table: seq<Promotion>, id: string): seq<Promotion> {
    seq(|table|, i requires 0 <= i < |table| => if table[i].id == id then Promotion(id, false) else table[i])
  }

  predicate Served(s: State, now: int, f: Faults) { !f.cacheGet && s.entry.Some? && now < s.entry.value.expires }

  function ListActive(s: State, ttl: int, now: int, f: Faults): (State, Option<seq<Promotion>>) {
    if Served(s, now, f) then (s, Some(s.entry.value.items))
    else if f.primary then (s, None)
    else
      var items := Active(s.table);
      (if f.cacheSet then s else s.(entry := Some(Cached(items, now + ttl))), Some(items))
  }

  /** The table with a new promotion at its place in the priority order. */
  function Inserted(table: seq<Promotion>, p: Promotion, at: nat): seq<Promotion> {
    if at <= |table| then table[..at] + [p] + table[at..] else table + [p]
  }

  /** A promotion is created active, at its place in the order. */
  function Create(s: State, id: string, at: nat, f: Faults): State {
    if f.primary then s
    else State(Inserted(s.table, Promotion(id, true), at), if f.cacheDel then s.entry else None)
  }

  predicate Has(table: seq<Promotion>, id: string) { exists i :: 0 <= i < |table| && table[i].id == id }

  /** The primary refuses to deactivate what it does not have, and then nothing is invalidated. */
  function Deactivate(s: State, id: string, f: Faults): State {
    if f.primary || !Has(s.table, id) then s
    else State(Deactivated(s.table, id), if f.cacheDel then s.entry else None)
  }

  /** The cache, if it holds anything, holds the primary's answer. */
  predicate Coherent(s: State) { s.entry.Some? ==> s.entry.value.items == Active(s.table) }

  class CachedPromotionRepository {
    const ttl: int
    var table: seq<Promotion>
    var entry: Option<Cached>

    constructor (table: seq<Promotion>, ttl: int)
      ensures this.ttl == ttl && View() == State(table, None) && Coherent(View())
    {
      this.ttl, this.table, entry := ttl, table, None;
    }

    function View(): State reads this { State(table, entry) }

    method List(now: int, f: Faults) returns (r: Option<seq<Promotion>>)
      modifies `entry
      ensures (View(), r) == ListActive(old(View()), ttl, now, f)
      ensures Coherent(old(View())) ==> Coherent(View()) && (r.Some? ==> r.value == Active(table))
    {
      if !f.cacheGet && entry.Some? && now < entry.value.expires { return Some(entry.value.items); }
      if f.primary { return None; }
      var items := Active(table);
      if !f.cacheSet { entry := Some(Cached(items, now + ttl)); }
      r := Some(items);
    }

    method CreatePromotion(id: string, at: nat, f: Faults) returns (ok: bool)
      modifies `table, `entry
      ensures View() == Create(old(View()), id, at, f) && ok == !f.primary
      ensures Coherent(old(View())) && !f.cacheDel ==> Coherent(View())
    {
      if f.primary { return false; }
      table := Inserted(table, Promotion(id, true), at);
      if !f.cacheDel { entry := None; }
      ok := true;
    }

    method DeactivatePromotion(id: string, f: Faults) returns (ok: bool)
      modifies `table, `entry
      ensures View() == Deactivate(old(View()), id, f) && ok == (!f.primary && Has(old(table), id))
      ensures Coherent(old(View())) && !f.cacheDel ==> Coherent(View())
    {
      if f.primary || !Has(table, id) { return false; }
      table := Deactivated(table, id);
      if !f.cacheDel { entry := None; }
      ok := true;
    }
  }

  // ---------------------------------------------------------------- runs

  /** `Rewrite` is a change of the table behind the decorator's back. */
  datatype Op = List | Add(id: string, at: nat) | Remove(id: string) | Rewrite(table: seq<Promotion>)

  datatype Call = Call(op: Op, now: int, faults: Faults)

  function Step(s: State, ttl: int, c: Call): (State, Option<seq<Promotion>>) {
    match c.op
    case List => ListActive(s, ttl, c.now, c.faults)
    case Add(id, at) => (Create(s, id, at, c.faults), None)
    case Remove(id) => (Deactivate(s, id, c.faults), None)
    case Rewrite(table) => (s.(table := table), None)
  }

  /** The answers of a run, each next to what the primary alone would have answered. */
  function Answers(s: State, ttl: int, calls: seq<Call>): seq<(seq<Promotion>, seq<Promotion>)>
    decreases |calls|
  {
    if calls == [] then []
    else
      var (t, r) := Step(s, ttl, calls[0]);
      (if r.Some? then [(r.value, Active(s.table))] else []) + Answers(t, ttl, calls[1..])
  }

  /** With every write through the decorator and every invalidation succeeding, answers are never stale, whatever else
      fails and however long entries live. */
  lemma {:induction false} NeverStale(s: State, ttl: int, calls: seq<Call>)
    requires Coherent(s) && forall i :: 0 <= i < |calls| ==> !calls[i].faults.cacheDel && !calls[i].op.Rewrite?
    ensures forall i :: 0 <= i < |Answers(s, ttl, calls)| ==> Answers(s, ttl, calls)[i].0 == Answers(s, ttl, calls)[i].1
    decreases |calls|
  {
    if calls != [] {
      NeverStale(Step(s, ttl, calls[0]).0, ttl, calls[1..]);
    }
  }

  // ---------------------------------------------------------------- staleness

  function After(s: State, ttl: int, calls: seq<Call>): State {
    if calls == [] then s else Step(After(s, ttl, calls[..|calls| - 1]), ttl, calls[|calls| - 1]).0
  }

  /** The clock never runs backwards. */
  ghost predicate Ordered(calls: seq<Call>) {
    forall i, j :: 0 <= i < j < |calls| ==> calls[i].now <= calls[j].now
  }

  /** The primary would have answered `items` after the first `j` calls, and still until the next one, which came no
      earlier than `since`, or until now. */
  ghost predicate AnswerAfter(s: State, ttl: int, calls: seq<Call>, items: seq<Promotion>, since: int, j: nat) {
    && j <= |calls| && items == Active(After(s, ttl, calls[..j]).table)
    && (j < |calls| ==> since <= calls[j].now)
  }

  ghost predicate WasAnswer(s: State, ttl: int, calls: seq<Call>, items: seq<Promotion>, since: int) {
    exists j: nat :: AnswerAfter(s, ttl, calls, items, since, j)
  }

  /** An entry was filed at `expires - ttl`, with what the primary answered then or later. */
  ghost predicate EntryBacked(s: State, ttl: int, calls: seq<Call>) {
    var entry := After(s, ttl, calls).entry;
    entry.Some? ==>
      && calls != [] && entry.value.expires - ttl <= calls[|calls| - 1].now
      && WasAnswer(s, ttl, calls, entry.value.items, entry.value.expires - ttl)
  }

  lemma WasAnswerSnoc(s: State, ttl: int, calls: seq<Call>, c: Call, items: seq<Promotion>, since: int)
    requires WasAnswer(s, ttl, calls, items, since) && since <= c.now
    ensures WasAnswer(s, ttl, calls + [c], items, since)
  {
    var j: nat :| AnswerAfter(s, ttl, calls, items, since, j);
    assert (calls + [c])[..j] == calls[..j];
    assert AnswerAfter(s, ttl, calls + [c], items, since, j);
  }

  lemma AnsweredNow(s: State, ttl: int, calls: seq<Call>, since: int)
    ensures WasAnswer(s, ttl, calls, Active(After(s, ttl, calls).table), since)
  {
    assert calls[..|calls|] == calls;
    assert AnswerAfter(s, ttl, calls, Active(After(s, ttl, calls).table), since, |calls|);
  }

  lemma AfterSnoc(s: State, ttl: int, calls: seq<Call>, c: Call)
    ensures After(s, ttl, calls + [c]) == Step(After(s, ttl, calls), ttl, c).0
  {
    assert (calls + [c])[..|calls|] == calls;
  }

  /** A call leaves the entry alone, drops it, or files what the primary answers now. */
  lemma EntryAfter(s: State, ttl: int, c: Call)
    ensures
      var t := Step(s, ttl, c).0;
      t.entry == s.entry || t.entry == None || t.entry == Some(Cached(Active(s.table), c.now + ttl))
  {
  }

  lemma EntryBackedNext(s: State, ttl: int, calls: seq<Call>, c: Call)
    requires EntryBacked(s, ttl, calls) && (calls != [] ==> calls[|calls| - 1].now <= c.now)
    ensures EntryBacked(s, ttl, calls + [c])
  {
    AfterSnoc(s, ttl, calls, c);
    EntryAfter(After(s, ttl, calls), ttl, c);
    var was, now := After(s, ttl, calls).entry, After(s, ttl, calls + [c]).entry;
    if now.Some? {
      var since := now.value.expires - ttl;
      if now != was { AnsweredNow(s, ttl, calls, since); }
      WasAnswerSnoc(s, ttl, calls, c, now.value.items, since);
    }
  }

  lemma {:induction false} EntriesBacked(s: State, ttl: int, calls: seq<Call>)
    requires s.entry.None? && Ordered(calls)
    ensures EntryBacked(s, ttl, calls)
  {
    if calls != [] {
      var before := calls[..|calls| - 1];
      EntriesBacked(s, ttl, before);
      EntryBackedNext(s, ttl, before, calls[|calls| - 1]);
      assert calls == before + [calls[|calls| - 1]];
    }
  }

  /** Whatever fails, and whoever else writes the table: a list answered at time `t` is what the primary would have
      answered at some moment no earlier than `t - ttl`. */
  lemma {:induction false} ListStaleness(s: State, ttl: int, calls: seq<Call>, c: Call)
    requires s.entry.None? && Ordered(calls + [c]) && c.op.List?
    ensures
      var r := Step(After(s, ttl, calls), ttl, c).1;
      r.Some? ==> WasAnswer(s, ttl, calls, r.value, c.now - ttl)
  {
    assert forall i :: 0 <= i < |calls| ==> (calls + [c])[i] == calls[i];
    EntriesBacked(s, ttl, calls);
    AnsweredNow(s, ttl, calls, c.now - ttl);
    var entry := After(s, ttl, calls).entry;
    if entry.Some? && c.now < entry.value.expires {
      var j: nat :| AnswerAfter(s, ttl, calls, entry.value.items, entry.value.expires - ttl, j);
      assert AnswerAfter(s, ttl, calls, entry.value.items, c.now - ttl, j);
    }
  }

  /** A list filed at time `t` answers for the primary before `t + ttl` and never from then on: with the primary down,
      exactly until then anything is answered at all; with nothing failing, from then on what the table holds by then. */
  lemma EntryLivesExactly(s: State, ttl: int, t: int, table: seq<Promotion>, later: int)
    requires !Served(s, t, NO_FAULTS)
    ensures
      var filed := ListActive(s, ttl, t, NO_FAULTS).0.(table := table);
      && (ListActive(filed, ttl, later, NO_FAULTS.(primary := true)).1
          == if later < t + ttl then Some(Active(s.table)) else None)
      && (ListActive(filed, ttl, later, NO_FAULTS).1
          == Some(Active(if later < t + ttl then s.table else table)))
  {
  }

  // ---------------------------------------------------------------- the cache as a machine

  type Machine = StaleCache.State<seq<Promotion>, (), (), seq<Promotion>>

  type MachineStep = StaleCache.Step<seq<Promotion>, (), ()>

  /** One query under one key, every answer kept, and an entry gone at its expiry. */
  function Decorator(ttl: int): StaleCache.Params<seq<Promotion>, (), (), seq<Promotion>> {
    StaleCache.Params((table: seq<Promotion>, q: ()) => Active(table), (q: ()) => (), (v: seq<Promotion>) => true, ttl, false)
  }

  ghost predicate Mirrors(s: State, m: Machine) {
    && m.versions != [] && m.versions[|m.versions| - 1].store == s.table
    && (s.entry.Some? <==> () in m.cache)
    && (s.entry.Some? ==> m.cache[()].value == s.entry.value.items && m.cache[()].expires == s.entry.value.expires)
  }

  /** The machine's steps for one call. */
  function CallSteps(s: State, c: Call, id: nat): seq<MachineStep> {
    var drop := if c.faults.cacheDel then [] else [StaleCache.Drop((), c.now)];
    match c.op
    case List =>
      if Served(s, c.now, c.faults) then [StaleCache.Hit((), c.now)]
      else if c.faults.primary then []
      else [StaleCache.Miss(id, (), c.now), StaleCache.Finish(id, !c.faults.cacheSet, c.now)]
    case Add(made, at) =>
      if c.faults.primary then [] else [StaleCache.Write(Inserted(s.table, Promotion(made, true), at), c.now)] + drop
    case Remove(gone) =>
      if c.faults.primary || !Has(s.table, gone) then [] else [StaleCache.Write(Deactivated(s.table, gone), c.now)] + drop
    case Rewrite(table) => [StaleCache.Write(table, c.now)]
  }

  lemma OneStep(ttl: int, m: Machine, a: MachineStep) returns (t: Machine)
    requires m.versions != [] && StaleCache.Enabled(Decorator(ttl), 0, m, a)
    ensures StaleCache.Reaches(Decorator(ttl), 0, m, [a], t) && t == StaleCache.Next(Decorator(ttl), m, a)
  {
    t := StaleCache.Next(Decorator(ttl), m, a);
    assert [a][1..] == [];
    assert StaleCache.Reaches(Decorator(ttl), 0, t, [], t);
  }

  lemma TwoSteps(ttl: int, m: Machine, a: MachineStep, b: MachineStep) returns (t: Machine)
    requires m.versions != [] && StaleCache.Enabled(Decorator(ttl), 0, m, a)
    requires
      var n := StaleCache.Next(Decorator(ttl), m, a);
      n.versions != [] && StaleCache.Enabled(Decorator(ttl), 0, n, b)
    ensures StaleCache.Reaches(Decorator(ttl), 0, m, [a, b], t)
    ensures t == StaleCache.Next(Decorator(ttl), StaleCache.Next(Decorator(ttl), m, a), b)
  {
    t := OneStep(ttl, StaleCache.Next(Decorator(ttl), m, a), b);
    assert [a, b][1..] == [b];
  }

  lemma {:induction false} WriteIsMachine(s: State, m: Machine, ttl: int, table: seq<Promotion>, c: Call) returns (t: Machine)
    requires Mirrors(s, m) && m.now <= c.now
    ensures
      var drop := if c.faults.cacheDel then [] else [StaleCache.Drop((), c.now)];
      StaleCache.Reaches(Decorator(ttl), 0, m, [StaleCache.Write(table, c.now)] + drop, t)
    ensures Mirrors(State(table, if c.faults.cacheDel then s.entry else None), t)
    ensures t.served == m.served && t.fills == m.fills
  {
    var write := StaleCache.Write(table, c.now);
    if c.faults.cacheDel {
      t := OneStep(ttl, m, write);
      assert [write] + [] == [write];
    } else {
      t := TwoSteps(ttl, m, write, StaleCache.Drop((), c.now));
      assert [write] + [StaleCache.Drop((), c.now)] == [write, StaleCache.Drop((), c.now)];
    }
  }

  lemma {:induction false} ListIsMachine(s: State, m: Machine, ttl: int, c: Call, id: nat) returns (t: Machine)
    requires ttl > 0 && Mirrors(s, m) && m.now <= c.now && id !in m.fills && c.op.List?
    ensures
      var (after, r) := ListActive(s, ttl, c.now, c.faults);
      && StaleCache.Reaches(Decorator(ttl), 0, m, CallSteps(s, c, id), t)
      && Mirrors(after, t) && t.fills == m.fills
      && t.served == m.served + (if r.Some? then [StaleCache.Answer((), r.value, c.now)] else [])
  {
    if Served(s, c.now, c.faults) {
      t := OneStep(ttl, m, StaleCache.Hit((), c.now));
    } else if c.faults.primary {
      t := m;
    } else {
      t := TwoSteps(ttl, m, StaleCache.Miss(id, (), c.now), StaleCache.Finish(id, !c.faults.cacheSet, c.now));
      assert t.fills == m.fills;
    }
  }

  /** Every call of the decorator, failing or not, is a run of the staleness machine without delay: the same answer, the
      same entry and the same table afterwards. */
  lemma CallIsMachine(s: State, m: Machine, ttl: int, c: Call, id: nat) returns (t: Machine)
    requires ttl > 0 && Mirrors(s, m) && m.now <= c.now && id !in m.fills
    ensures
      var (after, r) := Step(s, ttl, c);
      && StaleCache.Reaches(Decorator(ttl), 0, m, CallSteps(s, c, id), t)
      && Mirrors(after, t) && t.fills == m.fills
      && t.served == m.served + (if r.Some? then [StaleCache.Answer((), r.value, c.now)] else [])
  {
    match c.op
    case List => t := ListIsMachine(s, m, ttl, c, id);
    case Add(made, at) =>
      if c.faults.primary { t := m; } else { t := WriteIsMachine(s, m, ttl, Inserted(s.table, Promotion(made, true), at), c); }
    case Remove(gone) =>
      if c.faults.primary || !Has(s.table, gone) { t := m; } else { t := WriteIsMachine(s, m, ttl, Deactivated(s.table, gone), c); }
    case Rewrite(table) => t := OneStep(ttl, m, StaleCache.Write(table, c.now));
  }

  // ---------------------------------------------------------------- what the primary answers

  lemma {:induction false} ActiveCounts(table: seq<Promotion>, p: Promotion)
    ensures multiset(Active(table))[p] == if p.active then multiset(table)[p] else 0
  {
    if table != [] {
      assert table == [table[0]] + table[1..];
      ActiveCounts(table[1..], p);
    }
  }

  /** The active promotions, in the table's order: each is listed as often as the table has it, and a promotion at the end
      of the table comes last. */
  lemma {:induction false} ActiveMeaning(table: seq<Promotion>, p: Promotion)
    ensures multiset(Active(table))[p] == if p.active then multiset(table)[p] else 0
    ensures Active(table + [p]) == Active(table) + (if p.active then [p] else [])
  {
    ActiveAppend(table, [p]);
    ActiveCounts(table, p);
  }

  /** A creation adds its promotion and moves none past another; a deactivation touches that promotion alone. */
  lemma WritesExactly(table: seq<Promotion>, p: Promotion, at: nat, id: string)
    ensures
      var k := Min(at, |table|);
      Inserted(table, p, at) == table[..k] + [p] + table[k..]
    ensures multiset(Inserted(table, p, at)) == multiset(table) + multiset{p}
    ensures |Deactivated(table, id)| == |table|
    ensures forall i :: 0 <= i < |table| ==>
              && Deactivated(table, id)[i].id == table[i].id
              && Deactivated(table, id)[i].active == (table[i].active && table[i].id != id)
  {
    var k := Min(at, |table|);
    assert table == table[..k] + table[k..];
  }

  /** A write the primary refuses, as it refuses to deactivate what it does not have, changes neither table nor cache; any
      other drops the cached list, unless just that fails. */
  lemma WritesInvalidate(s: State, id: string, at: nat, f: Faults)
    ensures
      var made, gone := Create(s, id, at, f), Deactivate(s, id, f);
      && (if f.primary then made == s
          else multiset(made.table) == multiset(s.table) + multiset{Promotion(id, true)}
               && made.entry == (if f.cacheDel then s.entry else None))
      && (if f.primary || forall i :: 0 <= i < |s.table| ==> s.table[i].id != id then gone == s
          else NoneActive(gone.table, id) && gone.entry == (if f.cacheDel then s.entry else None))
  {
    WritesExactly(s.table, Promotion(id, true), at, id);
  }

  lemma ActiveFirst(first: Promotion, rest: seq<Promotion>)
    ensures Active([first] + rest) == (if first.active then [first] else []) + Active(rest)
  {
    assert ([first] + rest)[1..] == rest;
  }

  lemma {:induction false} ActiveAppend(a: seq<Promotion>, b: seq<Promotion>)
    ensures Active(a + b) == Active(a) + Active(b)
  {
    if a == [] {
      assert a + b == b;
    } else {
      var first, rest := a[0], a[1..];
      ActiveAppend(rest, b);
      ActiveFirst(first, rest);
      ActiveFirst(first, rest + b);
      assert a == [first] + rest && a + b == [first] + (rest + b);
    }
  }

  /** A creation whose invalidation fails leaves the cache right exactly when it holds nothing, as it always changes the
      list. */
  lemma FailedInvalidationExactly(s: State, id: string, at: nat)
    requires Coherent(s)
    ensures Coherent(Create(s, id, at, Faults(false, false, false, true))) <==> s.entry.None?
  {
    var p := Promotion(id, true);
    var k := if at <= |s.table| then at else |s.table|;
    assert s.table[..k] + s.table[k..] == s.table;
    assert Inserted(s.table, p, at) == s.table[..k] + ([p] + s.table[k..]);
    ActiveAppend(s.table[..k], s.table[k..]);
    ActiveAppend(s.table[..k], [p] + s.table[k..]);
    ActiveAppend([p], s.table[k..]);
    assert |Active(Inserted(s.table, p, at))| == 1 + |Active(s.table)|;
  }

  ghost predicate NoneActive(table: seq<Promotion>, id: string) {
    forall i :: 0 <= i < |table| && table[i].id == id ==> !table[i].active
  }

  lemma {:induction false} DeactivatedActive(table: seq<Promotion>, id: string)
    ensures Active(Deactivated(table, id)) == Active(table) <==> NoneActive(table, id)
    ensures |Active(Deactivated(table, id))| <= |Active(table)|
  {
    if table != [] {
      var first, rest := table[0], table[1..];
      assert Deactivated(table, id)[1..] == Deactivated(rest, id);
      DeactivatedActive(rest, id);
      assert NoneActive(table, id) <==> (first.id == id ==> !first.active) && NoneActive(rest, id) by {
        assert table == [first] + rest;
      }
      var kept, was := Active(Deactivated(rest, id)), Active(rest);
      if !first.active {
        assert Active(Deactivated(table, id)) == kept && Active(table) == was;
      } else if first.id == id {
        assert |Active(Deactivated(table, id))| < |Active(table)|;
      } else {
        assert Active(Deactivated(table, id)) == [first] + kept && Active(table) == [first] + was;
        assert ([first] + kept)[1..] == kept && ([first] + was)[1..] == was;
      }
    }
  }

  /** The same for a deactivation: right exactly when nothing is cached or no such promotion was active. */
  lemma FailedDeactivationExactly(s: State, id: string)
    requires Coherent(s)
    ensures Coherent(Deactivate(s, id, Faults(false, false, false, true))) <==> s.entry.None? || NoneActive(s.table, id)
  {
    DeactivatedActive(s.table, id);
  }
}
