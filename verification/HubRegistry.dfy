/** `HubManager.get` of `handlers/ws.go`: any number of callers under a read/write lock, interleaved line by line. */
module HubRegistry {
  import opened Common

  /** Where a caller stands.  `Looked` still holds the read lock, `Writing` and `Rechecked` hold the write lock. */
  datatype Stage =
    | Calling
    | ReadLocked
    | Looked(found: Option<nat>)
    | Missed
    | Writing
    | Rechecked(found: Option<nat>)
    | Returned(hub: nat)

  datatype Caller = Caller(trip: string, stage: Stage)

  /** `created[h]` is the trip hub `h` was made for. */
  datatype State = State(
    hubs: map<string, nat>, created: seq<string>, callers: map<nat, Caller>, readers: set<nat>, writer: Option<nat>)

  const INIT := State(map[], [], map[], {}, None)

  datatype Step =
    | Call(id: nat, trip: string)
    | RLock(id: nat)
    | Look(id: nat)
    | RUnlock(id: nat)
    | Lock(id: nat)
    | Recheck(id: nat)
    | Create(id: nat)
    | Unlock(id: nat)

  ghost predicate Enabled(s: State, step: Step) {
    match step
    case Call(id, _) => id !in s.callers
    case RLock(id) => id in s.callers && s.callers[id].stage.Calling? && s.writer.None?
    case Look(id) => id in s.callers && s.callers[id].stage.ReadLocked?
    case RUnlock(id) => id in s.callers && s.callers[id].stage.Looked?
    case Lock(id) => id in s.callers && s.callers[id].stage.Missed? && s.writer.None? && s.readers == {}
    case Recheck(id) => id in s.callers && s.callers[id].stage.Writing?
    case Create(id) => id in s.callers && s.callers[id].stage == Rechecked(None)
    case Unlock(id) => id in s.callers && s.callers[id].stage.Rechecked? && s.callers[id].stage.found.Some?
  }

  function Lookup(s: State, trip: string): Option<nat> {
    if trip in s.hubs then Some(s.hubs[trip]) else None
  }

  function At(s: State, id: nat, stage: Stage): State
    requires id in s.callers
  {
    s.(callers := s.callers[id := s.callers[id].(stage := stage)])
  }

  function Next(s: State, step: Step): State
    requires Enabled(s, step)
  {
    match step
    case Call(id, trip) => s.(callers := s.callers[id := Caller(trip, Calling)])
    case RLock(id) => At(s, id, ReadLocked).(readers := s.readers + {id})
    case Look(id) => At(s, id, Looked(Lookup(s, s.callers[id].trip)))
    case RUnlock(id) =>
      (match s.callers[id].stage.found
       case Some(h) => At(s, id, Returned(h))
       case None => At(s, id, Missed)).(readers := s.readers - {id})
    case Lock(id) => At(s, id, Writing).(writer := Some(id))
    case Recheck(id) => At(s, id, Rechecked(Lookup(s, s.callers[id].trip)))
    case Create(id) =>
      var trip, hub := s.callers[id].trip, |s.created|;
      At(s, id, Rechecked(Some(hub))).(hubs := s.hubs[trip := hub], created := s.created + [trip])
    case Unlock(id) => At(s, id, Returned(s.callers[id].stage.found.value)).(writer := None)
  }

  ghost predicate Legal(steps: seq<Step>) {
    steps != [] ==> Legal(steps[..|steps| - 1]) && Enabled(Run(steps[..|steps| - 1]), steps[|steps| - 1])
  }

  ghost function Run(steps: seq<Step>): State {
    if steps == [] then INIT
    else
      var before := Run(steps[..|steps| - 1]);
      if Enabled(before, steps[|steps| - 1]) then Next(before, steps[|steps| - 1]) else before
  }

  predicate Reads(stage: Stage) { stage.ReadLocked? || stage.Looked? }

  predicate Writes(stage: Stage) { stage.Writing? || stage.Rechecked? }

  ghost predicate CallerOk(s: State, id: nat)
    requires id in s.callers
  {
    var Caller(trip, stage) := s.callers[id];
    && (Reads(stage) <==> id in s.readers)
    && (Writes(stage) <==> s.writer == Some(id))
    && (stage.Looked? && stage.found.Some? ==> Lookup(s, trip) == stage.found)
    && (stage.Rechecked? ==> Lookup(s, trip) == stage.found)
    && (stage.Returned? ==> Lookup(s, trip) == Some(stage.hub))
  }

  ghost predicate Invariant(s: State) {
    && (forall id :: id in s.callers ==> CallerOk(s, id))
    && (s.writer.Some? ==> s.readers == {} && s.writer.value in s.callers)
    && (forall id :: id in s.readers ==> id in s.callers)
    && (forall trip :: trip in s.hubs ==> s.hubs[trip] < |s.created| && s.created[s.hubs[trip]] == trip)
    && (forall h :: 0 <= h < |s.created| ==> s.created[h] in s.hubs && s.hubs[s.created[h]] == h)
  }

  lemma CallerKeeps(s: State, step: Step, id: nat)
    requires Invariant(s) && Enabled(s, step) && id in Next(s, step).callers
    ensures CallerOk(Next(s, step), id)
  {
    assert id in s.callers ==> CallerOk(s, id);
    assert step.id in s.callers ==> CallerOk(s, step.id);
  }

  lemma StepKeeps(s: State, step: Step)
    requires Invariant(s) && Enabled(s, step)
    ensures Invariant(Next(s, step))
  {
    var t := Next(s, step);
    forall id | id in t.callers ensures CallerOk(t, id) {
      CallerKeeps(s, step, id);
    }
    assert step.id in s.callers ==> CallerOk(s, step.id);
  }

  lemma {:induction false} Invariants(steps: seq<Step>)
    requires Legal(steps)
    ensures Invariant(Run(steps))
  {
    if steps != [] {
      Invariants(steps[..|steps| - 1]);
      StepKeeps(Run(steps[..|steps| - 1]), steps[|steps| - 1]);
    }
  }

  /** All callers for a trip get the same hub, and it is the only hub ever created for that trip. */
  lemma OneHubPerTrip(steps: seq<Step>, a: nat, b: nat)
    requires Legal(steps) && a in Run(steps).callers && b in Run(steps).callers
    requires Run(steps).callers[a].trip == Run(steps).callers[b].trip
    requires Run(steps).callers[a].stage.Returned? && Run(steps).callers[b].stage.Returned?
    ensures
      var s := Run(steps);
      var hub := s.callers[a].stage.hub;
      && s.callers[b].stage.hub == hub && hub < |s.created|
      && forall h :: 0 <= h < |s.created| ==> (s.created[h] == s.callers[a].trip <==> h == hub)
  {
    Invariants(steps);
    var s := Run(steps);
    assert CallerOk(s, a) && CallerOk(s, b);
  }

  /** The map is never written while another caller reads or writes it. */
  lemma NoRace(steps: seq<Step>, a: nat, b: nat)
    requires Legal(steps) && a in Run(steps).callers && b in Run(steps).callers && a != b
    requires Writes(Run(steps).callers[a].stage)
    ensures !Reads(Run(steps).callers[b].stage) && !Writes(Run(steps).callers[b].stage)
  {
    Invariants(steps);
    assert CallerOk(Run(steps), a) && CallerOk(Run(steps), b);
  }

  /** A caller that found the hub returns it on releasing the read lock, and never waits for the write lock. */
  lemma FoundReturns(steps: seq<Step>, id: nat)
    requires Legal(steps) && id in Run(steps).callers
    requires Run(steps).callers[id].stage.Looked? && Run(steps).callers[id].stage.found.Some?
    ensures
      var s := Run(steps);
      && Enabled(s, RUnlock(id)) && s.callers[id].trip in s.hubs
      && Next(s, RUnlock(id)).callers[id].stage == Returned(s.hubs[s.callers[id].trip])
      && Next(s, RUnlock(id)).readers == s.readers - {id}
  {
    Invariants(steps);
    assert CallerOk(Run(steps), id);
  }

  /** What a caller does when nobody holds the lock. */
  ghost function GetAlone(s: State, id: nat, trip: string): State
    requires Invariant(s) && Enabled(s, Call(id, trip)) && s.readers == {} && s.writer.None?
  {
    var called := Next(s, Call(id, trip));
    var looked := Next(Next(called, RLock(id)), Look(id));
    var released := Next(looked, RUnlock(id));
    if released.callers[id].stage.Returned? then released
    else
      var checked := Next(Next(released, Lock(id)), Recheck(id));
      Next(if checked.callers[id].stage.found.None? then Next(checked, Create(id)) else checked, Unlock(id))
  }

  /** A caller that is let through returns: with the trip's hub if there is one, else with a new one that is the trip's
      from then on.  It releases the lock, and no other trip's hub changes. */
  lemma GetReturns(s: State, id: nat, trip: string)
    requires Invariant(s) && Enabled(s, Call(id, trip)) && s.readers == {} && s.writer.None?
    ensures
      var t := GetAlone(s, id, trip);
      var hub := if trip in s.hubs then s.hubs[trip] else |s.created|;
      && id in t.callers && t.callers[id] == Caller(trip, Returned(hub))
      && t.hubs == s.hubs[trip := hub]
      && t.created == (if trip in s.hubs then s.created else s.created + [trip])
      && t.readers == {} && t.writer.None?
  {
    assert {} + {id} - {id} == s.readers;
    if trip in s.hubs { assert s.hubs == s.hubs[trip := s.hubs[trip]]; }
  }
}
