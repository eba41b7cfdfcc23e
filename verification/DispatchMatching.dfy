/** Consuming the trip queue: events and idle drivers are matched one to one, first event to longest-waiting driver. */
module DispatchMatching {
  import opened Common
  import opened Dispatch
  import opened DispatchBooking
  import opened DispatchAgreement

  /** One delivery of an event, with what `FindAvailable` answered when it was handled. */
  datatype Delivery = Delivery(trip: string, found: Option<string>, now: int)

  function Deliver(s: State, ds: seq<Delivery>): State
    decreases |ds|
  {
    if ds == [] then s else Deliver(HandleEvent(s, ds[0].trip, ds[0].found, ds[0].now).0, ds[1..])
  }

  ghost predicate Truthful(s: State, ds: seq<Delivery>)
    decreases |ds|
  {
    ds != [] ==> MayFind(s, ds[0].found) && Truthful(HandleEvent(s, ds[0].trip, ds[0].found, ds[0].now).0, ds[1..])
  }

  /** Every handler call returned nil, so every event is dropped from the queue. */
  ghost predicate AllDropped(s: State, ds: seq<Delivery>)
    decreases |ds|
  {
    ds != [] ==>
      && HandleEvent(s, ds[0].trip, ds[0].found, ds[0].now).1
      && AllDropped(HandleEvent(s, ds[0].trip, ds[0].found, ds[0].now).0, ds[1..])
  }

  ghost function IdleDrivers(s: State): set<string> {
    set d | d in s.drivers && Idle(s, d)
  }

  /** The deliveries are for distinct, existing trips without an active row. */
  ghost predicate Waiting(s: State, ds: seq<Delivery>) {
    && OneRowPerTrip(s.rows) && "" !in s.drivers
    && (forall i :: 0 <= i < |ds| ==> ds[i].trip != "" && ds[i].trip in s.trips)
    && (forall i, j :: 0 <= i < j < |ds| ==> ds[i].trip != ds[j].trip)
    && (forall i, j :: 0 <= i < |ds| && 0 <= j < |s.rows| && Active(s.rows[j]) ==> s.rows[j].trip != ds[i].trip)
  }

  /** Handing a waiting trip to an idle driver takes that driver, and nobody else, out of the idle ones. */
  lemma AssignIdle(s: State, trip: string, driver: string, now: int)
    requires OneRowPerTrip(s.rows) && trip != "" && driver != "" && trip in s.trips && Idle(s, driver)
    requires forall j :: 0 <= j < |s.rows| && Active(s.rows[j]) ==> s.rows[j].trip != trip
    ensures
      var (t, r) := AssignTrip(s, trip, driver, now);
      && r.Ok?
      && t == s.(rows := Put(s.rows, trip, driver, now), trips := s.trips[trip := s.trips[trip].(driver := Some(driver))])
      && OneRowPerTrip(t.rows)
      && IdleDrivers(t) == IdleDrivers(s) - {driver}
      && (forall j :: 0 <= j < |t.rows| && Active(t.rows[j]) && t.rows[j].trip != trip ==> t.rows[j] in s.rows)
  {
    FindActiveMeaning(s.rows, driver);
    var t := AssignTrip(s, trip, driver, now).0;
    PutBecame(s.rows, s.rows, trip, driver, now);
    var j :| 0 <= j < |t.rows| && t.rows[j].trip == trip && t.rows[j].driver == driver && t.rows[j].status == RowPending;
    assert forall i :: 0 <= i < |t.rows| && t.rows[i].trip == trip ==> i == j;
    forall d | d in s.drivers ensures Idle(t, d) <==> Idle(s, d) && d != driver {
      if Idle(s, d) && d != driver {
        forall i | 0 <= i < |t.rows| ensures !(Active(t.rows[i]) && t.rows[i].driver == d) {
          if i != j { assert t.rows[i] == s.rows[i]; }
        }
      }
      if !Idle(s, d) && IsOnline(s, d) {
        var i :| 0 <= i < |s.rows| && Active(s.rows[i]) && s.rows[i].driver == d;
        assert t.rows[i] == s.rows[i];
      }
    }
  }

  lemma {:induction false} Unaffected(s: State, ds: seq<Delivery>, trip: string)
    requires forall i :: 0 <= i < |ds| ==> ds[i].trip != trip
    ensures RowOf(Deliver(s, ds).rows, trip) == RowOf(s.rows, trip)
    ensures trip in Deliver(s, ds).trips <==> trip in s.trips
    ensures trip in s.trips ==> Deliver(s, ds).trips[trip] == s.trips[trip]
    decreases |ds|
  {
    if ds != [] {
      var t := HandleEvent(s, ds[0].trip, ds[0].found, ds[0].now).0;
      if ds[0].found.Some? { RowOfPut(s.rows, ds[0].trip, ds[0].found.value, ds[0].now, trip); }
      Unaffected(t, ds[1..], trip);
    }
  }

  lemma StepWaiting(s: State, ds: seq<Delivery>)
    requires ds != [] && Waiting(s, ds) && MayFind(s, ds[0].found)
    ensures
      var (t, dropped) := HandleEvent(s, ds[0].trip, ds[0].found, ds[0].now);
      && dropped && Waiting(t, ds[1..]) && t.statuses == s.statuses
      && match ds[0].found
         case None => t == s && IdleDrivers(s) == {}
         case Some(d) =>
           && d in IdleDrivers(s) && IdleDrivers(t) == IdleDrivers(s) - {d}
           && d in s.statuses
           && (forall e :: e in IdleDrivers(s) ==> e in s.statuses && s.statuses[d].updatedAt <= s.statuses[e].updatedAt)
           && t.rows == Put(s.rows, ds[0].trip, d, ds[0].now)
           && t.trips == s.trips[ds[0].trip := s.trips[ds[0].trip].(driver := Some(d))]
  {
    FindAvailableMeaning(s, ds[0].found);
    if ds[0].found.Some? {
      AssignIdle(s, ds[0].trip, ds[0].found.value, ds[0].now);
    }
  }

  /** The state after the deliveries gives each matched trip to the driver found for it, pending. */
  ghost predicate Assigned(t: State, d: Delivery) {
    && d.found.Some? && d.trip in t.trips
    && t.trips[d.trip].driver == d.found
    && RowOf(t.rows, d.trip) == Some(Row(d.trip, d.found.value, RowPending, d.now))
  }

  /** The drivers found are idle ones, pairwise distinct, and exactly the first `min(n, m)` deliveries found one. */
  ghost predicate FirstMin(s: State, ds: seq<Delivery>) {
    && (forall i :: 0 <= i < |ds| ==> (ds[i].found.Some? <==> i < Min(|ds|, |IdleDrivers(s)|)))
    && (forall i :: 0 <= i < |ds| && ds[i].found.Some? ==> ds[i].found.value in IdleDrivers(s))
    && (forall i, j :: 0 <= i < j < |ds| && ds[i].found.Some? ==> ds[i].found != ds[j].found)
  }

  lemma {:induction false} MatchesFirst(s: State, ds: seq<Delivery>)
    requires Waiting(s, ds) && Truthful(s, ds)
    ensures AllDropped(s, ds) && FirstMin(s, ds)
    decreases |ds|
  {
    if ds != [] {
      var rest := ds[1..];
      var t := HandleEvent(s, ds[0].trip, ds[0].found, ds[0].now).0;
      StepWaiting(s, ds);
      MatchesFirst(t, rest);
      assert forall i :: 0 < i < |ds| ==> ds[i] == rest[i - 1];
      assert ds[0].found.Some? ==> |IdleDrivers(t)| == |IdleDrivers(s)| - 1;
    }
  }

  /** No delivery before `i` was given driver `e`. */
  ghost predicate StillIdle(ds: seq<Delivery>, i: nat, e: string)
    requires i <= |ds|
  {
    forall j :: 0 <= j < i ==> ds[j].found != Some(e)
  }

  /** The driver matched by delivery `i` had waited at least as long as any idle driver not matched before it. */
  lemma {:induction false} LongestWaitingFirst(s: State, ds: seq<Delivery>, i: nat, e: string)
    requires Waiting(s, ds) && Truthful(s, ds)
    requires i < |ds| && ds[i].found.Some? && e in IdleDrivers(s) && StillIdle(ds, i, e)
    ensures ds[i].found.value in s.statuses && e in s.statuses
    ensures s.statuses[ds[i].found.value].updatedAt <= s.statuses[e].updatedAt
    decreases |ds|
  {
    StepWaiting(s, ds);
    if i > 0 {
      var t := HandleEvent(s, ds[0].trip, ds[0].found, ds[0].now).0;
      assert ds[0].found != Some(e);
      assert forall j :: 0 <= j < i ==> ds[1..][j] == ds[j + 1];
      LongestWaitingFirst(t, ds[1..], i - 1, e);
    }
  }

  /** Afterwards a matched trip is pending with its driver, and an unmatched one is as it was. */
  lemma {:induction false} TripsAfter(s: State, ds: seq<Delivery>, i: nat)
    requires Waiting(s, ds) && Truthful(s, ds) && i < |ds|
    ensures
      var t := Deliver(s, ds);
      if ds[i].found.Some? then Assigned(t, ds[i])
      else
        && RowOf(t.rows, ds[i].trip) == RowOf(s.rows, ds[i].trip)
        && ds[i].trip in s.trips && ds[i].trip in t.trips && t.trips[ds[i].trip] == s.trips[ds[i].trip]
    decreases |ds|
  {
    StepWaiting(s, ds);
    var t := HandleEvent(s, ds[0].trip, ds[0].found, ds[0].now).0;
    if ds[0].found.Some? { RowOfPut(s.rows, ds[0].trip, ds[0].found.value, ds[0].now, ds[i].trip); }
    if i == 0 {
      Unaffected(t, ds[1..], ds[0].trip);
    } else {
      assert ds[1..][i - 1] == ds[i];
      TripsAfter(t, ds[1..], i - 1);
    }
  }

  /** `n` events for distinct, existing, unassigned trips and `m` idle drivers: exactly the first `min(n, m)` events in
      delivery order are matched, to pairwise distinct idle drivers, each the longest waiting of those left, and all are
      dropped without error. */
  lemma {:induction false} MatchesMin(s: State, ds: seq<Delivery>)
    requires Waiting(s, ds) && Truthful(s, ds)
    ensures AllDropped(s, ds) && FirstMin(s, ds)
    ensures forall i, e :: 0 <= i < |ds| && ds[i].found.Some? && e in IdleDrivers(s) && StillIdle(ds, i, e) ==>
              ds[i].found.value in s.statuses && e in s.statuses
              && s.statuses[ds[i].found.value].updatedAt <= s.statuses[e].updatedAt
    ensures forall i :: 0 <= i < |ds| && ds[i].found.Some? ==> Assigned(Deliver(s, ds), ds[i])
    ensures forall i :: 0 <= i < |ds| && ds[i].found.None? ==>
              RowOf(Deliver(s, ds).rows, ds[i].trip) == RowOf(s.rows, ds[i].trip)
  {
    MatchesFirst(s, ds);
    forall i, e | 0 <= i < |ds| && ds[i].found.Some? && e in IdleDrivers(s) && StillIdle(ds, i, e)
      ensures ds[i].found.value in s.statuses && e in s.statuses
      ensures s.statuses[ds[i].found.value].updatedAt <= s.statuses[e].updatedAt
    {
      LongestWaitingFirst(s, ds, i, e);
    }
    forall i | 0 <= i < |ds|
      ensures ds[i].found.Some? ==> Assigned(Deliver(s, ds), ds[i])
      ensures ds[i].found.None? ==> RowOf(Deliver(s, ds).rows, ds[i].trip) == RowOf(s.rows, ds[i].trip)
    {
      TripsAfter(s, ds, i);
    }
  }
}
