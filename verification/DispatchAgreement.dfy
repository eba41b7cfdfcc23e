/** The trip's driver and the trip's assignment row tell the same story. */
module DispatchAgreement {
  import opened Common
  import opened Dispatch
  import opened DispatchBooking

  /** The driver a row stands for: a declined row stands for nobody. */
  function DriverOf(row: Option<Row>): Option<string> {
    match row
    case None => None
    case Some(r) => if r.status.RowDeclined? then None else Some(r.driver)
  }

  ghost predicate AgreeOn(s: State, trip: string) {
    trip in s.trips ==> s.trips[trip].driver == DriverOf(RowOf(s.rows, trip))
  }

  ghost predicate Agree(s: State) { forall trip :: AgreeOn(s, trip) }

  // ---------------------------------------------------------------- rows after a write

  lemma {:induction false} RowOfAppend(rows: seq<Row>, r: Row, trip: string)
    ensures RowOf(rows + [r], trip) ==
            if RowOf(rows, trip).Some? then RowOf(rows, trip) else if r.trip == trip then Some(r) else None
  {
    if rows == [] {
      assert rows + [r] == [r];
    } else {
      assert (rows + [r])[1..] == rows[1..] + [r];
      RowOfAppend(rows[1..], r, trip);
    }
  }

  lemma {:induction false} RowOfReassigned(rows: seq<Row>, t: string, driver: string, now: int, trip: string)
    ensures RowOf(Reassigned(rows, t, driver, now), trip) ==
            if trip == t && RowOf(rows, t).Some? then Some(Row(t, driver, RowPending, now)) else RowOf(rows, trip)
  {
    if rows != [] {
      assert Reassigned(rows, t, driver, now)[1..] == Reassigned(rows[1..], t, driver, now);
      RowOfReassigned(rows[1..], t, driver, now, trip);
    }
  }

  lemma RowOfPut(rows: seq<Row>, t: string, driver: string, now: int, trip: string)
    ensures RowOf(Put(rows, t, driver, now), trip) ==
            if trip == t then Some(Row(t, driver, RowPending, now)) else RowOf(rows, trip)
  {
    RowOfReassigned(rows, t, driver, now, trip);
    RowOfAppend(rows, Row(t, driver, RowPending, now), trip);
  }

  lemma {:induction false} RowOfMarked(rows: seq<Row>, t: string, driver: string, status: RowStatus, now: int, trip: string)
    ensures RowOf(Marked(rows, t, driver, status, now), trip) ==
            if trip == t && RowOf(rows, t).Some? && RowOf(rows, t).value.driver == driver
            then Some(Row(t, driver, status, now)) else RowOf(rows, trip)
  {
    if rows != [] {
      assert Marked(rows, t, driver, status, now)[1..] == Marked(rows[1..], t, driver, status, now);
      RowOfMarked(rows[1..], t, driver, status, now, trip);
    }
  }

  // ---------------------------------------------------------------- calls that always keep the agreement

  lemma AssignTripAgrees(s: State, trip: string, driver: string, now: int)
    requires Agree(s)
    ensures Agree(AssignTrip(s, trip, driver, now).0)
  {
    forall t ensures AgreeOn(AssignTrip(s, trip, driver, now).0, t) {
      assert AgreeOn(s, t);
      RowOfPut(s.rows, trip, driver, now, t);
    }
  }

  lemma TakeOverAgrees(s: State, trip: string, driver: string, now: int)
    requires Agree(s) && trip in s.trips
    ensures Agree(TakeOver(s, trip, driver, now).0)
    ensures TakeOver(s, trip, driver, now).1.Ok? ==>
              TakeOver(s, trip, driver, now).0.trips == s.trips[trip := s.trips[trip].(driver := Some(driver))]
  {
    if s.trips[trip].driver == Some(driver) {
      assert s.trips == s.trips[trip := s.trips[trip].(driver := Some(driver))];
    }
    forall t ensures AgreeOn(TakeOver(s, trip, driver, now).0, t) {
      assert AgreeOn(s, t);
      RowOfPut(s.rows, trip, driver, now, t);
    }
  }

  /** A trip's own driver can always advance it: the row is theirs and not declined. */
  lemma ProgressAgrees(s: State, trip: string, driver: string, next: TripStatus, now: int)
    requires Agree(s) && OneRowPerTrip(s.rows) && trip in s.trips && s.trips[trip].driver == Some(driver)
    ensures Agree(Progress(s, trip, driver, next, now).0) && Progress(s, trip, driver, next, now).1.Ok?
  {
    assert AgreeOn(s, trip);
    var row := RowOf(s.rows, trip).value;
    OwnRow(s.rows, trip, driver);
    var promote := !next.Cancelled? && !row.status.RowAccepted?;
    var rows1 := if promote then Marked(s.rows, trip, driver, RowAccepted, now) else s.rows;
    var close := next.Completed? || next.Cancelled?;
    assert HasRow(rows1, trip, driver) by { MarkedHasRow(s.rows, trip, driver, RowAccepted, now); }
    var rows2 := if close then Marked(rows1, trip, driver, RowCancelled, now) else rows1;
    var t := Progress(s, trip, driver, next, now).0;
    assert t == s.(rows := rows2, trips := s.trips[trip := s.trips[trip].(status := next)]);
    forall k ensures AgreeOn(t, k) {
      assert AgreeOn(s, k);
      RowOfMarked(s.rows, trip, driver, RowAccepted, now, k);
      RowOfMarked(s.rows, trip, driver, RowAccepted, now, trip);
      RowOfMarked(rows1, trip, driver, RowCancelled, now, k);
    }
  }

  lemma MarkedHasRow(rows: seq<Row>, trip: string, driver: string, status: RowStatus, now: int)
    requires HasRow(rows, trip, driver)
    ensures HasRow(Marked(rows, trip, driver, status, now), trip, driver)
  {
    var i :| 0 <= i < |rows| && rows[i].trip == trip && rows[i].driver == driver;
    assert Marked(rows, trip, driver, status, now)[i].trip == trip;
  }

  /** `UpdateTripStatus` keeps the agreement whoever calls it, refused transitions after an auto-assignment included. */
  lemma AdvanceAgrees(s: State, trip: string, driver: string, next: TripStatus, now: int)
    requires Agree(s) && OneRowPerTrip(s.rows)
    ensures Agree(UpdateTripStatus(s, trip, driver, next, now).0)
  {
    if trip in s.trips && Settable(next) {
      TakeOverAgrees(s, trip, driver, now);
      TakeOverBecame(s, trip, driver, now);
      var (s1, r) := TakeOver(s, trip, driver, now);
      if r.Ok? { ProgressAgrees(s1, trip, driver, next, now); }
    }
  }

  // ---------------------------------------------------------------- calls that keep it on a condition

  /** Accepting keeps the agreement exactly unless the caller declined this very row before. */
  lemma AcceptAgreesExactly(s: State, trip: string, driver: string, now: int)
    requires Agree(s) && OneRowPerTrip(s.rows) && RowsRefer(s)
    ensures Agree(AcceptTrip(s, trip, driver, now).0) <==>
            !(RowOf(s.rows, trip).Some? && RowOf(s.rows, trip).value.driver == driver
              && RowOf(s.rows, trip).value.status.RowDeclined?)
  {
    var t := AcceptTrip(s, trip, driver, now).0;
    OwnRow(s.rows, trip, driver);
    assert AgreeOn(s, trip);
    if HasRow(s.rows, trip, driver) {
      forall k { RowOfMarked(s.rows, trip, driver, RowAccepted, now, k); }
      assert trip in s.trips;
      forall k | k != trip ensures AgreeOn(t, k) { assert AgreeOn(s, k); }
      assert AgreeOn(t, trip) <==> !RowOf(s.rows, trip).value.status.RowDeclined?;
    } else if trip in s.trips && driver in s.drivers {
      var rows := Put(s.rows, trip, driver, now);
      PutBecame(s.rows, s.rows, trip, driver, now);
      MarkBecame(s.rows, rows, trip, driver, RowPending, RowAccepted, now);
      forall k ensures AgreeOn(t, k) {
        assert AgreeOn(s, k);
        RowOfPut(s.rows, trip, driver, now, k);
        RowOfPut(s.rows, trip, driver, now, trip);
        RowOfMarked(rows, trip, driver, RowAccepted, now, k);
      }
    }
  }

  /** Declining keeps it exactly when the row is the caller's or the trip has no driver to lose: a stray decline clears
      the driver of a trip somebody else holds. */
  lemma DeclineAgreesExactly(s: State, trip: string, driver: string, now: int)
    requires Agree(s) && OneRowPerTrip(s.rows) && RowsRefer(s)
    ensures Agree(DeclineTrip(s, trip, driver, now).0) <==>
            || HasRow(s.rows, trip, driver)
            || trip !in s.trips || s.trips[trip].driver == None
  {
    var t := DeclineTrip(s, trip, driver, now).0;
    OwnRow(s.rows, trip, driver);
    assert AgreeOn(s, trip);
    if HasRow(s.rows, trip, driver) {
      forall k ensures AgreeOn(t, k) {
        assert AgreeOn(s, k);
        RowOfMarked(s.rows, trip, driver, RowDeclined, now, k);
      }
    } else {
      forall k | k != trip ensures AgreeOn(t, k) { assert AgreeOn(s, k); }
      assert AgreeOn(t, trip) <==> (trip !in s.trips || s.trips[trip].driver == None);
    }
  }

  /** Purging the rows keeps it exactly when no trip has a driver. */
  lemma ClearAgreesExactly(s: State)
    requires Agree(s)
    ensures Agree(s.(rows := [])) <==> forall trip :: trip in s.trips ==> s.trips[trip].driver == None
  {
    var t := s.(rows := []);
    if Agree(t) {
      forall trip | trip in s.trips ensures s.trips[trip].driver == None { assert AgreeOn(t, trip); }
    }
  }

  // ---------------------------------------------------------------- runs

  /** No driver accepts a row they declined, declines come from the row's driver or hit a trip without one, and rows are
      purged only while no trip has a driver. */
  ghost predicate Careful(s: State, op: Op) {
    match op
    case Accept(trip, driver) =>
      !(RowOf(s.rows, trip).Some? && RowOf(s.rows, trip).value.driver == driver
        && RowOf(s.rows, trip).value.status.RowDeclined?)
    case Decline(trip, driver) => HasRow(s.rows, trip, driver) || trip !in s.trips || s.trips[trip].driver == None
    case ClearAssignments => forall trip :: trip in s.trips ==> s.trips[trip].driver == None
    case _ => true
  }

  ghost predicate AllCareful(calls: seq<Call>) {
    calls != [] ==> AllCareful(calls[..|calls| - 1]) && Careful(Run(calls[..|calls| - 1]), calls[|calls| - 1].op)
  }

  /** One call keeps the agreement if and only if it is careful. */
  lemma StepAgreesExactly(s: State, op: Op, now: int)
    requires Agree(s) && OneRowPerTrip(s.rows) && RowsRefer(s)
    ensures Agree(Step(s, op, now).0) <==> Careful(s, op)
  {
    var t := Step(s, op, now).0;
    match op
    case AddTrip(trip) =>
      RowOfMeaning(s.rows, trip);
      forall k ensures AgreeOn(t, k) { assert AgreeOn(s, k); }
    case Register(_) => forall k ensures AgreeOn(t, k) { assert AgreeOn(s, k); }
    case SetAvailability(_, _) => forall k ensures AgreeOn(t, k) { assert AgreeOn(s, k); }
    case AssignTo(trip, driver) => AssignTripAgrees(s, trip, driver, now);
    case AssignAny(trip, found) => if found.Some? { AssignTripAgrees(s, trip, found.value, now); }
    case Accept(trip, driver) => AcceptAgreesExactly(s, trip, driver, now);
    case Decline(trip, driver) => DeclineAgreesExactly(s, trip, driver, now);
    case Advance(trip, driver, next) => AdvanceAgrees(s, trip, driver, next, now);
    case ClearAssignments => ClearAgreesExactly(s);
  }

  lemma {:induction false} RunsAgree(calls: seq<Call>)
    requires AllCareful(calls)
    ensures Agree(Run(calls))
  {
    if calls != [] {
      RunsAgree(calls[..|calls| - 1]);
      RowsAlwaysRefer(calls[..|calls| - 1]);
      StepAgreesExactly(Run(calls[..|calls| - 1]), calls[|calls| - 1].op, calls[|calls| - 1].now);
    }
  }

  /** In every run of careful calls: a trip with a driver has that driver's row, and the driver of an active row is the
      driver of its trip. */
  lemma {:induction false} TripAndAssignmentAgree(calls: seq<Call>, i: nat, trip: string)
    requires AllCareful(calls)
    ensures
      var s := Run(calls);
      && (trip in s.trips && s.trips[trip].driver.Some? ==> HasRow(s.rows, trip, s.trips[trip].driver.value))
      && (i < |s.rows| && Active(s.rows[i]) ==>
            s.rows[i].trip in s.trips && s.trips[s.rows[i].trip].driver == Some(s.rows[i].driver))
  {
    RunsAgree(calls);
    RowsAlwaysRefer(calls);
    var s := Run(calls);
    assert AgreeOn(s, trip);
    RowOfMeaning(s.rows, trip);
    if i < |s.rows| {
      RowOfUnique(s.rows, i);
      assert AgreeOn(s, s.rows[i].trip);
    }
  }

  /** A decline by a driver who never had the trip leaves the busy driver's row standing and the trip without a driver. */
  lemma StrayDecline()
    ensures
      var t := DeclineTrip(BUSY, "a", "e", 3).0;
      && Run(BusyCalls(5)) == BUSY && Agree(BUSY) && !Agree(t)
      && t.trips["a"].driver == None && t.rows == BUSY.rows
  {
    BusyReached();
    assert AllCareful(BusyCalls(2));
    assert AllCareful(BusyCalls(5));
    RunsAgree(BusyCalls(5));
    RowsAlwaysRefer(BusyCalls(5));
    DeclineAgreesExactly(BUSY, "a", "e", 3);
  }
}
