/** No driver is booked twice: at most one row per trip and at most one pending or accepted row per driver. */
module DispatchBooking {
  import opened Common
  import opened Dispatch

  ghost predicate OneRowPerTrip(rows: seq<Row>) {
    forall i, j :: 0 <= i < j < |rows| ==> rows[i].trip != rows[j].trip
  }

  ghost predicate OneActivePerDriver(rows: seq<Row>) {
    forall i, j :: 0 <= i < j < |rows| && Active(rows[i]) && Active(rows[j]) ==> rows[i].driver != rows[j].driver
  }

  ghost predicate Booked(rows: seq<Row>) { OneRowPerTrip(rows) && OneActivePerDriver(rows) }

  /** The driver has no active row for another trip. */
  ghost predicate Free(rows: seq<Row>, driver: string, trip: string) {
    forall i :: 0 <= i < |rows| && Active(rows[i]) && rows[i].driver == driver ==> rows[i].trip == trip
  }

  /** The driver holds the trip's active row. */
  ghost predicate Holder(rows: seq<Row>, driver: string, trip: string) {
    exists i :: 0 <= i < |rows| && Active(rows[i]) && rows[i].driver == driver && rows[i].trip == trip
  }

  lemma HolderIsFree(rows: seq<Row>, driver: string, trip: string)
    requires Booked(rows) && Holder(rows, driver, trip)
    ensures Free(rows, driver, trip)
  {
    var i :| 0 <= i < |rows| && Active(rows[i]) && rows[i].driver == driver && rows[i].trip == trip;
    assert forall j :: 0 <= j < |rows| && Active(rows[j]) && rows[j].driver == driver ==> j == i;
  }

  // ---------------------------------------------------------------- what the queries mean

  lemma {:induction false} RowOfMeaning(rows: seq<Row>, trip: string)
    ensures RowOf(rows, trip).None? <==> forall i :: 0 <= i < |rows| ==> rows[i].trip != trip
    ensures RowOf(rows, trip).Some? ==>
              exists i :: 0 <= i < |rows| && rows[i] == RowOf(rows, trip).value && rows[i].trip == trip
  {
    if rows != [] && rows[0].trip != trip {
      RowOfMeaning(rows[1..], trip);
      assert forall i :: 0 < i < |rows| ==> rows[i] == rows[1..][i - 1];
      if RowOf(rows, trip).Some? {
        var i :| 0 <= i < |rows[1..]| && rows[1..][i] == RowOf(rows, trip).value && rows[1..][i].trip == trip;
        assert rows[i + 1] == RowOf(rows, trip).value;
      }
    }
  }

  lemma RowOfUnique(rows: seq<Row>, i: nat)
    requires OneRowPerTrip(rows) && i < |rows|
    ensures RowOf(rows, rows[i].trip) == Some(rows[i])
  {
    RowOfMeaning(rows, rows[i].trip);
  }

  lemma {:induction false} FindActiveMeaning(rows: seq<Row>, driver: string)
    ensures FindActive(rows, driver).None? <==>
            forall i :: 0 <= i < |rows| ==> !(Active(rows[i]) && rows[i].driver == driver)
    ensures FindActive(rows, driver).Some? ==>
              && Active(FindActive(rows, driver).value) && FindActive(rows, driver).value.driver == driver
              && FindActive(rows, driver).value in rows
              && forall i :: 0 <= i < |rows| && Active(rows[i]) && rows[i].driver == driver ==>
                               rows[i].updatedAt <= FindActive(rows, driver).value.updatedAt
  {
    if rows != [] {
      FindActiveMeaning(rows[1..], driver);
      assert forall i :: 0 < i < |rows| ==> rows[i] == rows[1..][i - 1];
    }
  }

  /** The conflict check of `AssignTrip` passes exactly for the drivers who are free for the trip. */
  lemma ConflictCheckIsFree(rows: seq<Row>, driver: string, trip: string)
    requires Booked(rows)
    ensures (FindActive(rows, driver).Some? ==> FindActive(rows, driver).value.trip == trip) <==> Free(rows, driver, trip)
  {
    FindActiveMeaning(rows, driver);
    if FindActive(rows, driver).Some? && FindActive(rows, driver).value.trip == trip {
      var i :| 0 <= i < |rows| && rows[i] == FindActive(rows, driver).value;
      HolderIsFree(rows, driver, trip);
    }
  }

  // ---------------------------------------------------------------- what the writes do

  /** `after` differs from `before` only in the row of `trip`, which now belongs to `driver` with `status`. */
  ghost predicate Became(before: seq<Row>, after: seq<Row>, trip: string, driver: string, status: RowStatus) {
    && OneRowPerTrip(after) && |before| <= |after|
    && (forall i :: 0 <= i < |before| && before[i].trip != trip ==> after[i] == before[i])
    && (forall i :: 0 <= i < |after| && after[i].trip != trip ==> i < |before| && after[i] == before[i])
    && (exists i :: 0 <= i < |after| && after[i].trip == trip && after[i].driver == driver && after[i].status == status)
  }

  lemma PutBecame(before: seq<Row>, rows: seq<Row>, trip: string, driver: string, now: int)
    requires OneRowPerTrip(rows) && |before| <= |rows|
    requires forall i :: 0 <= i < |before| && before[i].trip != trip ==> rows[i] == before[i]
    requires forall i :: 0 <= i < |rows| && rows[i].trip != trip ==> i < |before| && rows[i] == before[i]
    ensures Became(before, Put(rows, trip, driver, now), trip, driver, RowPending)
  {
    RowOfMeaning(rows, trip);
    var after := Put(rows, trip, driver, now);
    if RowOf(rows, trip).None? {
      assert after[|rows|] == Row(trip, driver, RowPending, now);
    } else {
      var i :| 0 <= i < |rows| && rows[i].trip == trip;
      assert after[i] == Row(trip, driver, RowPending, now);
    }
  }

  lemma MarkBecame(before: seq<Row>, rows: seq<Row>, trip: string, driver: string, was: RowStatus, status: RowStatus, now: int)
    requires Became(before, rows, trip, driver, was)
    ensures HasRow(rows, trip, driver)
    ensures Became(before, Marked(rows, trip, driver, status, now), trip, driver, status)
  {
    var after := Marked(rows, trip, driver, status, now);
    var i :| 0 <= i < |rows| && rows[i].trip == trip && rows[i].driver == driver && rows[i].status == was;
    assert after[i] == Row(trip, driver, status, now);
    assert forall j :: 0 <= j < |rows| ==> after[j].trip == rows[j].trip;
  }

  lemma UntouchedBecame(rows: seq<Row>, trip: string, driver: string)
    requires OneRowPerTrip(rows) && HasRow(rows, trip, driver)
    ensures RowOf(rows, trip).Some? && RowOf(rows, trip).value.driver == driver
    ensures Became(rows, rows, trip, driver, RowOf(rows, trip).value.status)
  {
    var i :| 0 <= i < |rows| && rows[i].trip == trip && rows[i].driver == driver;
    RowOfUnique(rows, i);
  }

  lemma OwnRow(rows: seq<Row>, trip: string, driver: string)
    requires OneRowPerTrip(rows)
    ensures HasRow(rows, trip, driver) <==> RowOf(rows, trip).Some? && RowOf(rows, trip).value.driver == driver
  {
    RowOfMeaning(rows, trip);
    if HasRow(rows, trip, driver) { UntouchedBecame(rows, trip, driver); }
  }

  /** Handing a trip's row to a driver books nobody twice exactly when the row is inactive or the driver was free. */
  lemma Verdict(before: seq<Row>, after: seq<Row>, trip: string, driver: string, status: RowStatus)
    requires Booked(before) && Became(before, after, trip, driver, status)
    ensures Booked(after) <==> !Active(Row(trip, driver, status, 0)) || Free(before, driver, trip)
  {
    var j :| 0 <= j < |after| && after[j].trip == trip && after[j].driver == driver && after[j].status == status;
    assert forall i :: 0 <= i < |after| && after[i].trip == trip ==> i == j;
    if Active(after[j]) && !Free(before, driver, trip) {
      var i :| 0 <= i < |before| && Active(before[i]) && before[i].driver == driver && before[i].trip != trip;
      assert after[i] == before[i] && i != j;
      assert !OneActivePerDriver(after);
    }
  }

  // ---------------------------------------------------------------- availability

  lemma {:induction false} ActiveRowsMeaning(rows: seq<Row>, driver: string)
    ensures ActiveRows(rows, driver) == [] <==>
            forall i :: 0 <= i < |rows| ==> !(Active(rows[i]) && rows[i].driver == driver)
  {
    if rows != [] {
      ActiveRowsMeaning(rows[1..], driver);
      assert forall i :: 0 < i < |rows| ==> rows[i] == rows[1..][i - 1];
    }
  }

  /** The plain filter: registered, online, no active row. */
  ghost predicate Idle(s: State, driver: string) {
    && driver in s.drivers && IsOnline(s, driver)
    && forall i :: 0 <= i < |s.rows| ==> !(Active(s.rows[i]) && s.rows[i].driver == driver)
  }

  lemma {:induction false} AntiJoin(s: State, drivers: seq<string>, driver: string)
    ensures (driver, None) in LeftJoin(s, drivers) <==>
            driver in drivers && IsOnline(s, driver) && ActiveRows(s.rows, driver) == []
  {
    if drivers != [] {
      AntiJoin(s, drivers[1..], driver);
      var d, rest := drivers[0], LeftJoin(s, drivers[1..]);
      var matches := ActiveRows(s.rows, d);
      if IsOnline(s, d) && matches != [] {
        var front := seq(|matches|, i requires 0 <= i < |matches| => (d, Some(matches[i])));
        assert forall x :: x in front ==> x.1.Some?;
        assert LeftJoin(s, drivers) == front + rest;
      } else if IsOnline(s, d) {
        assert LeftJoin(s, drivers) == [(d, None)] + rest;
      }
    }
  }

  /** The left join with a null filter is the plain filter, and the answer waited longest. */
  lemma FindAvailableMeaning(s: State, found: Option<string>)
    ensures MayFind(s, found) <==>
            match found
            case None => forall d :: !Idle(s, d)
            case Some(d) => Idle(s, d) && forall e :: Idle(s, e) ==> s.statuses[d].updatedAt <= s.statuses[e].updatedAt
  {
    forall d ensures (d, None) in LeftJoin(s, s.drivers) <==> Idle(s, d) {
      AntiJoin(s, s.drivers, d);
      ActiveRowsMeaning(s.rows, d);
    }
  }

  // ---------------------------------------------------------------- service calls

  /** Rows exist only for existing trips and drivers: the foreign keys. */
  ghost predicate RowsRefer(s: State) {
    forall i :: 0 <= i < |s.rows| ==> s.rows[i].trip in s.trips && s.rows[i].driver in s.drivers
  }

  lemma AssignTripKeeps(s: State, trip: string, driver: string, now: int)
    requires Booked(s.rows)
    ensures Booked(AssignTrip(s, trip, driver, now).0.rows)
  {
    ConflictCheckIsFree(s.rows, driver, trip);
    PutBecame(s.rows, s.rows, trip, driver, now);
    Verdict(s.rows, Put(s.rows, trip, driver, now), trip, driver, RowPending);
  }

  lemma DeclineKeeps(s: State, trip: string, driver: string, now: int)
    requires Booked(s.rows)
    ensures Booked(DeclineTrip(s, trip, driver, now).0.rows)
  {
    if HasRow(s.rows, trip, driver) {
      UntouchedBecame(s.rows, trip, driver);
      MarkBecame(s.rows, s.rows, trip, driver, RowOf(s.rows, trip).value.status, RowDeclined, now);
      Verdict(s.rows, Marked(s.rows, trip, driver, RowDeclined, now), trip, driver, RowDeclined);
    }
  }

  lemma AcceptBecame(s: State, trip: string, driver: string, now: int)
    requires OneRowPerTrip(s.rows) && RowsRefer(s)
    ensures
      var t := AcceptTrip(s, trip, driver, now).0;
      if trip in s.trips && driver in s.drivers then Became(s.rows, t.rows, trip, driver, RowAccepted) else t == s
  {
    if HasRow(s.rows, trip, driver) {
      UntouchedBecame(s.rows, trip, driver);
      MarkBecame(s.rows, s.rows, trip, driver, RowOf(s.rows, trip).value.status, RowAccepted, now);
    } else if trip in s.trips && driver in s.drivers {
      PutBecame(s.rows, s.rows, trip, driver, now);
      MarkBecame(s.rows, Put(s.rows, trip, driver, now), trip, driver, RowPending, RowAccepted, now);
    }
  }

  /** `AcceptTrip` lacks the conflict check of `AssignTrip`: it books nobody twice exactly when the caller is free for
      the trip, or the call is refused because the trip or the driver does not exist. */
  lemma AcceptKeepsExactly(s: State, trip: string, driver: string, now: int)
    requires Booked(s.rows) && RowsRefer(s)
    ensures Booked(AcceptTrip(s, trip, driver, now).0.rows) <==>
            Free(s.rows, driver, trip) || trip !in s.trips || driver !in s.drivers
  {
    AcceptBecame(s, trip, driver, now);
    if trip in s.trips && driver in s.drivers {
      Verdict(s.rows, AcceptTrip(s, trip, driver, now).0.rows, trip, driver, RowAccepted);
    }
  }

  /** Does `UpdateTripStatus` end with an active row for the caller that it wrote?  It does on the way to arriving or
      in-ride, and when a refused transition follows the auto-assignment. */
  ghost predicate LeavesActive(s: State, trip: string, driver: string, next: TripStatus) {
    && Settable(next) && trip in s.trips && driver in s.drivers
    && (if AllowedTransition(s.trips[trip].status, next) then next.Arriving? || next.InRide?
        else s.trips[trip].driver != Some(driver))
  }

  lemma TakeOverBecame(s: State, trip: string, driver: string, now: int)
    requires OneRowPerTrip(s.rows) && trip in s.trips
    ensures
      var (t, r) := TakeOver(s, trip, driver, now);
      && t.trips.Keys == s.trips.Keys && t.drivers == s.drivers && t.statuses == s.statuses
      && (forall k :: k in s.trips ==> t.trips[k].status == s.trips[k].status)
      && (r.Ok? ==> t.trips == s.trips[trip := s.trips[trip].(driver := Some(driver))])
      && (if s.trips[trip].driver == Some(driver) || driver !in s.drivers then t == s
          else r.Ok? && Became(s.rows, t.rows, trip, driver, RowPending))
      && (r.Err? <==> s.trips[trip].driver != Some(driver) && driver !in s.drivers)
  {
    if s.trips[trip].driver != Some(driver) && driver in s.drivers {
      PutBecame(s.rows, s.rows, trip, driver, now);
    } else if s.trips[trip].driver == Some(driver) {
      assert s.trips == s.trips[trip := s.trips[trip].(driver := Some(driver))];
    }
  }

  /** `rows` differs from `before` at most in the rows of `trip`. */
  ghost predicate SameElsewhere(before: seq<Row>, rows: seq<Row>, trip: string) {
    && |before| <= |rows|
    && (forall i :: 0 <= i < |before| && before[i].trip != trip ==> rows[i] == before[i])
    && (forall i :: 0 <= i < |rows| && rows[i].trip != trip ==> i < |before| && rows[i] == before[i])
  }

  /** The caller's own row of the trip, made if need be. */
  function OwnedRow(s: State, trip: string, driver: string, now: int): (State, Result<Row, Error>) {
    var row := RowOf(s.rows, trip);
    if row.Some? && row.value.driver == driver then (s, Ok(row.value)) else Assign(s, trip, driver, now)
  }

  lemma OwnedRowBecame(before: seq<Row>, s: State, trip: string, driver: string, now: int)
    requires OneRowPerTrip(s.rows) && trip in s.trips && driver in s.drivers && SameElsewhere(before, s.rows, trip)
    ensures
      var (t, r) := OwnedRow(s, trip, driver, now);
      && r.Ok? && t == s.(rows := t.rows) && Became(before, t.rows, trip, driver, r.value.status)
  {
    OwnRow(s.rows, trip, driver);
    if HasRow(s.rows, trip, driver) {
      UntouchedBecame(s.rows, trip, driver);
    } else {
      PutBecame(before, s.rows, trip, driver, now);
    }
  }

  lemma ProgressBecame(before: seq<Row>, s: State, trip: string, driver: string, next: TripStatus, now: int)
    requires OneRowPerTrip(s.rows) && trip in s.trips && driver in s.drivers && Settable(next)
    requires SameElsewhere(before, s.rows, trip)
    ensures
      var (t, r) := Progress(s, trip, driver, next, now);
      && r.Ok? && t == s.(rows := t.rows, trips := s.trips[trip := s.trips[trip].(status := next)])
      && Became(before, t.rows, trip, driver, if next.Arriving? || next.InRide? then RowAccepted else RowCancelled)
  {
    OwnedRowBecame(before, s, trip, driver, now);
    var (s1, r) := OwnedRow(s, trip, driver, now);
    var was := r.value.status;
    if !next.Cancelled? && !was.RowAccepted? {
      MarkBecame(before, s1.rows, trip, driver, was, RowAccepted, now);
      MarkBecame(before, Marked(s1.rows, trip, driver, RowAccepted, now), trip, driver, RowAccepted, RowCancelled, now);
    } else {
      MarkBecame(before, s1.rows, trip, driver, was, RowCancelled, now);
    }
  }

  lemma AdvanceBecame(s: State, trip: string, driver: string, next: TripStatus, now: int)
    requires OneRowPerTrip(s.rows) && RowsRefer(s)
    ensures
      var t := UpdateTripStatus(s, trip, driver, next, now).0;
      || t.rows == s.rows
      || (&& trip in s.trips && driver in s.drivers
          && if LeavesActive(s, trip, driver, next) then
               Became(s.rows, t.rows, trip, driver, RowPending) || Became(s.rows, t.rows, trip, driver, RowAccepted)
             else Became(s.rows, t.rows, trip, driver, RowCancelled))
    ensures
      LeavesActive(s, trip, driver, next) ==>
        var t := UpdateTripStatus(s, trip, driver, next, now).0;
        Became(s.rows, t.rows, trip, driver, RowPending) || Became(s.rows, t.rows, trip, driver, RowAccepted)
  {
    if Settable(next) && trip in s.trips {
      TakeOverBecame(s, trip, driver, now);
      var (s1, r) := TakeOver(s, trip, driver, now);
      if r.Ok? && AllowedTransition(s.trips[trip].status, next) {
        OwnRow(s1.rows, trip, driver);
        if driver in s.drivers { ProgressBecame(s.rows, s1, trip, driver, next, now); }
      }
    }
  }

  /** `UpdateTripStatus` books nobody twice exactly when the caller is free for the trip or keeps no active row. */
  lemma AdvanceKeepsExactly(s: State, trip: string, driver: string, next: TripStatus, now: int)
    requires Booked(s.rows) && RowsRefer(s)
    ensures Booked(UpdateTripStatus(s, trip, driver, next, now).0.rows) <==>
            Free(s.rows, driver, trip) || !LeavesActive(s, trip, driver, next)
  {
    AdvanceBecame(s, trip, driver, next, now);
    var rows := UpdateTripStatus(s, trip, driver, next, now).0.rows;
    if Became(s.rows, rows, trip, driver, RowPending) { Verdict(s.rows, rows, trip, driver, RowPending); }
    if Became(s.rows, rows, trip, driver, RowAccepted) { Verdict(s.rows, rows, trip, driver, RowAccepted); }
    if Became(s.rows, rows, trip, driver, RowCancelled) { Verdict(s.rows, rows, trip, driver, RowCancelled); }
  }

  // ---------------------------------------------------------------- runs

  /** What a run asks of its calls: `FindAvailable` answers truly, and only drivers free for a trip accept or advance it,
      as the holder of its active row is. */
  ghost predicate Proper(s: State, op: Op) {
    match op
    case AssignAny(_, found) => MayFind(s, found)
    case Accept(trip, driver) => Free(s.rows, driver, trip)
    case Advance(trip, driver, next) => Free(s.rows, driver, trip)
    case _ => true
  }

  ghost predicate AllProper(calls: seq<Call>) {
    calls != [] ==> AllProper(calls[..|calls| - 1]) && Proper(Run(calls[..|calls| - 1]), calls[|calls| - 1].op)
  }

  lemma BecameRefers(s: State, t: State, trip: string, driver: string, status: RowStatus)
    requires RowsRefer(s) && Became(s.rows, t.rows, trip, driver, status)
    requires s.trips.Keys <= t.trips.Keys && s.drivers == t.drivers && trip in s.trips && driver in s.drivers
    ensures RowsRefer(t)
  {
    var j :| 0 <= j < |t.rows| && t.rows[j].trip == trip && t.rows[j].driver == driver && t.rows[j].status == status;
    assert forall i :: 0 <= i < |t.rows| && t.rows[i].trip == trip ==> i == j;
  }

  lemma StepKeeps(s: State, op: Op, now: int)
    requires Booked(s.rows) && RowsRefer(s) && Proper(s, op)
    ensures Booked(Step(s, op, now).0.rows)
  {
    match op
    case AssignTo(trip, driver) => AssignTripKeeps(s, trip, driver, now);
    case AssignAny(trip, found) => if found.Some? { AssignTripKeeps(s, trip, found.value, now); }
    case Accept(trip, driver) => AcceptKeepsExactly(s, trip, driver, now);
    case Decline(trip, driver) => DeclineKeeps(s, trip, driver, now);
    case Advance(trip, driver, next) => AdvanceKeepsExactly(s, trip, driver, next, now);
    case _ =>
  }

  lemma AcceptRefers(s: State, trip: string, driver: string, now: int)
    requires OneRowPerTrip(s.rows) && RowsRefer(s)
    ensures RowsRefer(AcceptTrip(s, trip, driver, now).0) && OneRowPerTrip(AcceptTrip(s, trip, driver, now).0.rows)
  {
    AcceptBecame(s, trip, driver, now);
    if trip in s.trips && driver in s.drivers {
      BecameRefers(s, AcceptTrip(s, trip, driver, now).0, trip, driver, RowAccepted);
    }
  }

  lemma DeclineRefers(s: State, trip: string, driver: string, now: int)
    requires OneRowPerTrip(s.rows) && RowsRefer(s)
    ensures RowsRefer(DeclineTrip(s, trip, driver, now).0) && OneRowPerTrip(DeclineTrip(s, trip, driver, now).0.rows)
  {
    if HasRow(s.rows, trip, driver) {
      UntouchedBecame(s.rows, trip, driver);
      MarkBecame(s.rows, s.rows, trip, driver, RowOf(s.rows, trip).value.status, RowDeclined, now);
      BecameRefers(s, DeclineTrip(s, trip, driver, now).0, trip, driver, RowDeclined);
    }
  }

  lemma StepRefers(s: State, op: Op, now: int)
    requires OneRowPerTrip(s.rows) && RowsRefer(s)
    ensures RowsRefer(Step(s, op, now).0) && OneRowPerTrip(Step(s, op, now).0.rows)
  {
    match op
    case AssignTo(trip, driver) => AssignTripRefers(s, trip, driver, now);
    case AssignAny(trip, found) => if found.Some? { AssignTripRefers(s, trip, found.value, now); }
    case Accept(trip, driver) => AcceptRefers(s, trip, driver, now);
    case Decline(trip, driver) => DeclineRefers(s, trip, driver, now);
    case Advance(trip, driver, next) => AdvanceRefers(s, trip, driver, next, now);
    case _ =>
  }

  lemma AssignTripRefers(s: State, trip: string, driver: string, now: int)
    requires OneRowPerTrip(s.rows) && RowsRefer(s)
    ensures RowsRefer(AssignTrip(s, trip, driver, now).0) && OneRowPerTrip(AssignTrip(s, trip, driver, now).0.rows)
  {
    var t := AssignTrip(s, trip, driver, now).0;
    PutBecame(s.rows, s.rows, trip, driver, now);
    if t.rows != s.rows { BecameRefers(s, t, trip, driver, RowPending); }
  }

  ghost predicate SameFrame(s: State, t: State) {
    t.trips.Keys == s.trips.Keys && t.drivers == s.drivers && t.statuses == s.statuses
  }

  lemma ProgressFrame(s: State, trip: string, driver: string, next: TripStatus, now: int)
    ensures SameFrame(s, Progress(s, trip, driver, next, now).0)
  {
    var (s1, r) := OwnedRow(s, trip, driver, now);
    assert SameFrame(s, s1);
    assert SameFrame(s1, UpdateRow(s1, trip, driver, RowAccepted, now).0);
  }

  lemma AdvanceFrame(s: State, trip: string, driver: string, next: TripStatus, now: int)
    ensures SameFrame(s, UpdateTripStatus(s, trip, driver, next, now).0)
  {
    if trip in s.trips {
      var s1 := TakeOver(s, trip, driver, now).0;
      assert SameFrame(s, s1);
      ProgressFrame(s1, trip, driver, next, now);
    }
  }

  lemma AdvanceRefers(s: State, trip: string, driver: string, next: TripStatus, now: int)
    requires OneRowPerTrip(s.rows) && RowsRefer(s)
    ensures RowsRefer(UpdateTripStatus(s, trip, driver, next, now).0)
    ensures OneRowPerTrip(UpdateTripStatus(s, trip, driver, next, now).0.rows)
  {
    AdvanceBecame(s, trip, driver, next, now);
    AdvanceFrame(s, trip, driver, next, now);
    RefersAfter(s, UpdateTripStatus(s, trip, driver, next, now).0, trip, driver);
  }

  lemma RefersAfter(s: State, t: State, trip: string, driver: string)
    requires RowsRefer(s) && OneRowPerTrip(s.rows) && s.trips.Keys == t.trips.Keys && s.drivers == t.drivers
    requires t.rows == s.rows ||
             (trip in s.trips && driver in s.drivers &&
              exists status :: Became(s.rows, t.rows, trip, driver, status))
    ensures RowsRefer(t) && OneRowPerTrip(t.rows)
  {
    if t.rows != s.rows {
      var status :| Became(s.rows, t.rows, trip, driver, status);
      BecameRefers(s, t, trip, driver, status);
    }
  }

  /** Whatever a run does, rows refer to existing trips and drivers and a trip has at most one row. */
  lemma {:induction false} RowsAlwaysRefer(calls: seq<Call>)
    ensures RowsRefer(Run(calls)) && OneRowPerTrip(Run(calls).rows)
  {
    if calls != [] {
      RowsAlwaysRefer(calls[..|calls| - 1]);
      StepRefers(Run(calls[..|calls| - 1]), calls[|calls| - 1].op, calls[|calls| - 1].now);
    }
  }

  /** No run of proper calls, duplicate deliveries included, gives a driver two pending or accepted rows, or a trip two
      rows. */
  lemma {:induction false} NoDoubleBooking(calls: seq<Call>)
    requires AllProper(calls)
    ensures OneRowPerTrip(Run(calls).rows) && OneActivePerDriver(Run(calls).rows)
  {
    if calls != [] {
      NoDoubleBooking(calls[..|calls| - 1]);
      RowsAlwaysRefer(calls[..|calls| - 1]);
      StepKeeps(Run(calls[..|calls| - 1]), calls[|calls| - 1].op, calls[|calls| - 1].now);
    }
  }

  // ---------------------------------------------------------------- what goes wrong otherwise

  /** One driver, two trips, the first one given to the driver. */
  const BUSY: State :=
    State(map["a" := Trip(Some("d"), Requested), "b" := Trip(None, Requested)],
          ["d"], map["d" := Availability(true, 1)], [Row("a", "d", RowPending, 2)])

  function BusyCalls(n: nat): seq<Call>
    requires n <= 5
    ensures |BusyCalls(n)| == n && (n > 0 ==> BusyCalls(n)[..n - 1] == BusyCalls(n - 1))
  {
    [Call(Register("d"), 0), Call(SetAvailability("d", Online), 1), Call(AddTrip("a"), 1), Call(AddTrip("b"), 1),
     Call(AssignTo("a", "d"), 2)][..n]
  }

  lemma BusyProper()
    ensures AllProper(BusyCalls(5))
  {
    assert AllProper(BusyCalls(2));
    assert AllProper(BusyCalls(4));
  }

  const IDLE: State :=
    State(map["a" := Trip(None, Requested), "b" := Trip(None, Requested)],
          ["d"], map["d" := Availability(true, 1)], [])

  lemma IdleReached()
    ensures Run(BusyCalls(4)) == IDLE
  {
    var s1 := State(map[], ["d"], map["d" := Availability(false, 0)], []);
    assert Run(BusyCalls(1)) == s1;
    var s2 := s1.(statuses := map["d" := Availability(true, 1)]);
    assert Run(BusyCalls(2)) == s2;
    assert Run(BusyCalls(3)) == s2.(trips := map["a" := Trip(None, Requested)]);
  }

  lemma BusyReached()
    ensures AllProper(BusyCalls(5)) && Run(BusyCalls(5)) == BUSY
  {
    BusyProper();
    IdleReached();
    assert FindActive(IDLE.rows, "d") == None;
    assert AssignTrip(IDLE, "a", "d", 2).0 == BUSY;
  }

  /** A busy driver who accepts another trip, or merely tries to start it and is refused, is booked twice. */
  lemma BusyDriverBookedTwice()
    ensures Run(BusyCalls(5)) == BUSY && Booked(BUSY.rows)
    ensures !Booked(AcceptTrip(BUSY, "b", "d", 3).0.rows)
    ensures
      var (t, r) := UpdateTripStatus(BUSY, "b", "d", InRide, 3);
      r == Err(InvalidStatus) && !Booked(t.rows)
  {
    BusyReached();
    assert Active(BUSY.rows[0]) && !Free(BUSY.rows, "d", "b");
    assert LeavesActive(BUSY, "b", "d", InRide);
    AcceptKeepsExactly(BUSY, "b", "d", 3);
    AdvanceKeepsExactly(BUSY, "b", "d", InRide, 3);
  }
}
