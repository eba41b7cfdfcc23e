/** What each dispatch call does, in the terms of its caller: when it succeeds, what it leaves behind, and that a refused
    call leaves nothing behind unless it is said to. */
module DispatchEffects {
  import opened Common
  import opened Dispatch
  import opened DispatchBooking
  import opened DispatchAgreement

  /** The trip's row is now `row`, it is the trip's only one, and every other trip has the row it had. */
  ghost predicate RowBecomes(before: seq<Row>, after: seq<Row>, trip: string, row: Row) {
    && OneRowPerTrip(after) && RowOf(after, trip) == Some(row)
    && forall other :: other != trip ==> RowOf(after, other) == RowOf(before, other)
  }

  /** Apart from the rows, only the trip changed. */
  ghost predicate TripBecomes(s: State, t: State, trip: string, now: Trip) {
    && t.drivers == s.drivers && t.statuses == s.statuses && t.trips == s.trips[trip := now]
  }

  lemma PutMeaning(rows: seq<Row>, trip: string, driver: string, now: int)
    requires OneRowPerTrip(rows)
    ensures RowBecomes(rows, Put(rows, trip, driver, now), trip, Row(trip, driver, RowPending, now))
  {
    PutBecame(rows, rows, trip, driver, now);
    forall k { RowOfPut(rows, trip, driver, now, k); }
  }

  lemma MarkMeaning(rows: seq<Row>, trip: string, driver: string, status: RowStatus, now: int)
    requires OneRowPerTrip(rows) && HasRow(rows, trip, driver)
    ensures RowBecomes(rows, Marked(rows, trip, driver, status, now), trip, Row(trip, driver, status, now))
  {
    UntouchedBecame(rows, trip, driver);
    MarkBecame(rows, rows, trip, driver, RowOf(rows, trip).value.status, status, now);
    forall k { RowOfMarked(rows, trip, driver, status, now, k); }
  }

  lemma BecomesAgain(rows: seq<Row>, mid: seq<Row>, after: seq<Row>, trip: string, first: Row, row: Row)
    requires RowBecomes(rows, mid, trip, first) && RowBecomes(mid, after, trip, row)
    ensures RowBecomes(rows, after, trip, row)
  {
  }

  lemma BecomesHasRow(before: seq<Row>, after: seq<Row>, trip: string, row: Row)
    requires RowBecomes(before, after, trip, row) && row.trip == trip
    ensures HasRow(after, trip, row.driver)
  {
    OwnRow(after, trip, row.driver);
  }

  // ---------------------------------------------------------------- assign

  /** A trip is assigned exactly to a registered driver who is online and has no active row for another trip; the row is
      pending and the trip is the driver's.  The refusals come in the order of the checks and change nothing. */
  lemma AssignExactly(s: State, trip: string, driver: string, now: int)
    requires Booked(s.rows)
    ensures
      var (t, r) := AssignTrip(s, trip, driver, now);
      var known := trip != "" && driver != "" && trip in s.trips && driver in s.drivers;
      && (r.Ok? <==> known && IsOnline(s, driver) && Free(s.rows, driver, trip))
      && (r.Ok? ==>
            && r.value == Row(trip, driver, RowPending, now) && RowBecomes(s.rows, t.rows, trip, r.value)
            && TripBecomes(s, t, trip, Trip(Some(driver), s.trips[trip].status)))
      && (r.Err? ==> t == s)
      && (r == Err(DriverOffline) <==> known && !IsOnline(s, driver))
      && (r == Err(AssignmentConflict) <==> known && IsOnline(s, driver) && !Free(s.rows, driver, trip))
  {
    ConflictCheckIsFree(s.rows, driver, trip);
    PutMeaning(s.rows, trip, driver, now);
  }

  // ---------------------------------------------------------------- accept

  /** A trip is accepted exactly if the trip and the driver exist, whatever the trip's status and whoever was to drive it:
      the row is the driver's and accepted, the trip is accepted, and a driver who had no row for it becomes the trip's. */
  lemma AcceptExactly(s: State, trip: string, driver: string, now: int)
    requires OneRowPerTrip(s.rows) && RowsRefer(s)
    ensures
      var (t, r) := AcceptTrip(s, trip, driver, now);
      && (r.Ok? <==> trip in s.trips && driver in s.drivers)
      && (r.Ok? ==>
            && r.value == Row(trip, driver, RowAccepted, now) && RowBecomes(s.rows, t.rows, trip, r.value)
            && TripBecomes(s, t, trip,
                           Trip(if HasRow(s.rows, trip, driver) then s.trips[trip].driver else Some(driver), Accepted)))
      && (r.Err? ==> t == s)
  {
    if HasRow(s.rows, trip, driver) {
      MarkMeaning(s.rows, trip, driver, RowAccepted, now);
    } else if trip in s.trips && driver in s.drivers {
      var rows, row := Put(s.rows, trip, driver, now), Row(trip, driver, RowPending, now);
      PutMeaning(s.rows, trip, driver, now);
      BecomesHasRow(s.rows, rows, trip, row);
      MarkMeaning(rows, trip, driver, RowAccepted, now);
      BecomesAgain(s.rows, rows, Marked(rows, trip, driver, RowAccepted, now), trip, row, Row(trip, driver, RowAccepted, now));
    }
  }

  // ---------------------------------------------------------------- decline

  /** A driver who declines a trip they have the row of leaves a declined row and a trip without a driver; a stranger
      leaves the rows alone and takes the trip's driver away all the same.  Neither touches the trip's status. */
  lemma DeclineExactly(s: State, trip: string, driver: string, now: int)
    requires OneRowPerTrip(s.rows) && RowsRefer(s)
    ensures
      var (t, r) := DeclineTrip(s, trip, driver, now);
      if HasRow(s.rows, trip, driver) then
        && r == Ok(Some(Row(trip, driver, RowDeclined, now))) && trip in s.trips
        && RowBecomes(s.rows, t.rows, trip, Row(trip, driver, RowDeclined, now))
        && TripBecomes(s, t, trip, Trip(None, s.trips[trip].status))
      else
        && r == Ok(None) && t.rows == s.rows
        && (if trip in s.trips then TripBecomes(s, t, trip, Trip(None, s.trips[trip].status)) else t == s)
  {
    if HasRow(s.rows, trip, driver) { MarkMeaning(s.rows, trip, driver, RowDeclined, now); }
  }

  /** Declining the trip they hold makes an online driver available again. */
  lemma DeclineFrees(s: State, trip: string, driver: string, now: int)
    requires Booked(s.rows) && RowsRefer(s) && Holder(s.rows, driver, trip) && IsOnline(s, driver)
    ensures !Idle(s, driver) && Idle(DeclineTrip(s, trip, driver, now).0, driver)
  {
    HolderIsFree(s.rows, driver, trip);
    var t := DeclineTrip(s, trip, driver, now).0;
    DeclineExactly(s, trip, driver, now);
    forall i | 0 <= i < |t.rows| ensures !(Active(t.rows[i]) && t.rows[i].driver == driver) {
      RowOfUnique(t.rows, i);
      if t.rows[i].trip != trip { RowOfMeaning(s.rows, t.rows[i].trip); }
    }
  }

  // ---------------------------------------------------------------- advance

  /** The row an allowed update ends with: accepted on the way, cancelled at the end. */
  function RowFor(next: TripStatus): RowStatus {
    if next.Completed? || next.Cancelled? then RowCancelled else RowAccepted
  }

  /** The caller has the trip and its row, both as the auto-assignment leaves them. */
  ghost predicate TakenOver(s: State, t: State, trip: string, driver: string, now: int)
    requires trip in s.trips
  {
    if s.trips[trip].driver == Some(driver) then t == s
    else
      && RowBecomes(s.rows, t.rows, trip, Row(trip, driver, RowPending, now))
      && TripBecomes(s, t, trip, Trip(Some(driver), s.trips[trip].status))
  }

  lemma TakeOverExactly(s: State, trip: string, driver: string, now: int)
    requires OneRowPerTrip(s.rows) && trip in s.trips
    ensures
      var (t, r) := TakeOver(s, trip, driver, now);
      && (r.Ok? <==> s.trips[trip].driver == Some(driver) || driver in s.drivers)
      && (r.Ok? ==> TakenOver(s, t, trip, driver, now))
      && (r.Err? ==> t == s && r.error == ForeignKey)
  {
    PutMeaning(s.rows, trip, driver, now);
  }

  /** The trip's row after a status update, in whatever state it was before. */
  ghost predicate Progressed(s: State, t: State, trip: string, driver: string, next: TripStatus, now: int) {
    && OneRowPerTrip(t.rows) && RowOf(t.rows, trip).Some?
    && RowOf(t.rows, trip).value.driver == driver && RowOf(t.rows, trip).value.status == RowFor(next)
    && (RowOf(t.rows, trip) == RowOf(s.rows, trip) || RowOf(t.rows, trip).value.updatedAt == now)
    && (forall other :: other != trip ==> RowOf(t.rows, other) == RowOf(s.rows, other))
    && TripBecomes(s, t, trip, Trip(Some(driver), next))
  }

  lemma OwnedRowExactly(s: State, trip: string, driver: string, now: int)
    requires OneRowPerTrip(s.rows) && trip in s.trips && driver in s.drivers
    ensures
      var (t, r) := OwnedRow(s, trip, driver, now);
      && r.Ok? && r.value.driver == driver && r.value.trip == trip && t == s.(rows := t.rows)
      && HasRow(t.rows, trip, driver)
      && ((t.rows == s.rows && RowOf(s.rows, trip) == Some(r.value))
          || (r.value.updatedAt == now && RowBecomes(s.rows, t.rows, trip, r.value)))
  {
    OwnRow(s.rows, trip, driver);
    RowOfMeaning(s.rows, trip);
    PutMeaning(s.rows, trip, driver, now);
    if RowOf(s.rows, trip).None? || RowOf(s.rows, trip).value.driver != driver {
      BecomesHasRow(s.rows, Put(s.rows, trip, driver, now), trip, Row(trip, driver, RowPending, now));
    }
  }

  /** The rows of trips other than `trip` are as before, and `trip` has one row, `row`. */
  ghost predicate SoFar(before: seq<Row>, rows: seq<Row>, trip: string, row: Row) {
    RowBecomes(before, rows, trip, row) && HasRow(rows, trip, row.driver) && row.trip == trip
  }

  lemma MarkSoFar(before: seq<Row>, rows: seq<Row>, trip: string, row: Row, status: RowStatus, now: int)
    requires SoFar(before, rows, trip, row)
    ensures SoFar(before, Marked(rows, trip, row.driver, status, now), trip, Row(trip, row.driver, status, now))
  {
    MarkMeaning(rows, trip, row.driver, status, now);
    var after := Marked(rows, trip, row.driver, status, now);
    BecomesAgain(before, rows, after, trip, row, Row(trip, row.driver, status, now));
    MarkedHasRow(rows, trip, row.driver, status, now);
  }

  lemma ProgressExactly(s: State, trip: string, driver: string, next: TripStatus, now: int)
    requires OneRowPerTrip(s.rows) && trip in s.trips && driver in s.drivers && Settable(next)
    requires s.trips[trip].driver == Some(driver)
    ensures Progress(s, trip, driver, next, now).1.Ok?
    ensures Progressed(s, Progress(s, trip, driver, next, now).0, trip, driver, next, now)
  {
    OwnedRowExactly(s, trip, driver, now);
    var (s1, r) := OwnedRow(s, trip, driver, now);
    var promote := !next.Cancelled? && !r.value.status.RowAccepted?;
    var rows2 := if promote then Marked(s1.rows, trip, driver, RowAccepted, now) else s1.rows;
    var row2 := if promote then Row(trip, driver, RowAccepted, now) else r.value;
    assert SoFar(s.rows, s1.rows, trip, r.value);
    if promote { MarkSoFar(s.rows, s1.rows, trip, r.value, RowAccepted, now); }
    assert SoFar(s.rows, rows2, trip, row2);
    MarkSoFar(s.rows, rows2, trip, row2, RowCancelled, now);
    var rows3 := if next.Completed? || next.Cancelled? then Marked(rows2, trip, driver, RowCancelled, now) else rows2;
    ProgressIs(s, trip, driver, next, now, rows3);
  }

  lemma ProgressIs(s: State, trip: string, driver: string, next: TripStatus, now: int, rows: seq<Row>)
    requires trip in s.trips && driver in s.drivers && Settable(next) && OneRowPerTrip(s.rows)
    requires
      var (s1, r) := OwnedRow(s, trip, driver, now);
      && r.Ok? && HasRow(s1.rows, trip, driver)
      && var promote := !next.Cancelled? && !r.value.status.RowAccepted?;
         var rows2 := if promote then Marked(s1.rows, trip, driver, RowAccepted, now) else s1.rows;
         && HasRow(rows2, trip, driver)
         && rows == if next.Completed? || next.Cancelled? then Marked(rows2, trip, driver, RowCancelled, now) else rows2
    ensures
      var (t, r) := Progress(s, trip, driver, next, now);
      r.Ok? && t == s.(rows := rows, trips := s.trips[trip := s.trips[trip].(status := next)])
  {
  }

  /** A status update succeeds exactly for a registered driver and an allowed transition: the trip has the status and the
      driver, the row is the driver's, accepted on the way and cancelled at the end. */
  lemma AdvanceExactly(s: State, trip: string, driver: string, next: TripStatus, now: int)
    requires OneRowPerTrip(s.rows) && RowsRefer(s)
    ensures
      var (t, r) := UpdateTripStatus(s, trip, driver, next, now);
      && (r.Ok? <==> trip in s.trips && driver in s.drivers && AllowedTransition(s.trips[trip].status, next))
      && (r.Ok? ==> Progressed(s, t, trip, driver, next, now))
  {
    if Settable(next) && trip in s.trips {
      TakeOverExactly(s, trip, driver, now);
      var (s1, r) := TakeOver(s, trip, driver, now);
      if r.Ok? && AllowedTransition(s.trips[trip].status, next) {
        if driver in s.drivers { ProgressExactly(s1, trip, driver, next, now); } else { OwnRow(s1.rows, trip, driver); }
      }
    }
  }

  /** A refused update leaves everything alone, unless what is refused is the transition: then a registered caller has
      taken the trip over. */
  lemma AdvanceRefusedExactly(s: State, trip: string, driver: string, next: TripStatus, now: int)
    requires OneRowPerTrip(s.rows) && RowsRefer(s)
    requires UpdateTripStatus(s, trip, driver, next, now).1.Err?
    ensures
      var (t, r) := UpdateTripStatus(s, trip, driver, next, now);
      if next.Requested? || next.Accepted? || next.UnknownStatus? then t == s && r.error == InvalidStatus
      else if trip !in s.trips then t == s && r.error == TripNotFound
      else if driver !in s.drivers then t == s
      else r.error == InvalidStatus && TakenOver(s, t, trip, driver, now)
  {
    if Settable(next) && trip in s.trips {
      AdvanceExactly(s, trip, driver, next, now);
      TakeOverExactly(s, trip, driver, now);
      OwnRow(TakeOver(s, trip, driver, now).0.rows, trip, driver);
    }
  }

  // ---------------------------------------------------------------- availability and events

  /** A registered driver is online exactly after asking to be, from then on counted as waiting; nobody else changes, and
      who is offline is not found. */
  lemma AvailabilityExactly(s: State, driver: string, wanted: DriverAvailability, now: int)
    ensures
      var (t, r) := UpdateAvailability(s, driver, wanted, now);
      && (r.Ok? <==> driver != "" && driver in s.drivers && (wanted.Online? || wanted.Offline?))
      && (r.Ok? ==>
            && (IsOnline(t, driver) <==> wanted == Online)
            && driver in t.statuses && t.statuses[driver].updatedAt == now
            && (wanted == Offline ==> !Idle(t, driver)))
      && (r.Err? ==> t == s)
      && t.trips == s.trips && t.rows == s.rows && t.drivers == s.drivers
      && (forall d :: d != driver ==> (d in t.statuses <==> d in s.statuses))
      && (forall d :: d != driver && d in s.statuses ==> t.statuses[d] == s.statuses[d])
  {
  }

  /** The consumer drops an event exactly when it names no trip, no driver is idle, or the trip exists and is then assigned
      to the driver found; what it does not drop it leaves undone. */
  lemma EventExactly(s: State, trip: string, found: Option<string>, now: int)
    requires Booked(s.rows) && MayFind(s, found) && "" !in s.drivers
    ensures
      var (t, dropped) := HandleEvent(s, trip, found, now);
      && (dropped <==> trip == "" || (forall d :: !Idle(s, d)) || trip in s.trips)
      && (if dropped && trip != "" && found.Some? then
            && RowBecomes(s.rows, t.rows, trip, Row(trip, found.value, RowPending, now))
            && TripBecomes(s, t, trip, Trip(found, s.trips[trip].status))
          else t == s)
  {
    FindAvailableMeaning(s, found);
    if found.Some? { AssignExactly(s, trip, found.value, now); }
  }

  /** Newcomers: a trip starts requested and nobody's, a driver offline and without rows of their own. */
  lemma NewcomersExactly(s: State, trip: string, driver: string, now: int)
    ensures
      var (t, ok) := Step(s, AddTrip(trip), now);
      && (ok <==> trip != "" && trip !in s.trips)
      && (if ok then TripBecomes(s, t, trip, Trip(None, Requested)) && t.rows == s.rows else t == s)
    ensures
      var (t, ok) := Step(s, Register(driver), now);
      && (ok <==> driver != "" && driver !in s.drivers)
      && (if ok then
            && t.trips == s.trips && t.rows == s.rows && !IsOnline(t, driver)
            && (forall d :: d in t.drivers <==> d in s.drivers || d == driver)
            && (forall d :: d != driver ==> (IsOnline(t, d) <==> IsOnline(s, d)))
          else t == s)
  {
  }
}
