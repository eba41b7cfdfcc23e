/** The dispatch calls as the source makes them, store call by store call. */
module DispatchService {
  import opened Common
  import opened Dispatch

  class DriverService {
    var trips: map<string, Trip>
    var drivers: seq<string>
    var statuses: map<string, Availability>
    var rows: seq<Row>

    constructor ()
      ensures Tables() == INIT
    {
      trips, drivers, statuses, rows := map[], [], map[], [];
    }

    function Tables(): State reads this { State(trips, drivers, statuses, rows) }

    // ------------------------------------------------------------ repositories

    /** `Assign` of the assignment repository: insert, or take the trip's row over. */
    method AssignRow(trip: string, driver: string, now: int) returns (r: Result<Row, Error>)
      modifies `rows
      ensures (Tables(), r) == Assign(old(Tables()), trip, driver, now)
    {
      if trip !in trips || driver !in drivers { return Err(ForeignKey); }
      if RowOf(rows, trip).None? {
        rows := rows + [Row(trip, driver, RowPending, now)];
      } else {
        rows := Reassigned(rows, trip, driver, now);
      }
      r := Ok(Row(trip, driver, RowPending, now));
    }

    method UpdateRowStatus(trip: string, driver: string, status: RowStatus, now: int) returns (r: Result<Row, Error>)
      modifies `rows
      ensures (Tables(), r) == UpdateRow(old(Tables()), trip, driver, status, now)
    {
      if !HasRow(rows, trip, driver) { return Err(AssignmentNotFound); }
      rows := Marked(rows, trip, driver, status, now);
      r := Ok(Row(trip, driver, status, now));
    }

    method SetDriver(trip: string, driver: Option<string>) returns (r: Result<(), Error>)
      modifies `trips
      ensures (Tables(), r) == SetTripDriver(old(Tables()), trip, driver)
    {
      if trip !in trips { return Err(TripNotFound); }
      trips := trips[trip := trips[trip].(driver := driver)];
      r := Ok(());
    }

    method SetStatus(trip: string, status: TripStatus) returns (r: Result<(), Error>)
      modifies `trips
      ensures (Tables(), r) == SetTripStatus(old(Tables()), trip, status)
    {
      if trip !in trips { return Err(TripNotFound); }
      trips := trips[trip := trips[trip].(status := status)];
      r := Ok(());
    }

    // ------------------------------------------------------------ service

    method SetAvailability(driver: string, wanted: DriverAvailability, now: int) returns (r: Result<(), Error>)
      modifies `statuses
      ensures (Tables(), r) == UpdateAvailability(old(Tables()), driver, wanted, now)
    {
      if driver == "" { return Err(IdRequired); }
      if !wanted.Online? && !wanted.Offline? { return Err(InvalidStatus); }
      if driver !in drivers { return Err(DriverNotFound); }
      statuses := statuses[driver := Availability(wanted.Online?, now)];
      r := Ok(());
    }

    method AssignDriver(trip: string, driver: string, now: int) returns (r: Result<Row, Error>)
      modifies `trips, `rows
      ensures (Tables(), r) == AssignTrip(old(Tables()), trip, driver, now)
    {
      if trip == "" || driver == "" { return Err(IdRequired); }
      if trip !in trips { return Err(TripNotFound); }
      if driver !in drivers { return Err(DriverNotFound); }
      if driver !in statuses || !statuses[driver].online { return Err(DriverOffline); }
      var active := FindActive(rows, driver);
      if active.Some? && active.value.trip != trip { return Err(AssignmentConflict); }
      r := AssignRow(trip, driver, now);
      if r.Err? { return; }
      var linked := SetDriver(trip, Some(driver));
    }

    method AcceptAssignment(trip: string, driver: string, now: int) returns (r: Result<Row, Error>)
      modifies `trips, `rows
      ensures (Tables(), r) == AcceptTrip(old(Tables()), trip, driver, now)
    {
      r := UpdateRowStatus(trip, driver, RowAccepted, now);
      if r.Err? {
        r := AssignRow(trip, driver, now);
        if r.Err? { return; }
        var linked := SetDriver(trip, Some(driver));
        assert linked.Ok?;
        r := UpdateRowStatus(trip, driver, RowAccepted, now);
        if r.Err? { return; }
      }
      var written := SetStatus(trip, Accepted);
      if written.Err? { return Err(written.error); }
    }

    method DeclineAssignment(trip: string, driver: string, now: int) returns (r: Result<Option<Row>, Error>)
      modifies `trips, `rows
      ensures (Tables(), r) == DeclineTrip(old(Tables()), trip, driver, now)
    {
      var declined := UpdateRowStatus(trip, driver, RowDeclined, now);
      if declined.Err? {
        var cleared := SetDriver(trip, None);
        return Ok(None);
      }
      var unlinked := SetDriver(trip, None);
      if unlinked.Err? { return Err(unlinked.error); }
      r := Ok(Some(declined.value));
    }

    method AdvanceTrip(trip: string, driver: string, next: TripStatus, now: int) returns (r: Result<(), Error>)
      modifies `trips, `rows
      ensures (Tables(), r) == UpdateTripStatus(old(Tables()), trip, driver, next, now)
    {
      if !next.Arriving? && !next.InRide? && !next.Completed? && !next.Cancelled? { return Err(InvalidStatus); }
      if trip !in trips { return Err(TripNotFound); }
      var snapshot := trips[trip];
      if snapshot.driver.None? || snapshot.driver.value != driver {
        var put := AssignRow(trip, driver, now);
        if put.Err? { return Err(put.error); }
        r := SetDriver(trip, Some(driver));
        if r.Err? { return; }
      }
      if !AllowedTransition(snapshot.status, next) { return Err(InvalidStatus); }
      var row := RowOf(rows, trip);
      var status := RowPending;
      if row.None? || row.value.driver != driver {
        var put := AssignRow(trip, driver, now);
        if put.Err? { return Err(put.error); }
      } else {
        status := row.value.status;
      }
      if !next.Cancelled? && !status.RowAccepted? {
        var promoted := UpdateRowStatus(trip, driver, RowAccepted, now);
        if promoted.Err? { return Err(promoted.error); }
      }
      r := SetStatus(trip, next);
      if r.Err? { return; }
      if next.Completed? || next.Cancelled? {
        var closed := UpdateRowStatus(trip, driver, RowCancelled, now);
      }
    }

    /** The event handler of `consumeTripQueue`; `found` is what `FindAvailable` answered. */
    method HandleTripEvent(trip: string, found: Option<string>, now: int) returns (dropped: bool)
      modifies `trips, `rows
      ensures (Tables(), dropped) == HandleEvent(old(Tables()), trip, found, now)
    {
      if trip == "" { return true; }
      if found.None? { return true; }
      var r := AssignDriver(trip, found.value, now);
      dropped := r.Ok? || r.error == NoDriversAvailable;
    }

    method ClearAll()
      modifies `rows
      ensures Tables() == old(Tables()).(rows := [])
    {
      rows := [];
    }
  }
}
