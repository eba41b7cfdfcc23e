/** Dispatch of trips to drivers: `domain/driver_service.go` over the tables of `trip_repository.go`,
    `trip_assignment_repository.go` and `driver_repository.go`, wired with a real trip store.

    Each service call runs as one atomic step and its store calls succeed, except that rows are refused for trips or
    drivers that do not exist (the foreign keys of `trip_assignments`). */
module Dispatch {
  import opened Common

  datatype Error =
    | IdRequired
    | TripNotFound
    | DriverNotFound
    | DriverOffline
    | AssignmentConflict
    | AssignmentNotFound
    | NoDriversAvailable
    | InvalidStatus
    | ForeignKey

  datatype RowStatus = RowPending | RowAccepted | RowDeclined | RowCancelled

  datatype Trip = Trip(driver: Option<string>, status: TripStatus)

  datatype Availability = Availability(online: bool, updatedAt: int)

  datatype Row = Row(trip: string, driver: string, status: RowStatus, updatedAt: int)

  /** The tables, `drivers` and `rows` in their physical order. */
  datatype State = State(
    trips: map<string, Trip>, drivers: seq<string>, statuses: map<string, Availability>, rows: seq<Row>)

  predicate Active(r: Row) { r.status.RowPending? || r.status.RowAccepted? }

  // ---------------------------------------------------------------- assignment rows

  /** `GetByTripID`: the first row of the trip. */
  function RowOf(rows: seq<Row>, trip: string): Option<Row> {
    if rows == [] then None
    else if rows[0].trip == trip then Some(rows[0])
    else RowOf(rows[1..], trip)
  }

  /** `UPDATE ... WHERE trip_id = ?`, giving the trip to a driver afresh. */
  function Reassigned(rows: seq<Row>, trip: string, driver: string, now: int): seq<Row> {
    seq(|rows|, i requires 0 <= i < |rows| =>
          if rows[i].trip == trip then Row(trip, driver, RowPending, now) else rows[i])
  }

  /** `UPDATE ... WHERE trip_id = ? AND driver_id = ?`, setting the status. */
  function Marked(rows: seq<Row>, trip: string, driver: string, status: RowStatus, now: int): seq<Row> {
    seq(|rows|, i requires 0 <= i < |rows| =>
          if rows[i].trip == trip && rows[i].driver == driver then Row(trip, driver, status, now) else rows[i])
  }

  predicate HasRow(rows: seq<Row>, trip: string, driver: string) {
    exists i :: 0 <= i < |rows| && rows[i].trip == trip && rows[i].driver == driver
  }

  /** The rows after `Assign`. */
  function Put(rows: seq<Row>, trip: string, driver: string, now: int): seq<Row> {
    if RowOf(rows, trip).None? then rows + [Row(trip, driver, RowPending, now)] else Reassigned(rows, trip, driver, now)
  }

  function Assign(s: State, trip: string, driver: string, now: int): (State, Result<Row, Error>) {
    if trip !in s.trips || driver !in s.drivers then (s, Err(ForeignKey))
    else (s.(rows := Put(s.rows, trip, driver, now)), Ok(Row(trip, driver, RowPending, now)))
  }

  function UpdateRow(s: State, trip: string, driver: string, status: RowStatus, now: int): (State, Result<Row, Error>) {
    if !HasRow(s.rows, trip, driver) then (s, Err(AssignmentNotFound))
    else (s.(rows := Marked(s.rows, trip, driver, status, now)), Ok(Row(trip, driver, status, now)))
  }

  /** `FindActiveByDriver`: of the driver's pending and accepted rows, the one updated last. */
  function FindActive(rows: seq<Row>, driver: string): Option<Row> {
    if rows == [] then None
    else
      var rest, r := FindActive(rows[1..], driver), rows[0];
      if r.driver != driver || !Active(r) then rest
      else if rest.Some? && rest.value.updatedAt > r.updatedAt then rest
      else Some(r)
  }

  // ---------------------------------------------------------------- trips and drivers

  function SetTripDriver(s: State, trip: string, driver: Option<string>): (State, Result<(), Error>) {
    if trip !in s.trips then (s, Err(TripNotFound))
    else (s.(trips := s.trips[trip := s.trips[trip].(driver := driver)]), Ok(()))
  }

  function SetTripStatus(s: State, trip: string, status: TripStatus): (State, Result<(), Error>) {
    if trip !in s.trips then (s, Err(TripNotFound))
    else (s.(trips := s.trips[trip := s.trips[trip].(status := status)]), Ok(()))
  }

  predicate IsOnline(s: State, driver: string) { driver in s.statuses && s.statuses[driver].online }

  function ActiveRows(rows: seq<Row>, driver: string): seq<Row> {
    if rows == [] then []
    else if rows[0].driver == driver && Active(rows[0]) then [rows[0]] + ActiveRows(rows[1..], driver)
    else ActiveRows(rows[1..], driver)
  }

  /** `drivers JOIN driver_status (online) LEFT JOIN trip_assignments (active)`. */
  function LeftJoin(s: State, drivers: seq<string>): seq<(string, Option<Row>)> {
    if drivers == [] then []
    else
      var d, rest := drivers[0], LeftJoin(s, drivers[1..]);
      if !IsOnline(s, d) then rest
      else
        var matches := ActiveRows(s.rows, d);
        (if matches == [] then [(d, None)] else seq(|matches|, i requires 0 <= i < |matches| => (d, Some(matches[i])))) + rest
  }

  /** What `FindAvailable` may answer: a driver whose joined row is null and whose status is the oldest such, or nobody
      when there is none.  Which of several equally old ones is the database's choice. */
  ghost predicate MayFind(s: State, found: Option<string>) {
    var joined := LeftJoin(s, s.drivers);
    match found
    case None => forall d :: (d, None) !in joined
    case Some(d) =>
      && (d, None) in joined
      && forall e :: (e, None) in joined ==> e in s.statuses && d in s.statuses &&
                                             s.statuses[d].updatedAt <= s.statuses[e].updatedAt
  }

  // ---------------------------------------------------------------- service calls

  function AssignTrip(s: State, trip: string, driver: string, now: int): (State, Result<Row, Error>) {
    if trip == "" || driver == "" then (s, Err(IdRequired))
    else if trip !in s.trips then (s, Err(TripNotFound))
    else if driver !in s.drivers then (s, Err(DriverNotFound))
    else if !IsOnline(s, driver) then (s, Err(DriverOffline))
    else if FindActive(s.rows, driver).Some? && FindActive(s.rows, driver).value.trip != trip then (s, Err(AssignmentConflict))
    else
      var (s1, r) := Assign(s, trip, driver, now);
      (SetTripDriver(s1, trip, Some(driver)).0, r)
  }

  /** `AssignNextAvailableDriver`, `found` being the database's answer. */
  function AssignNext(s: State, trip: string, found: Option<string>, now: int): (State, Result<Row, Error>) {
    match found
    case None => (s, Err(NoDriversAvailable))
    case Some(driver) => AssignTrip(s, trip, driver, now)
  }

  function AcceptTrip(s: State, trip: string, driver: string, now: int): (State, Result<Row, Error>) {
    var (s1, r) := UpdateRow(s, trip, driver, RowAccepted, now);
    if r.Ok? then
      var (s2, t) := SetTripStatus(s1, trip, Accepted);
      (s2, if t.Ok? then r else Err(t.error))
    else
      var (s2, put) := Assign(s, trip, driver, now);
      if put.Err? then (s2, put)
      else
        var s3 := SetTripDriver(s2, trip, Some(driver)).0;
        var (s4, updated) := UpdateRow(s3, trip, driver, RowAccepted, now);
        if updated.Err? then (s4, updated) else (SetTripStatus(s4, trip, Accepted).0, updated)
  }

  function DeclineTrip(s: State, trip: string, driver: string, now: int): (State, Result<Option<Row>, Error>) {
    var (s1, r) := UpdateRow(s, trip, driver, RowDeclined, now);
    if r.Err? then (SetTripDriver(s, trip, None).0, Ok(None))
    else
      var (s2, t) := SetTripDriver(s1, trip, None);
      (s2, if t.Ok? then Ok(Some(r.value)) else Err(t.error))
  }

  predicate AllowedTransition(current: TripStatus, next: TripStatus) {
    match current
    case Accepted => next.Arriving? || next.Cancelled? || next.Completed?
    case Arriving => next.InRide? || next.Cancelled? || next.Completed?
    case InRide => next.Completed? || next.Cancelled?
    case Requested => next.Cancelled? || next.Completed?
    case _ => false
  }

  predicate Settable(next: TripStatus) { next.Arriving? || next.InRide? || next.Completed? || next.Cancelled? }

  /** The auto-assignment `UpdateTripStatus` starts with. */
  function TakeOver(s: State, trip: string, driver: string, now: int): (State, Result<(), Error>)
    requires trip in s.trips
  {
    if s.trips[trip].driver == Some(driver) then (s, Ok(()))
    else
      var (s1, r) := Assign(s, trip, driver, now);
      if r.Err? then (s1, Err(r.error)) else SetTripDriver(s1, trip, Some(driver))
  }

  /** The rest of it, once the trip's driver is the caller and the transition is allowed. */
  function Progress(s: State, trip: string, driver: string, next: TripStatus, now: int): (State, Result<(), Error>) {
    var row := RowOf(s.rows, trip);
    var own := row.Some? && row.value.driver == driver;
    var (s1, r) := if own then (s, Ok(row.value)) else Assign(s, trip, driver, now);
    if r.Err? then (s1, Err(r.error))
    else
      var (s2, p) := if !next.Cancelled? && !r.value.status.RowAccepted? then UpdateRow(s1, trip, driver, RowAccepted, now)
                     else (s1, r);
      if p.Err? then (s2, Err(p.error))
      else
        var (s3, t) := SetTripStatus(s2, trip, next);
        if t.Err? then (s3, t)
        else if next.Completed? || next.Cancelled? then (UpdateRow(s3, trip, driver, RowCancelled, now).0, t)
        else (s3, t)
  }

  function UpdateTripStatus(s: State, trip: string, driver: string, next: TripStatus, now: int): (State, Result<(), Error>) {
    if !Settable(next) then (s, Err(InvalidStatus))
    else if trip !in s.trips then (s, Err(TripNotFound))
    else
      var (s1, r) := TakeOver(s, trip, driver, now);
      if r.Err? then (s1, r)
      else if !AllowedTransition(s.trips[trip].status, next) then (s1, Err(InvalidStatus))
      else Progress(s1, trip, driver, next, now)
  }

  function UpdateAvailability(s: State, driver: string, wanted: DriverAvailability, now: int): (State, Result<(), Error>) {
    if driver == "" then (s, Err(IdRequired))
    else if wanted.UnknownAvailability? then (s, Err(InvalidStatus))
    else if driver !in s.drivers then (s, Err(DriverNotFound))
    else (s.(statuses := s.statuses[driver := Availability(wanted.Online?, now)]), Ok(()))
  }

  /** The handler `consumeTripQueue` gives the queue: true means the event may be dropped. */
  function HandleEvent(s: State, trip: string, found: Option<string>, now: int): (State, bool) {
    if trip == "" then (s, true)
    else
      var (s', r) := AssignNext(s, trip, found, now);
      (s', r.Ok? || r.error == NoDriversAvailable)
  }

  // ---------------------------------------------------------------- runs

  datatype Op =
    | AddTrip(trip: string)
    | Register(driver: string)
    | SetAvailability(driver: string, wanted: DriverAvailability)
    | AssignTo(trip: string, driver: string)
    | AssignAny(trip: string, found: Option<string>)
    | Accept(trip: string, driver: string)
    | Decline(trip: string, driver: string)
    | Advance(trip: string, driver: string, next: TripStatus)
    | ClearAssignments

  /** One service call at time `now`, and whether it succeeded. */
  function Step(s: State, op: Op, now: int): (State, bool) {
    match op
    case AddTrip(t) => if t == "" || t in s.trips then (s, false) else (s.(trips := s.trips[t := Trip(None, Requested)]), true)
    case Register(d) =>
      if d == "" || d in s.drivers then (s, false)
      else (s.(drivers := s.drivers + [d], statuses := s.statuses[d := Availability(false, now)]), true)
    case SetAvailability(d, wanted) => var (s', r) := UpdateAvailability(s, d, wanted, now); (s', r.Ok?)
    case AssignTo(t, d) => var (s', r) := AssignTrip(s, t, d, now); (s', r.Ok?)
    case AssignAny(t, found) => HandleEvent(s, t, found, now)
    case Accept(t, d) => var (s', r) := AcceptTrip(s, t, d, now); (s', r.Ok?)
    case Decline(t, d) => var (s', r) := DeclineTrip(s, t, d, now); (s', r.Ok?)
    case Advance(t, d, next) => var (s', r) := UpdateTripStatus(s, t, d, next, now); (s', r.Ok?)
    case ClearAssignments => (s.(rows := []), true)
  }

  const INIT := State(map[], [], map[], [])

  datatype Call = Call(op: Op, now: int)

  function Run(calls: seq<Call>): State {
    if calls == [] then INIT else Step(Run(calls[..|calls| - 1]), calls[|calls| - 1].op, calls[|calls| - 1].now).0
  }
}
