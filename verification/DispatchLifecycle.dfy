/** A trip only moves forward, and only so often. */
module DispatchLifecycle {
  import opened Common
  import opened Dispatch
  import opened DispatchBooking

  function Rank(status: TripStatus): nat {
    match status
    case Requested => 0
    case Accepted => 1
    case Arriving => 2
    case InRide => 3
    case _ => 4
  }

  predicate Terminal(status: TripStatus) { status.Completed? || status.Cancelled? }

  /** A driver may end a trip that has not ended, at any rank, and otherwise only take the next rank of an accepted one. */
  lemma TransitionMeaning(current: TripStatus, next: TripStatus)
    requires !current.UnknownStatus?
    ensures Settable(next) && AllowedTransition(current, next) <==>
            && !Terminal(current)
            && (Terminal(next) || (Rank(current) >= 1 && Rank(next) == Rank(current) + 1 && !next.UnknownStatus?))
  {
  }

  /** The calls meant to move a trip on. */
  predicate Moves(op: Op, trip: string) { (op.Accept? || op.Advance?) && op.trip == trip }

  /** Trips are accepted only while requested. */
  ghost predicate Orderly(s: State, op: Op) {
    op.Accept? && op.trip in s.trips ==> s.trips[op.trip].status.Requested?
  }

  ghost predicate AllOrderly(calls: seq<Call>) {
    calls != [] ==> AllOrderly(calls[..|calls| - 1]) && Orderly(Run(calls[..|calls| - 1]), calls[|calls| - 1].op)
  }

  lemma AdvanceStatus(s: State, trip: string, driver: string, next: TripStatus, now: int)
    requires OneRowPerTrip(s.rows) && RowsRefer(s)
    ensures
      var (t, r) := UpdateTripStatus(s, trip, driver, next, now);
      && t.trips.Keys == s.trips.Keys
      && (forall k :: k in s.trips && k != trip ==> t.trips[k].status == s.trips[k].status)
      && (trip in s.trips ==>
            if r.Ok? then t.trips[trip].status == next && AllowedTransition(s.trips[trip].status, next)
            else t.trips[trip].status == s.trips[trip].status)
      && (trip in s.trips && driver in s.drivers ==> (r.Ok? <==> Settable(next) && AllowedTransition(s.trips[trip].status, next)))
  {
    if Settable(next) && trip in s.trips {
      TakeOverBecame(s, trip, driver, now);
      var (s1, r) := TakeOver(s, trip, driver, now);
      if r.Ok? && AllowedTransition(s.trips[trip].status, next) {
        if driver in s.drivers {
          ProgressBecame(s1.rows, s1, trip, driver, next, now);
        } else {
          OwnRow(s1.rows, trip, driver);
        }
      }
    }
  }

  lemma AcceptStatus(s: State, trip: string, driver: string, now: int)
    requires OneRowPerTrip(s.rows) && RowsRefer(s)
    ensures
      var (t, r) := AcceptTrip(s, trip, driver, now);
      && t.trips.Keys == s.trips.Keys
      && (forall k :: k in s.trips && k != trip ==> t.trips[k].status == s.trips[k].status)
      && (trip in s.trips ==> t.trips[trip].status == if r.Ok? then Accepted else s.trips[trip].status)
      && (r.Ok? ==> trip in s.trips)
  {
    if !HasRow(s.rows, trip, driver) && trip in s.trips && driver in s.drivers {
      PutBecame(s.rows, s.rows, trip, driver, now);
      MarkBecame(s.rows, Put(s.rows, trip, driver, now), trip, driver, RowPending, RowAccepted, now);
    }
  }

  /** `AcceptTrip` has no status check: a successful one moves the trip forward exactly when it was requested. */
  lemma AcceptRaisesExactly(s: State, trip: string, driver: string, now: int)
    requires OneRowPerTrip(s.rows) && RowsRefer(s)
    ensures
      var (t, r) := AcceptTrip(s, trip, driver, now);
      r.Ok? ==> trip in s.trips && trip in t.trips &&
                (Rank(t.trips[trip].status) > Rank(s.trips[trip].status) <==> s.trips[trip].status.Requested?)
  {
    AcceptStatus(s, trip, driver, now);
  }

  /** A successful accept or update raises the rank of its trip; nothing else changes any status. */
  lemma {:induction false} StepRaises(s: State, op: Op, now: int, trip: string)
    requires OneRowPerTrip(s.rows) && RowsRefer(s) && Orderly(s, op) && trip in s.trips
    ensures
      var (t, ok) := Step(s, op, now);
      && trip in t.trips
      && (if Moves(op, trip) && ok then Rank(t.trips[trip].status) > Rank(s.trips[trip].status)
          else t.trips[trip].status == s.trips[trip].status)
  {
    match op
    case Accept(k, driver) => AcceptStatus(s, k, driver, now);
    case Advance(k, driver, next) => AdvanceStatus(s, k, driver, next, now);
    case _ =>
  }

  /** How many calls moved the trip on. */
  function Moved(calls: seq<Call>, trip: string): nat {
    if calls == [] then 0
    else
      var before, call := calls[..|calls| - 1], calls[|calls| - 1];
      Moved(before, trip) + (if Moves(call.op, trip) && Step(Run(before), call.op, call.now).1 then 1 else 0)
  }

  /** In every run in which trips are accepted only while requested, a trip is moved at most four times, and never more
      often than its rank. */
  lemma {:induction false} MovedAtMostRank(calls: seq<Call>, trip: string)
    requires AllOrderly(calls)
    ensures Moved(calls, trip) <= (if trip in Run(calls).trips then Rank(Run(calls).trips[trip].status) else 0) <= 4
  {
    if calls != [] {
      var before, call := calls[..|calls| - 1], calls[|calls| - 1];
      MovedAtMostRank(before, trip);
      RowsAlwaysRefer(before);
      var s := Run(before);
      if trip in s.trips {
        StepRaises(s, call.op, call.now, trip);
      } else if Moves(call.op, trip) {
        if call.op.Accept? {
          AcceptStatus(s, trip, call.op.driver, call.now);
        }
      }
    }
  }

  /** Completed and cancelled trips stay so. */
  lemma {:induction false} TerminalAbsorbs(calls: seq<Call>, n: nat, trip: string)
    requires AllOrderly(calls) && n <= |calls|
    requires trip in Run(calls[..n]).trips
    ensures trip in Run(calls).trips
    ensures Rank(Run(calls[..n]).trips[trip].status) <= Rank(Run(calls).trips[trip].status)
    ensures Rank(Run(calls[..n]).trips[trip].status) == 4 ==>
              Run(calls).trips[trip].status == Run(calls[..n]).trips[trip].status
    decreases |calls|
  {
    if n == |calls| {
      assert calls[..n] == calls;
    } else {
      var before, call := calls[..|calls| - 1], calls[|calls| - 1];
      assert before[..n] == calls[..n];
      TerminalAbsorbs(before, n, trip);
      RowsAlwaysRefer(before);
      StepRaises(Run(before), call.op, call.now, trip);
    }
  }

  // ---------------------------------------------------------------- a whole ride

  /** `calls` is a run in order that ends in `s`, having moved trip "a" `moved` times. */
  ghost predicate Went(calls: seq<Call>, s: State, moved: nat) {
    AllOrderly(calls) && AllProper(calls) && Run(calls) == s && Moved(calls, "a") == moved
  }

  /** The call succeeds and leaves the state `t`. */
  ghost predicate Leads(s: State, op: Op, now: int, t: State) {
    && Step(s, op, now).1 && Orderly(s, op) && Proper(s, op)
    && Step(s, op, now).0.trips == t.trips && Step(s, op, now).0.drivers == t.drivers
    && Step(s, op, now).0.statuses == t.statuses && Step(s, op, now).0.rows == t.rows
  }

  lemma GoOn(calls: seq<Call>, s: State, moved: nat, op: Op, now: int, t: State)
    requires Went(calls, s, moved) && Leads(s, op, now, t)
    ensures Went(calls + [Call(op, now)], t, moved + (if Moves(op, "a") then 1 else 0))
  {
    assert (calls + [Call(op, now)])[..|calls|] == calls;
    assert Step(s, op, now).0 == t;
  }

  lemma StandStill()
    ensures Went([], INIT, 0)
  {
  }

  const REGISTERED: State := State(map[], ["d"], map["d" := Availability(false, 0)], [])

  const ONLINE: State := State(map[], ["d"], map["d" := Availability(true, 1)], [])

  /** One online driver and one trip, without a row. */
  const WAITING: State := State(map["a" := Trip(None, Requested)], ["d"], map["d" := Availability(true, 1)], [])

  lemma Begins()
    ensures Leads(INIT, Register("d"), 0, REGISTERED)
    ensures Leads(REGISTERED, SetAvailability("d", Online), 1, ONLINE)
    ensures Leads(ONLINE, AddTrip("a"), 2, WAITING)
  {
  }

  lemma RideStarts() returns (calls: seq<Call>)
    ensures Went(calls, WAITING, 0)
  {
    Begins();
    StandStill();
    GoOn([], INIT, 0, Register("d"), 0, REGISTERED);
    var one := [] + [Call(Register("d"), 0)];
    GoOn(one, REGISTERED, 0, SetAvailability("d", Online), 1, ONLINE);
    var two := one + [Call(SetAvailability("d", Online), 1)];
    GoOn(two, ONLINE, 0, AddTrip("a"), 2, WAITING);
    calls := two + [Call(AddTrip("a"), 2)];
  }

  /** The state on the way, with the trip and its row as they are then. */
  function Riding(trip: TripStatus, row: RowStatus, at: int): State {
    State(map["a" := Trip(Some("d"), trip)], ["d"], map["d" := Availability(true, 1)], [Row("a", "d", row, at)])
  }

  lemma OnlyTheirs(trip: TripStatus, row: RowStatus, at: int)
    ensures Free(Riding(trip, row, at).rows, "d", "a") && HasRow(Riding(trip, row, at).rows, "a", "d")
    ensures RowOf(Riding(trip, row, at).rows, "a") == Some(Row("a", "d", row, at))
  {
    assert Riding(trip, row, at).rows[0].trip == "a";
  }

  lemma Assigned()
    ensures Leads(WAITING, AssignAny("a", Some("d")), 3, Riding(Requested, RowPending, 3))
  {
    assert FindActive(WAITING.rows, "d") == None;
    assert Idle(WAITING, "d");
    FindAvailableMeaning(WAITING, Some("d"));
  }

  lemma Accepts()
    ensures Leads(Riding(Requested, RowPending, 3), Accept("a", "d"), 4, Riding(Accepted, RowAccepted, 4))
  {
    OnlyTheirs(Requested, RowPending, 3);
    assert Marked(Riding(Requested, RowPending, 3).rows, "a", "d", RowAccepted, 4) == [Row("a", "d", RowAccepted, 4)];
  }

  lemma Advances(trip: TripStatus, next: TripStatus, now: int)
    requires AllowedTransition(trip, next)
    ensures
      var ended := next.Completed? || next.Cancelled?;
      Leads(Riding(trip, RowAccepted, 4), Advance("a", "d", next), now,
            if ended then Riding(next, RowCancelled, now) else Riding(next, RowAccepted, 4))
  {
    OnlyTheirs(trip, RowAccepted, 4);
    assert Marked(Riding(trip, RowAccepted, 4).rows, "a", "d", RowCancelled, now) == [Row("a", "d", RowCancelled, now)];
  }

  lemma RideAccepted() returns (calls: seq<Call>)
    ensures Went(calls, Riding(Accepted, RowAccepted, 4), 1)
  {
    var started := RideStarts();
    Assigned();
    GoOn(started, WAITING, 0, AssignAny("a", Some("d")), 3, Riding(Requested, RowPending, 3));
    var given := started + [Call(AssignAny("a", Some("d")), 3)];
    Accepts();
    GoOn(given, Riding(Requested, RowPending, 3), 0, Accept("a", "d"), 4, Riding(Accepted, RowAccepted, 4));
    calls := given + [Call(Accept("a", "d"), 4)];
  }

  lemma RideAdvances(calls: seq<Call>, trip: TripStatus, moved: nat, next: TripStatus, now: int, row: RowStatus, at: int)
    requires Went(calls, Riding(trip, RowAccepted, 4), moved) && AllowedTransition(trip, next)
    requires if next.Completed? || next.Cancelled? then row == RowCancelled && at == now else row == RowAccepted && at == 4
    ensures Went(calls + [Call(Advance("a", "d", next), now)], Riding(next, row, at), moved + 1)
  {
    Advances(trip, next, now);
    GoOn(calls, Riding(trip, RowAccepted, 4), moved, Advance("a", "d", next), now, Riding(next, row, at));
  }

  /** The bound of four moves is met: a run in which everything goes right takes a trip through every status, and leaves
      its driver available for the next one. */
  lemma RideArrives() returns (calls: seq<Call>, s: State)
    ensures Went(calls, s, 4) && s.trips == map["a" := Trip(Some("d"), Completed)]
    ensures Idle(s, "d")
  {
    var accepted := RideAccepted();
    RideAdvances(accepted, Accepted, 1, Arriving, 5, RowAccepted, 4);
    var arriving := accepted + [Call(Advance("a", "d", Arriving), 5)];
    RideAdvances(arriving, Arriving, 2, InRide, 6, RowAccepted, 4);
    var inRide := arriving + [Call(Advance("a", "d", InRide), 6)];
    RideAdvances(inRide, InRide, 3, Completed, 7, RowCancelled, 7);
    calls := inRide + [Call(Advance("a", "d", Completed), 7)];
    s := Riding(Completed, RowCancelled, 7);
  }
}
