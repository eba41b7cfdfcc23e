/** Riders who can afford their open trips: what runs of completions and top-ups do to a balance. */
module TripSolvency {
  import opened Common
  import opened Wallet
  import opened TripCharging

  // ---------------------------------------------------------------- charges and the ledger

  function Fare(cfg: Config, trips: map<string, Trip>, id: string): int {
    if id in trips then FareFor(cfg, trips[id].service) else 0
  }

  /** The fares of the successful charges of a rider's trips. */
  function FaresPaid(cfg: Config, trips: map<string, Trip>, events: seq<Event>, user: string): int {
    if events == [] then 0
    else
      var e := events[|events| - 1];
      FaresPaid(cfg, trips, events[..|events| - 1], user)
      + (if e.Charged? && e.ok && e.id in trips && trips[e.id].rider == user then Fare(cfg, trips, e.id) else 0)
  }

  ghost predicate ChargesKnown(s: State) {
    forall i :: 0 <= i < |s.events| && s.events[i].Charged? ==> s.events[i].id in s.trips
  }

  /** Trips only gain new identifiers; the rider and the service of one never change. */
  ghost predicate Extends(a: map<string, Trip>, b: map<string, Trip>) {
    forall id :: id in a ==> id in b && b[id].rider == a[id].rider && b[id].service == a[id].service
  }

  lemma {:induction false} FaresPaidFrame(cfg: Config, a: map<string, Trip>, b: map<string, Trip>, events: seq<Event>, user: string)
    requires Extends(a, b) && forall i :: 0 <= i < |events| && events[i].Charged? ==> events[i].id in a
    ensures FaresPaid(cfg, a, events, user) == FaresPaid(cfg, b, events, user)
  {
    if events != [] { FaresPaidFrame(cfg, a, b, events[..|events| - 1], user); }
  }

  lemma FaresPaidSnoc(cfg: Config, trips: map<string, Trip>, events: seq<Event>, e: Event, user: string)
    ensures
      FaresPaid(cfg, trips, events + [e], user) ==
      FaresPaid(cfg, trips, events, user)
      + (if e.Charged? && e.ok && e.id in trips && trips[e.id].rider == user then Fare(cfg, trips, e.id) else 0)
  {
    assert (events + [e])[..|events|] == events;
  }

  lemma TotalSnoc(ledger: seq<Tx>, tx: Tx, user: string, kind: Kind)
    ensures Total(ledger + [tx], user, kind) ==
            Total(ledger, user, kind) + (if tx.user == user && tx.kind == kind then tx.amount else 0)
  {
    assert (ledger + [tx])[..|ledger|] == ledger;
  }

  ghost predicate Booked(cfg: Config, s: State, user: string) {
    ChargesKnown(s) && Total(s.tables.ledger, user, Deduction) == FaresPaid(cfg, s.trips, s.events, user)
  }

  lemma DeductBooks(cfg: Config, tables: Store, trip: Trip, failed: bool, user: string)
    ensures
      var (after, ok) := Deduct(cfg, tables, trip, failed);
      Total(after.ledger, user, Deduction) ==
      Total(tables.ledger, user, Deduction) + (if ok && trip.rider == user then FareFor(cfg, trip.service) else 0)
  {
    TotalSnoc(tables.ledger, Tx(trip.rider, FareFor(cfg, trip.service), Deduction), user, Deduction);
  }

  lemma RewardBooks(cfg: Config, tables: Store, trip: Trip, failed: bool, user: string)
    ensures Total(GiveReward(cfg, tables, trip, failed).0.ledger, user, Deduction)
            == Total(tables.ledger, user, Deduction)
  {
    TotalSnoc(tables.ledger, Tx(trip.rider, cfg.rewardPoints, Reward), user, Deduction);
  }

  lemma BookedSnoc(cfg: Config, s: State, tables: Store, e: Event, user: string)
    requires Booked(cfg, s, user) && !e.Moved? && e.id in s.trips
    requires Total(tables.ledger, user, Deduction) ==
             Total(s.tables.ledger, user, Deduction)
             + (if e.Charged? && e.ok && s.trips[e.id].rider == user then Fare(cfg, s.trips, e.id) else 0)
    ensures Booked(cfg, s.(tables := tables, events := s.events + [e]), user)
  {
    FaresPaidSnoc(cfg, s.trips, s.events, e, user);
  }

  lemma BookedSettle(cfg: Config, s: State, id: string, f: Faults, user: string)
    requires Booked(cfg, s, user) && id in s.trips
    ensures Booked(cfg, Settle(cfg, s, id, s.trips[id], f).0, user)
  {
    var trip := s.trips[id];
    var (paid, ok) := Deduct(cfg, s.tables, trip, f.deduct);
    var charged := s.(tables := paid, events := s.events + [Charged(id, ok)]);
    DeductBooks(cfg, s.tables, trip, f.deduct, user);
    BookedSnoc(cfg, s, paid, Charged(id, ok), user);
    if ok {
      var (rewarded, rok) := GiveReward(cfg, paid, trip, f.reward);
      RewardBooks(cfg, paid, trip, f.reward, user);
      BookedSnoc(cfg, charged, rewarded, Rewarded(id, rok), user);
    }
  }

  /** The state after a status is written; `e` is the record of that. */
  function MovedTo(s: State, id: string, status: TripStatus, e: Event): State
    requires id in s.trips
  {
    s.(trips := s.trips[id := s.trips[id].(status := status)], events := s.events + [e])
  }

  lemma MoveKeepsFares(cfg: Config, s: State, id: string, status: TripStatus, e: Event, user: string)
    requires ChargesKnown(s) && id in s.trips && !e.Charged?
    ensures ChargesKnown(MovedTo(s, id, status, e))
    ensures FaresPaid(cfg, MovedTo(s, id, status, e).trips, MovedTo(s, id, status, e).events, user)
            == FaresPaid(cfg, s.trips, s.events, user)
  {
    var trips := MovedTo(s, id, status, e).trips;
    FaresPaidFrame(cfg, s.trips, trips, s.events, user);
    FaresPaidSnoc(cfg, trips, s.events, e, user);
  }

  lemma BookedMove(cfg: Config, s: State, id: string, status: TripStatus, e: Event, user: string)
    requires Booked(cfg, s, user) && id in s.trips && !e.Charged?
    ensures Booked(cfg, MovedTo(s, id, status, e), user)
  {
    MoveKeepsFares(cfg, s, id, status, e, user);
  }

  lemma BookedUpdate(setup: Setup, s: State, id: string, status: TripStatus, f: Faults, user: string)
    requires Booked(setup.wallets, s, user)
    ensures Booked(setup.wallets, UpdateStatus(setup, s, id, status, f).0, user)
  {
    if id in s.trips {
      var trip := s.trips[id];
      var e := Moved(id, trip.status, status);
      var moved := MovedTo(s, id, status, e);
      BookedMove(setup.wallets, s, id, status, e, user);
      BookedSettle(setup.wallets, moved, id, f, user);
      assert Settle(setup.wallets, moved, id, moved.trips[id], f) == Settle(setup.wallets, moved, id, trip, f);
    }
  }

  lemma BookedCreate(setup: Setup, s: State, n: NewTrip, f: Faults, user: string)
    requires Booked(setup.wallets, s, user)
    ensures Booked(setup.wallets, CreateTrip(setup, s, n, f).0, user)
  {
    FaresPaidFrame(setup.wallets, s.trips, CreateTrip(setup, s, n, f).0.trips, s.events, user);
  }

  lemma BookedStep(setup: Setup, s: State, op: Op, user: string)
    requires Booked(setup.wallets, s, user)
    ensures Booked(setup.wallets, Step(setup, s, op), user)
  {
    match op
    case Create(n, f) => BookedCreate(setup, s, n, f, user);
    case TopUpWallet(u, amount) => TotalSnoc(s.tables.ledger, Tx(u, amount, TopUp), user, Deduction);
    case Update(id, status, f) => BookedUpdate(setup, s, id, status, f, user);
    case DriverUpdate(id, status) =>
      if id in s.trips {
        BookedMove(setup.wallets, s, id, status, DriverMoved(id, s.trips[id].status, status), user);
      }
  }

  /** Over every run: a rider's committed deductions are exactly the fares of the successful charges of their trips. */
  lemma {:induction false} DeductionsAreFares(setup: Setup, ops: seq<Op>, user: string)
    ensures
      var s := Run(setup, ops);
      Total(s.tables.ledger, user, Deduction) == FaresPaid(setup.wallets, s.trips, s.events, user)
    ensures Booked(setup.wallets, Run(setup, ops), user)
  {
    if ops != [] {
      DeductionsAreFares(setup, ops[..|ops| - 1], user);
      BookedStep(setup, Run(setup, ops[..|ops| - 1]), ops[|ops| - 1], user);
    }
  }

  // ---------------------------------------------------------------- what open trips will cost

  /** The rider's trips that have not been completed, so not been charged. */
  function OpenTrips(trips: map<string, Trip>, user: string): set<string> {
    set id | id in trips && trips[id].rider == user && !trips[id].status.Completed?
  }

  ghost function FareSum(cfg: Config, trips: map<string, Trip>, ids: set<string>): int {
    if ids == {} then 0
    else
      var id :| id in ids;
      Fare(cfg, trips, id) + FareSum(cfg, trips, ids - {id})
  }

  lemma {:induction false} FareSumWithout(cfg: Config, trips: map<string, Trip>, ids: set<string>, id: string)
    requires id in ids
    ensures FareSum(cfg, trips, ids) == Fare(cfg, trips, id) + FareSum(cfg, trips, ids - {id})
    decreases |ids|
  {
    var first :| first in ids && FareSum(cfg, trips, ids) == Fare(cfg, trips, first) + FareSum(cfg, trips, ids - {first});
    if first != id {
      FareSumWithout(cfg, trips, ids - {first}, id);
      FareSumWithout(cfg, trips, ids - {id}, first);
      assert ids - {first} - {id} == ids - {id} - {first};
    }
  }

  lemma {:induction false} FareSumFrame(cfg: Config, a: map<string, Trip>, b: map<string, Trip>, ids: set<string>)
    requires forall id :: id in ids ==> Fare(cfg, a, id) == Fare(cfg, b, id)
    ensures FareSum(cfg, a, ids) == FareSum(cfg, b, ids)
    decreases |ids|
  {
    if ids != {} {
      var id :| id in ids;
      FareSumWithout(cfg, a, ids, id);
      FareSumWithout(cfg, b, ids, id);
      FareSumFrame(cfg, a, b, ids - {id});
    }
  }

  /** Every trip of the rider has a positive fare, its own or the default one. */
  ghost predicate FaresPositive(cfg: Config, trips: map<string, Trip>, user: string) {
    forall id :: id in trips && trips[id].rider == user ==> FareFor(cfg, trips[id].service) > 0
  }

  lemma {:induction false} FareSumNonNegative(cfg: Config, trips: map<string, Trip>, ids: set<string>)
    requires forall id :: id in ids ==> Fare(cfg, trips, id) >= 0
    ensures FareSum(cfg, trips, ids) >= 0
    decreases |ids|
  {
    if ids != {} {
      var id :| id in ids;
      FareSumWithout(cfg, trips, ids, id);
      FareSumNonNegative(cfg, trips, ids - {id});
    }
  }

  ghost function Due(cfg: Config, s: State, user: string): int {
    FareSum(cfg, s.trips, OpenTrips(s.trips, user))
  }

  function BalanceOf(s: State, user: string): int { View(s.tables.wallets, user).balance }

  // ---------------------------------------------------------------- solvency

  /** What an operation adds to the rider's balance from outside. */
  function Added(cfg: Config, op: Op, user: string): int {
    if op.TopUpWallet? && op.user == user && op.amount > 0 && cfg.minTopUp <= op.amount <= cfg.maxTopUp then op.amount
    else 0
  }

  function AddedBy(cfg: Config, ops: seq<Op>, user: string): int {
    if ops == [] then 0 else Added(cfg, ops[0], user) + AddedBy(cfg, ops[1..], user)
  }

  /** The fare the rider is spared because a driver, and not the trip service, completes the trip. */
  function Spared(cfg: Config, s: State, op: Op, user: string): int {
    if op.DriverUpdate? && op.status.Completed? && op.id in OpenTrips(s.trips, user)
       && DriverWrite(s, op.id, op.status) != s then Fare(cfg, s.trips, op.id)
    else 0
  }

  function SparedBy(setup: Setup, s: State, ops: seq<Op>, user: string): int
    decreases |ops|
  {
    if ops == [] then 0
    else Spared(setup.wallets, s, ops[0], user) + SparedBy(setup, Step(setup, s, ops[0]), ops[1..], user)
  }

  function RunFrom(setup: Setup, s: State, ops: seq<Op>): State
    decreases |ops|
  {
    if ops == [] then s else RunFrom(setup, Step(setup, s, ops[0]), ops[1..])
  }

  predicate StaysCompleted(s: State, id: string, status: TripStatus) {
    id in s.trips && s.trips[id].status.Completed? ==> status.Completed?
  }

  /** No new trip of the rider, no failing store call during an update, no completed trip reopened, and no top-up beyond
      what the rider's balance can hold. */
  ghost predicate Forward(setup: Setup, s: State, ops: seq<Op>, user: string)
    decreases |ops|
  {
    ops != [] ==>
      && (match ops[0]
          case Create(n, _) => n.rider != user
          case Update(id, status, f) => f == NO_FAULTS && StaysCompleted(s, id, status)
          case DriverUpdate(id, status) => StaysCompleted(s, id, status)
          case TopUpWallet(_, _) => BalanceOf(s, user) + Added(setup.wallets, ops[0], user) <= MAX_INT64)
      && Forward(setup, Step(setup, s, ops[0]), ops[1..], user)
  }

  /** Of the events from `n` on, no charge of one of the rider's trips failed. */
  ghost predicate PaidSince(s: State, n: nat, user: string) {
    forall i :: (n <= i < |s.events| && s.events[i].Charged? && s.events[i].id in s.trips
                 && s.trips[s.events[i].id].rider == user) ==> s.events[i].ok
  }

  lemma RewardKeepsBalance(cfg: Config, tables: Store, trip: Trip, user: string)
    ensures View(GiveReward(cfg, tables, trip, false).0.wallets, user).balance == View(tables.wallets, user).balance
  {
  }

  lemma DueAfterMove(cfg: Config, s: State, id: string, status: TripStatus, e: Event, user: string)
    requires id in s.trips && StaysCompleted(s, id, status)
    ensures
      Due(cfg, MovedTo(s, id, status, e), user) ==
      Due(cfg, s, user) - (if id in OpenTrips(s.trips, user) && status.Completed? then Fare(cfg, s.trips, id) else 0)
  {
    var t := MovedTo(s, id, status, e);
    var open, later := OpenTrips(s.trips, user), OpenTrips(t.trips, user);
    if id in open && status.Completed? {
      assert later == open - {id};
      FareSumWithout(cfg, s.trips, open, id);
    } else {
      assert later == open;
    }
    FareSumFrame(cfg, s.trips, t.trips, later);
  }

  lemma PaidAfterMove(s: State, id: string, status: TripStatus, e: Event, n: nat, user: string)
    requires id in s.trips && !e.Charged? && PaidSince(s, n, user)
    ensures PaidSince(MovedTo(s, id, status, e), n, user)
  {
    var t := MovedTo(s, id, status, e);
    assert forall i :: 0 <= i < |s.events| ==> t.events[i] == s.events[i];
  }

  /** Paying for one trip that the balance covers, then the reward. */
  lemma SolventSettle(cfg: Config, s: State, id: string, trip: Trip, user: string)
    requires user != ""
    requires trip.rider == user ==> 0 < FareFor(cfg, trip.service) <= BalanceOf(s, user) <= MAX_INT64
    ensures
      var t := Settle(cfg, s, id, trip, NO_FAULTS).0;
      && t.trips == s.trips && s.events <= t.events
      && BalanceOf(t, user) == BalanceOf(s, user) - (if trip.rider == user then FareFor(cfg, trip.service) else 0)
      && (trip.rider == user ==> forall i :: |s.events| <= i < |t.events| && t.events[i].Charged? ==> t.events[i].ok)
      && (forall i :: |s.events| <= i < |t.events| && t.events[i].Charged? ==> t.events[i].id == id)
  {
    RewardKeepsBalance(cfg, Deduct(cfg, s.tables, trip, false).0, trip, user);
    if trip.rider == user {
      DeductExactly(cfg, s.tables, user, trip.service);
      WrapExact(BalanceOf(s, user) - FareFor(cfg, trip.service));
    }
  }

  /** What a step keeps: later charges paid, fares positive, and the balance ahead of the fares due by as much as before,
      plus `gain`. */
  ghost predicate Kept(cfg: Config, s: State, t: State, n: nat, gain: int, user: string) {
    && PaidSince(t, n, user) && FaresPositive(cfg, t.trips, user)
    && BalanceOf(t, user) - Due(cfg, t, user) == BalanceOf(s, user) - Due(cfg, s, user) + gain
  }

  lemma SolventUpdate(setup: Setup, s: State, id: string, status: TripStatus, n: nat, user: string)
    requires setup.wired && FaresPositive(setup.wallets, s.trips, user) && user != ""
    requires Due(setup.wallets, s, user) <= BalanceOf(s, user) <= MAX_INT64
    requires StaysCompleted(s, id, status) && PaidSince(s, n, user)
    ensures
      var t := UpdateStatus(setup, s, id, status, NO_FAULTS).0;
      Kept(setup.wallets, s, t, n, 0, user) && BalanceOf(t, user) <= BalanceOf(s, user)
  {
    if id in s.trips && !status.UnknownStatus? {
      var cfg, trip := setup.wallets, s.trips[id];
      var e := Moved(id, trip.status, status);
      var moved := MovedTo(s, id, status, e);
      DueAfterMove(cfg, s, id, status, e, user);
      PaidAfterMove(s, id, status, e, n, user);
      if status.Completed? && !trip.status.Completed? {
        FareSumNonNegative(cfg, moved.trips, OpenTrips(moved.trips, user));
        SolventSettle(cfg, moved, id, trip, user);
        var t := Settle(cfg, moved, id, trip, NO_FAULTS).0;
        assert forall i :: 0 <= i < |moved.events| ==> t.events[i] == moved.events[i];
      }
    }
  }

  lemma SolventDriver(cfg: Config, s: State, id: string, status: TripStatus, n: nat, user: string)
    requires FaresPositive(cfg, s.trips, user) && StaysCompleted(s, id, status) && PaidSince(s, n, user)
    ensures
      var t := DriverWrite(s, id, status);
      Kept(cfg, s, t, n, Spared(cfg, s, DriverUpdate(id, status), user), user) && BalanceOf(t, user) == BalanceOf(s, user)
  {
    if id in s.trips && DriverWrite(s, id, status) != s {
      var e := DriverMoved(id, s.trips[id].status, status);
      DueAfterMove(cfg, s, id, status, e, user);
      PaidAfterMove(s, id, status, e, n, user);
    }
  }

  lemma SolventTopUp(setup: Setup, s: State, who: string, amount: int, user: string)
    requires user != "" && 0 <= BalanceOf(s, user)
    requires BalanceOf(s, user) + Added(setup.wallets, TopUpWallet(who, amount), user) <= MAX_INT64
    ensures
      var t := Step(setup, s, TopUpWallet(who, amount));
      && t.trips == s.trips && t.events == s.events
      && BalanceOf(t, user) == BalanceOf(s, user) + Added(setup.wallets, TopUpWallet(who, amount), user)
  {
    if who == user && Added(setup.wallets, TopUpWallet(who, amount), user) > 0 {
      WrapExact(BalanceOf(s, user) + amount);
    }
  }

  /** A creation looks at the balance but takes nothing. */
  lemma CreateAdds(setup: Setup, s: State, n: NewTrip, f: Faults, user: string)
    ensures
      var (t, r) := CreateTrip(setup, s, n, f);
      && BalanceOf(t, user) == BalanceOf(s, user) && t.events == s.events
      && (r.Refused? ==> t.trips == s.trips)
      && Due(setup.wallets, t, user) ==
         Due(setup.wallets, s, user) + (if r.Done? && n.rider == user then FareFor(setup.wallets, n.service) else 0)
  {
    var cfg := setup.wallets;
    var (t, r) := CreateTrip(setup, s, n, f);
    var open := OpenTrips(s.trips, user);
    FareSumFrame(cfg, s.trips, t.trips, open);
    if r.Done? && n.rider == user {
      assert OpenTrips(t.trips, user) == open + {n.id};
      FareSumWithout(cfg, t.trips, open + {n.id}, n.id);
      assert open + {n.id} - {n.id} == open;
    } else {
      assert OpenTrips(t.trips, user) == open;
    }
  }

  lemma SolventCreate(setup: Setup, s: State, trip: NewTrip, f: Faults, n: nat, user: string)
    requires trip.rider != user && FaresPositive(setup.wallets, s.trips, user) && PaidSince(s, n, user)
    ensures
      var t := CreateTrip(setup, s, trip, f).0;
      Kept(setup.wallets, s, t, n, 0, user) && BalanceOf(t, user) == BalanceOf(s, user)
  {
    CreateAdds(setup, s, trip, f, user);
  }

  /** The balance check of a creation reserves nothing: a rider who could afford all open trips still can, exactly when
      the balance also covers the new fare on top of them. */
  lemma CreateSolventExactly(setup: Setup, s: State, n: NewTrip, f: Faults)
    requires CreateTrip(setup, s, n, f).1.Done?
    ensures
      var t := CreateTrip(setup, s, n, f).0;
      Due(setup.wallets, t, n.rider) <= BalanceOf(t, n.rider) <==>
      Due(setup.wallets, s, n.rider) + FareFor(setup.wallets, n.service) <= BalanceOf(s, n.rider)
  {
    CreateAdds(setup, s, n, f, n.rider);
  }

  lemma SparedNonNegative(cfg: Config, s: State, op: Op, user: string)
    requires FaresPositive(cfg, s.trips, user)
    ensures Spared(cfg, s, op, user) >= 0
  {
  }

  lemma SolventStep(setup: Setup, s: State, ops: seq<Op>, n: nat, user: string)
    requires setup.wired && FaresPositive(setup.wallets, s.trips, user) && user != ""
    requires ops != [] && Forward(setup, s, ops, user) && PaidSince(s, n, user)
    requires Due(setup.wallets, s, user) <= BalanceOf(s, user) <= MAX_INT64
    ensures
      var t := Step(setup, s, ops[0]);
      && Kept(setup.wallets, s, t, n, Added(setup.wallets, ops[0], user) + Spared(setup.wallets, s, ops[0], user), user)
      && BalanceOf(t, user) <= MAX_INT64
  {
    FareSumNonNegative(setup.wallets, s.trips, OpenTrips(s.trips, user));
    match ops[0]
    case Update(id, status, _) => SolventUpdate(setup, s, id, status, n, user);
    case DriverUpdate(id, status) => SolventDriver(setup.wallets, s, id, status, n, user);
    case Create(trip, f) => SolventCreate(setup, s, trip, f, n, user);
    case TopUpWallet(who, amount) => SolventTopUp(setup, s, who, amount, user);
  }

  lemma {:induction false} SolventRun(setup: Setup, s: State, ops: seq<Op>, n: nat, user: string)
    requires setup.wired && FaresPositive(setup.wallets, s.trips, user) && user != ""
    requires Forward(setup, s, ops, user) && PaidSince(s, n, user)
    requires Due(setup.wallets, s, user) <= BalanceOf(s, user) <= MAX_INT64
    ensures Kept(setup.wallets, s, RunFrom(setup, s, ops), n,
                 AddedBy(setup.wallets, ops, user) + SparedBy(setup, s, ops, user), user)
    ensures Due(setup.wallets, RunFrom(setup, s, ops), user) <= BalanceOf(RunFrom(setup, s, ops), user)
    decreases |ops|
  {
    if ops != [] {
      SparedNonNegative(setup.wallets, s, ops[0], user);
      SolventStep(setup, s, ops, n, user);
      SolventRun(setup, Step(setup, s, ops[0]), ops[1..], n, user);
    }
  }

  /** If the rider's fares are positive and the balance covers the fares of all the rider's open trips, then completing
      them in any order, among any top-ups, drivers' writes and activity of other riders, never fails to charge one, and
      the balance ends at its start plus the top-ups less the fares of the trips completed, but for those a driver
      completed.  Charges that failed earlier do not matter. */
  lemma {:induction false} OpenTripsSolvent(setup: Setup, s: State, ops: seq<Op>, user: string)
    requires setup.wired && FaresPositive(setup.wallets, s.trips, user) && user != ""
    requires Forward(setup, s, ops, user)
    requires Due(setup.wallets, s, user) <= BalanceOf(s, user) <= MAX_INT64
    ensures
      var t := RunFrom(setup, s, ops);
      && PaidSince(t, |s.events|, user)
      && BalanceOf(t, user) == BalanceOf(s, user) + AddedBy(setup.wallets, ops, user)
                               - (Due(setup.wallets, s, user) - Due(setup.wallets, t, user) - SparedBy(setup, s, ops, user))
      && Due(setup.wallets, t, user) <= BalanceOf(t, user)
  {
    SolventRun(setup, s, ops, |s.events|, user);
  }

  /** Once none of the rider's trips is open: start, plus top-ups, less the sum of the fares, but for those spared. */
  lemma {:induction false} AllCompleted(setup: Setup, s: State, ops: seq<Op>, user: string)
    requires setup.wired && FaresPositive(setup.wallets, s.trips, user) && user != ""
    requires Forward(setup, s, ops, user)
    requires Due(setup.wallets, s, user) <= BalanceOf(s, user) <= MAX_INT64
    requires OpenTrips(RunFrom(setup, s, ops).trips, user) == {}
    ensures BalanceOf(RunFrom(setup, s, ops), user)
            == BalanceOf(s, user) + AddedBy(setup.wallets, ops, user)
               - (FareSum(setup.wallets, s.trips, OpenTrips(s.trips, user)) - SparedBy(setup, s, ops, user))
  {
    OpenTripsSolvent(setup, s, ops, user);
  }
}
