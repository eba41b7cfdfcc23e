/** Charging and rewarding completed trips: `TripService` of `domain/service.go`, reading trips from the primary store. */
module TripCharging {
  import opened Common
  import opened Wallet
  import Dispatch
  import DispatchBooking
  import DispatchEffects

  /** A trip as a rider asks for it, under the identifier it will get. */
  datatype NewTrip = NewTrip(id: string, rider: string, origin: string, destination: string, service: string)

  datatype Trip = Trip(rider: string, origin: string, destination: string, service: string, status: TripStatus)

  datatype Outcome = Done | Refused

  /** The history the theorems speak of: status changes written by the trip service and by the driver service, fare
      deductions attempted, rewards attempted. */
  datatype Event =
    | Moved(id: string, from: TripStatus, to: TripStatus)
    | DriverMoved(id: string, from: TripStatus, to: TripStatus)
    | Charged(id: string, ok: bool)
    | Rewarded(id: string, ok: bool)

  datatype State = State(trips: map<string, Trip>, tables: Store, events: seq<Event>)

  /** Which store calls fail during one service call. */
  datatype Faults = Faults(read: bool, write: bool, deduct: bool, reward: bool)

  const NO_FAULTS := Faults(false, false, false, false)

  /** `wired` says whether the service has wallets, `notifies` whether it has a notifier. */
  datatype Setup = Setup(wallets: Config, wired: bool, notifies: bool)

  function Deduct(cfg: Config, tables: Store, trip: Trip, failed: bool): (Store, bool) {
    if failed then (tables, false)
    else
      var (after, r) := DoDeduct(cfg, tables, trip.rider, trip.service);
      (after, r.Ok?)
  }

  function GiveReward(cfg: Config, tables: Store, trip: Trip, failed: bool): (Store, bool) {
    if failed then (tables, false)
    else
      var (after, r) := DoReward(cfg, tables, trip.rider);
      (after, r.Ok?)
  }

  /** The part of `UpdateStatus` after the status is written. */
  function Settle(cfg: Config, s: State, id: string, trip: Trip, f: Faults): (State, Outcome) {
    var (paid, ok) := Deduct(cfg, s.tables, trip, f.deduct);
    var charged := s.(tables := paid, events := s.events + [Charged(id, ok)]);
    if !ok then (charged, Refused)
    else
      var (rewarded, rok) := GiveReward(cfg, paid, trip, f.reward);
      (charged.(tables := rewarded, events := charged.events + [Rewarded(id, rok)]), if rok then Done else Refused)
  }

  function UpdateStatus(setup: Setup, s: State, id: string, status: TripStatus, f: Faults): (State, Outcome) {
    var needsWallet := setup.wired && status.Completed?;
    var needsTrip := setup.notifies && (status.Arriving? || status.Completed?);
    if status.UnknownStatus? then (s, Refused)
    else if (needsWallet || needsTrip) && f.read then (s, Refused)
    else if f.write || id !in s.trips then (s, Refused)
    else
      var trip := s.trips[id];
      var moved := s.(trips := s.trips[id := trip.(status := status)], events := s.events + [Moved(id, trip.status, status)]);
      if needsWallet && !trip.status.Completed? then Settle(setup.wallets, moved, id, trip, f) else (moved, Done)
  }

  /** `Create`: checks the balance when wallets are wired, then stores the trip as requested. */
  function CreateTrip(setup: Setup, s: State, n: NewTrip, f: Faults): (State, Outcome) {
    if n.rider == "" || n.origin == "" || n.destination == "" || n.service == "" then (s, Refused)
    else if setup.wired && f.read then (s, Refused)
    else
      var (tables, r) := if setup.wired then DoEnsure(setup.wallets, s.tables, n.rider, n.service) else (s.tables, Ok(0));
      if r.Err? || f.write || n.id in s.trips then (s.(tables := tables), Refused)
      else (s.(tables := tables, trips := s.trips[n.id := Requesting(n)]), Done)
  }

  function Requesting(n: NewTrip): Trip { Trip(n.rider, n.origin, n.destination, n.service, Requested) }

  /** What the driver service may write to the same row: accepted, whatever the trip's status, or an allowed transition.
      Neither looks at a wallet. */
  function DriverWrite(s: State, id: string, status: TripStatus): State {
    if id !in s.trips || !(status.Accepted? || Dispatch.AllowedTransition(s.trips[id].status, status)) then s
    else
      var trip := s.trips[id];
      s.(trips := s.trips[id := trip.(status := status)], events := s.events + [DriverMoved(id, trip.status, status)])
  }

  // ---------------------------------------------------------------- the object of the source

  class TripService {
    const setup: Setup
    const wallets: WalletService
    var trips: map<string, Trip>
    ghost var events: seq<Event>

    constructor (setup: Setup, wallets: WalletService)
      requires wallets.cfg == setup.wallets
      ensures this.setup == setup && this.wallets == wallets && trips == map[] && events == []
    {
      this.setup, this.wallets, trips, events := setup, wallets, map[], [];
    }

    ghost function View(): State reads this, wallets.repo { State(trips, wallets.repo.Tables(), events) }

    method Create(n: NewTrip, f: Faults) returns (r: Outcome)
      requires wallets.cfg == setup.wallets
      modifies this, wallets.repo
      ensures (View(), r) == CreateTrip(setup, old(View()), n, f)
    {
      if n.rider == "" { return Refused; }
      if n.origin == "" || n.destination == "" { return Refused; }
      if n.service == "" { return Refused; }
      if setup.wired {
        var enough := wallets.EnsureBalanceForTrip(n.rider, n.service, f.read);
        if enough.Err? { return Refused; }
      }
      if f.write || n.id in trips { return Refused; }
      trips := trips[n.id := Requesting(n)];
      r := Done;
    }

    method Update(id: string, status: TripStatus, f: Faults) returns (r: Outcome)
      requires wallets.cfg == setup.wallets
      modifies this, wallets.repo
      ensures (View(), r) == UpdateStatus(setup, old(View()), id, status, f)
    {
      if status.UnknownStatus? { return Refused; }
      var needsWallet := setup.wired && status.Completed?;
      var needsTrip := setup.notifies && (status.Arriving? || status.Completed?);
      if needsWallet || needsTrip {
        if f.read || id !in trips { return Refused; }
      }
      if f.write || id !in trips { return Refused; }
      var trip := trips[id];
      trips := trips[id := trip.(status := status)];
      events := events + [Moved(id, trip.status, status)];
      if needsWallet && !trip.status.Completed? {
        var paid := wallets.DeductTripFare(trip.rider, trip.service, f.deduct);
        events := events + [Charged(id, paid.Ok?)];
        if paid.Err? { return Refused; }
        var rewarded := wallets.RewardTripCompletion(trip.rider, f.reward);
        events := events + [Rewarded(id, rewarded.Ok?)];
        if rewarded.Err? { return Refused; }
      }
      r := Done;
    }
  }

  // ---------------------------------------------------------------- runs

  datatype Op =
    | Create(trip: NewTrip, faults: Faults)
    | Update(id: string, status: TripStatus, faults: Faults)
    | DriverUpdate(id: string, status: TripStatus)
    | TopUpWallet(user: string, amount: int)

  function Step(setup: Setup, s: State, op: Op): State {
    match op
    case Create(n, f) => CreateTrip(setup, s, n, f).0
    case Update(id, status, f) => UpdateStatus(setup, s, id, status, f).0
    case DriverUpdate(id, status) => DriverWrite(s, id, status)
    case TopUpWallet(user, amount) => s.(tables := DoTopUp(setup.wallets, s.tables, user, amount).0)
  }

  const INIT := State(map[], Store(map[], []), [])

  function Run(setup: Setup, ops: seq<Op>): State {
    if ops == [] then INIT else Step(setup, Run(setup, ops[..|ops| - 1]), ops[|ops| - 1])
  }

  // ---------------------------------------------------------------- what the calls do

  ghost predicate Completes(trip: Trip, status: TripStatus) { status.Completed? && !trip.status.Completed? }

  /** An update is refused before it writes anything. */
  ghost predicate Blocked(setup: Setup, s: State, id: string, status: TripStatus, f: Faults) {
    || status.UnknownStatus? || id !in s.trips || f.write
    || (f.read && ((setup.wired && status.Completed?) || (setup.notifies && (status.Arriving? || status.Completed?))))
  }

  /** The rider can pay for the trip. */
  ghost predicate Affords(cfg: Config, s: State, trip: Trip) {
    trip.rider != "" && 0 < FareFor(cfg, trip.service) <= View(s.tables.wallets, trip.rider).balance
  }

  /** The update completes a trip it has to charge. */
  ghost predicate Charges(setup: Setup, s: State, id: string, status: TripStatus) {
    setup.wired && id in s.trips && Completes(s.trips[id], status)
  }

  /** An update is done exactly if nothing stops it before it writes and, when it completes a trip with wallets wired, the
      rider can pay and neither wallet call fails.  The status is written as soon as nothing stops it, so a refusal may
      leave a completed trip behind. */
  lemma UpdateExactly(setup: Setup, s: State, id: string, status: TripStatus, f: Faults)
    ensures
      var (t, r) := UpdateStatus(setup, s, id, status, f);
      && (r.Done? <==>
            && !Blocked(setup, s, id, status, f)
            && (Charges(setup, s, id, status) ==> !f.deduct && Affords(setup.wallets, s, s.trips[id]) && !f.reward))
      && (if Blocked(setup, s, id, status, f) then t == s
          else t.trips == s.trips[id := s.trips[id].(status := status)])
  {
    if Charges(setup, s, id, status) && !Blocked(setup, s, id, status, f) {
      var trip := s.trips[id];
      if trip.rider != "" {
        DeductExactly(setup.wallets, s.tables, trip.rider, trip.service);
        RewardExactly(setup.wallets, Deduct(setup.wallets, s.tables, trip, f.deduct).0, trip.rider);
      }
    }
  }

  /** What the wallet of the rider of a completed trip holds afterwards, if the charge goes through. */
  function Settled(cfg: Config, w: Summary, trip: Trip, rewarded: bool): Summary {
    Summary(w.balance - FareFor(cfg, trip.service),
            if rewarded && cfg.rewardPoints > 0 then Wrap64(w.points + cfg.rewardPoints) else w.points)
  }

  /** Money moves exactly when a trip is completed whose rider can pay and the deduction does not fail: the fare leaves the
      balance, and the points come unless the reward fails, which gives the fare back to nobody.  Nobody else's wallet
      changes. */
  lemma UpdatePays(setup: Setup, s: State, id: string, status: TripStatus, f: Faults)
    requires id in s.trips ==> View(s.tables.wallets, s.trips[id].rider).balance <= MAX_INT64
    ensures
      var t := UpdateStatus(setup, s, id, status, f).0;
      if !Blocked(setup, s, id, status, f) && Charges(setup, s, id, status) && !f.deduct
         && Affords(setup.wallets, s, s.trips[id])
      then
        var rider := s.trips[id].rider;
        && View(t.tables.wallets, rider)
           == Settled(setup.wallets, View(s.tables.wallets, rider), s.trips[id], !f.reward)
        && (forall other :: other != rider ==> View(t.tables.wallets, other) == View(s.tables.wallets, other))
      else SameViews(s.tables, t.tables)
  {
    if Charges(setup, s, id, status) && !Blocked(setup, s, id, status, f) {
      var trip := s.trips[id];
      if trip.rider != "" {
        DeductExactly(setup.wallets, s.tables, trip.rider, trip.service);
        RewardExactly(setup.wallets, Deduct(setup.wallets, s.tables, trip, f.deduct).0, trip.rider);
      }
    }
  }

  /** With the default configuration no trip can be completed without an error, although it is completed. */
  lemma DefaultCompletionRefused(setup: Setup, s: State, id: string, f: Faults)
    requires setup.wired && setup.wallets == DEFAULT_CONFIG && id in s.trips && !s.trips[id].status.Completed?
    ensures
      var (t, r) := UpdateStatus(setup, s, id, Completed, f);
      && r.Refused?
      && (!f.read && !f.write ==> id in t.trips && t.trips[id].status.Completed? && t.tables == s.tables)
  {
    DefaultFaresRefused(s.tables, s.trips[id].rider, s.trips[id].service);
    UpdateExactly(setup, s, id, Completed, f);
    if s.trips[id].rider != "" { DeductExactly(DEFAULT_CONFIG, s.tables, s.trips[id].rider, s.trips[id].service); }
  }

  /** A trip is created exactly if it names its rider, places and service, its identifier is new, no store call fails and,
      with wallets wired, the balance covers the fare; it is as asked for and requested, and nobody pays anything. */
  lemma CreateExactly(setup: Setup, s: State, n: NewTrip, f: Faults)
    ensures
      var (t, r) := CreateTrip(setup, s, n, f);
      && (r.Done? <==>
            && n.rider != "" && n.origin != "" && n.destination != "" && n.service != "" && !f.write && n.id !in s.trips
            && (setup.wired ==>
                  !f.read && FareFor(setup.wallets, n.service) <= View(s.tables.wallets, n.rider).balance))
      && (if r.Refused? then t.trips == s.trips
          else
            && t.trips.Keys == s.trips.Keys + {n.id} && (forall id :: id in s.trips ==> t.trips[id] == s.trips[id])
            && t.trips[n.id].rider == n.rider && t.trips[n.id].origin == n.origin
            && t.trips[n.id].destination == n.destination && t.trips[n.id].service == n.service
            && t.trips[n.id].status == Requested)
      && SameViews(s.tables, t.tables) && t.events == s.events
  {
    EnsureExactly(setup.wallets, s.tables, n.rider, n.service);
  }

  /** The writes of the driver service are those of dispatch: whenever a driver accepts or advances a trip there, the trip
      as charged here gets the same status; nothing is charged, and what dispatch refuses, it does not write. */
  lemma DriverWriteIsDispatch(
    s: State, d: Dispatch.State, id: string, driver: string, next: TripStatus, now: int)
    requires DispatchBooking.OneRowPerTrip(d.rows) && DispatchBooking.RowsRefer(d)
    requires id in s.trips && id in d.trips && s.trips[id].status == d.trips[id].status
    ensures
      var (e, r) := Dispatch.AcceptTrip(d, id, driver, now);
      && id in e.trips
      && if r.Ok? then DriverWrites(s, DriverWrite(s, id, Accepted), id, e.trips[id].status)
         else e.trips[id].status == s.trips[id].status
    ensures
      var (e, r) := Dispatch.UpdateTripStatus(d, id, driver, next, now);
      && id in e.trips
      && (if r.Ok? then DriverWrites(s, DriverWrite(s, id, next), id, e.trips[id].status)
          else e.trips[id].status == s.trips[id].status)
      && (r.Err? && driver in d.drivers && next != Accepted ==> DriverWrite(s, id, next) == s)
  {
    DispatchEffects.AcceptExactly(d, id, driver, now);
    DispatchEffects.AdvanceExactly(d, id, driver, next, now);
    if Dispatch.UpdateTripStatus(d, id, driver, next, now).1.Err? {
      DispatchEffects.AdvanceRefusedExactly(d, id, driver, next, now);
    }
  }

  /** Only the trip's status changed, from what the history says to what it says. */
  ghost predicate DriverWrites(s: State, t: State, id: string, status: TripStatus) {
    && id in s.trips && t.trips == s.trips[id := s.trips[id].(status := status)] && t.tables == s.tables
    && t.events == s.events + [DriverMoved(id, s.trips[id].status, status)]
  }

  // ---------------------------------------------------------------- exact charging

  /** For one trip: how often the trip service took it from not completed to completed, how often the driver service did,
      and how often a charge and a reward were attempted. */
  datatype Tally = Tally(completions: nat, byDriver: nat, charges: nat, rewards: nat)

  function Add(t: Tally, e: Event, id: string): Tally {
    if e.id != id then t
    else
      match e
      case Moved(_, from, to) => if !from.Completed? && to.Completed? then t.(completions := t.completions + 1) else t
      case DriverMoved(_, from, to) => if !from.Completed? && to.Completed? then t.(byDriver := t.byDriver + 1) else t
      case Charged(_, _) => t.(charges := t.charges + 1)
      case Rewarded(_, _) => t.(rewards := t.rewards + 1)
  }

  function Count(events: seq<Event>, id: string): Tally {
    if events == [] then Tally(0, 0, 0, 0) else Add(Count(events[..|events| - 1], id), events[|events| - 1], id)
  }

  predicate Reopens(e: Event, id: string) {
    (e.Moved? || e.DriverMoved?) && e.id == id && e.from.Completed? && !e.to.Completed?
  }

  /** The trip is never moved out of completed, by either service. */
  ghost predicate NeverReopened(events: seq<Event>, id: string) {
    forall i :: 0 <= i < |events| ==> !Reopens(events[i], id)
  }

  /** A reward is attempted only right after its trip was completed and its fare paid. */
  ghost predicate RewardsEarned(events: seq<Event>) {
    forall i :: 0 <= i < |events| ==> EarnedAt(events, i)
  }

  lemma CountSnoc(events: seq<Event>, e: Event, id: string)
    ensures Count(events + [e], id) == Add(Count(events, id), e, id)
    ensures NeverReopened(events + [e], id) <==> NeverReopened(events, id) && !Reopens(e, id)
  {
    var all := events + [e];
    assert all[..|events|] == events;
    assert forall i :: 0 <= i < |events| ==> all[i] == events[i];
    assert all[|events|] == e;
  }

  /** What one call adds to the history: nothing, a status change, a completion with a failed charge, or a completion
      with its charge and a reward. */
  lemma UpdateEvents(setup: Setup, s: State, id: string, status: TripStatus, f: Faults) returns (added: seq<Event>)
    requires setup.wired
    ensures
      var t := UpdateStatus(setup, s, id, status, f).0;
      && t.events == s.events + added && (added == [] <==> Blocked(setup, s, id, status, f))
      && if added == [] then t.trips == s.trips
         else
           && id in s.trips && t.trips == s.trips[id := s.trips[id].(status := status)]
           && added[0] == Moved(id, s.trips[id].status, status)
           && if Completes(s.trips[id], status) then
                && 2 <= |added| <= 3 && added[1] == Charged(id, |added| == 3)
                && (|added| == 3 ==> added[2].Rewarded? && added[2].id == id)
              else |added| == 1
  {
    var t := UpdateStatus(setup, s, id, status, f).0;
    if t.events == s.events {
      added := [];
    } else {
      var trip := s.trips[id];
      var moved := Moved(id, trip.status, status);
      if !Completes(trip, status) {
        added := [moved];
      } else if !Deduct(setup.wallets, s.tables, trip, f.deduct).1 {
        added := [moved, Charged(id, false)];
      } else {
        var rok := GiveReward(setup.wallets, Deduct(setup.wallets, s.tables, trip, f.deduct).0, trip, f.reward).1;
        added := [moved, Charged(id, true), Rewarded(id, rok)];
      }
      assert t.events == s.events + added;
    }
  }

  predicate IsCompleted(s: State, id: string) { id in s.trips && s.trips[id].status.Completed? }

  /** The tally adds up for a trip that is `completed` or not, and was never `reopened` or was. */
  predicate AddsUp(n: Tally, completed: bool, reopened: bool) {
    && n.charges == n.completions && n.rewards <= n.charges
    && (!reopened ==> n.completions + n.byDriver <= 1 && (n.completions + n.byDriver == 1 <==> completed))
  }

  ghost predicate Exact(s: State, id: string) {
    AddsUp(Count(s.events, id), IsCompleted(s, id), !NeverReopened(s.events, id))
  }

  ghost predicate EarnedAt(events: seq<Event>, i: nat)
    requires i < |events|
  {
    events[i].Rewarded? ==>
      && i >= 2 && events[i - 1] == Charged(events[i].id, true)
      && events[i - 2].Moved? && events[i - 2].id == events[i].id
      && !events[i - 2].from.Completed? && events[i - 2].to.Completed?
  }

  lemma EarnedSnoc(events: seq<Event>, e: Event)
    requires RewardsEarned(events) && EarnedAt(events + [e], |events|)
    ensures RewardsEarned(events + [e])
  {
    var all := events + [e];
    forall i | 0 <= i < |all| ensures EarnedAt(all, i) {
      if i < |events| { assert EarnedAt(events, i); }
    }
  }

  lemma EarnedUpdate(setup: Setup, s: State, trip: string, status: TripStatus, f: Faults)
    requires setup.wired && RewardsEarned(s.events)
    ensures RewardsEarned(UpdateStatus(setup, s, trip, status, f).0.events)
  {
    var added := UpdateEvents(setup, s, trip, status, f);
    if added != [] {
      var e1 := s.events + [added[0]];
      EarnedSnoc(s.events, added[0]);
      if |added| > 1 {
        var e2 := e1 + [added[1]];
        EarnedSnoc(e1, added[1]);
        if |added| > 2 {
          EarnedSnoc(e2, added[2]);
          assert s.events + added == e2 + [added[2]];
        } else {
          assert s.events + added == e2;
        }
      } else {
        assert s.events + added == e1;
      }
    }
  }

  lemma CountTwo(events: seq<Event>, a: Event, b: Event, id: string)
    requires !Reopens(b, id)
    ensures Count(events + [a, b], id) == Add(Add(Count(events, id), a, id), b, id)
    ensures NeverReopened(events + [a, b], id) <==> NeverReopened(events, id) && !Reopens(a, id)
  {
    CountSnoc(events, a, id);
    CountSnoc(events + [a], b, id);
    assert events + [a, b] == events + [a] + [b];
  }

  lemma CountThree(events: seq<Event>, a: Event, b: Event, c: Event, id: string)
    requires !Reopens(b, id) && !Reopens(c, id)
    ensures Count(events + [a, b, c], id) == Add(Add(Add(Count(events, id), a, id), b, id), c, id)
    ensures NeverReopened(events + [a, b, c], id) <==> NeverReopened(events, id) && !Reopens(a, id)
  {
    CountTwo(events, a, b, id);
    CountSnoc(events + [a, b], c, id);
    assert events + [a, b, c] == events + [a, b] + [c];
  }

  predicate CompletesTrip(e: Event) { (e.Moved? || e.DriverMoved?) && !e.from.Completed? && e.to.Completed? }

  /** A status change that the tally need not pair with a charge. */
  lemma MoveAddsUp(n: Tally, completed: bool, reopened: bool, e: Event, id: string)
    requires AddsUp(n, completed, reopened) && (e.Moved? || e.DriverMoved?)
    requires e.id == id ==> e.from.Completed? == completed && (e.Moved? ==> !CompletesTrip(e))
    ensures AddsUp(Add(n, e, id), if e.id == id then e.to.Completed? else completed, reopened || Reopens(e, id))
  {
  }

  /** A completion by the trip service, with its charge and perhaps a reward. */
  lemma ChargeAddsUp(n: Tally, completed: bool, reopened: bool, e: Event, charge: Event, reward: Event, id: string)
    requires AddsUp(n, completed, reopened) && e.Moved? && CompletesTrip(e) && (e.id == id ==> !completed)
    requires charge.Charged? && charge.id == e.id && reward.Rewarded? && reward.id == e.id
    ensures
      var charged := Add(Add(n, e, id), charge, id);
      && AddsUp(charged, e.id == id || completed, reopened)
      && AddsUp(Add(charged, reward, id), e.id == id || completed, reopened)
  {
  }

  lemma ExactMoved(s: State, t: State, e: Event, id: string)
    requires Exact(s, id) && t.events == s.events + [e] && (e.Moved? || e.DriverMoved?)
    requires e.id == id ==> e.from.Completed? == IsCompleted(s, id) && (e.Moved? ==> !CompletesTrip(e))
    requires IsCompleted(t, id) == if e.id == id then e.to.Completed? else IsCompleted(s, id)
    ensures Exact(t, id)
  {
    CountSnoc(s.events, e, id);
    MoveAddsUp(Count(s.events, id), IsCompleted(s, id), !NeverReopened(s.events, id), e, id);
  }

  lemma ExactCharged(s: State, t: State, e: Event, charge: Event, reward: Event, id: string)
    requires Exact(s, id) && e.Moved? && CompletesTrip(e) && (e.id == id ==> !IsCompleted(s, id))
    requires charge.Charged? && charge.id == e.id && reward.Rewarded? && reward.id == e.id
    requires t.events == s.events + [e, charge] || t.events == s.events + [e, charge, reward]
    requires IsCompleted(t, id) == (e.id == id || IsCompleted(s, id))
    ensures Exact(t, id)
  {
    CountTwo(s.events, e, charge, id);
    CountThree(s.events, e, charge, reward, id);
    ChargeAddsUp(Count(s.events, id), IsCompleted(s, id), !NeverReopened(s.events, id), e, charge, reward, id);
  }

  lemma ExactUpdate(setup: Setup, s: State, trip: string, status: TripStatus, f: Faults, id: string)
    requires setup.wired && Exact(s, id)
    ensures Exact(UpdateStatus(setup, s, trip, status, f).0, id)
  {
    var t := UpdateStatus(setup, s, trip, status, f).0;
    var added := UpdateEvents(setup, s, trip, status, f);
    if |added| == 1 {
      assert added == [added[0]];
      ExactMoved(s, t, added[0], id);
    } else if |added| > 1 {
      var reward := if |added| == 2 then Rewarded(trip, true) else added[2];
      assert added == if |added| == 2 then [added[0], added[1]] else [added[0], added[1], reward];
      ExactCharged(s, t, added[0], added[1], reward, id);
    }
  }

  lemma DriverExact(s: State, trip: string, status: TripStatus, id: string)
    requires Exact(s, id)
    ensures Exact(DriverWrite(s, trip, status), id)
  {
    var t := DriverWrite(s, trip, status);
    if t != s { ExactMoved(s, t, DriverMoved(trip, s.trips[trip].status, status), id); }
  }

  lemma DriverEarned(s: State, trip: string, status: TripStatus)
    requires RewardsEarned(s.events)
    ensures RewardsEarned(DriverWrite(s, trip, status).events)
  {
    if trip in s.trips { EarnedSnoc(s.events, DriverMoved(trip, s.trips[trip].status, status)); }
  }

  lemma StepExact(setup: Setup, s: State, op: Op, id: string)
    requires setup.wired && Exact(s, id) && RewardsEarned(s.events)
    ensures Exact(Step(setup, s, op), id) && RewardsEarned(Step(setup, s, op).events)
  {
    match op
    case Update(trip, status, f) =>
      ExactUpdate(setup, s, trip, status, f, id);
      EarnedUpdate(setup, s, trip, status, f);
    case DriverUpdate(trip, status) =>
      DriverExact(s, trip, status, id);
      DriverEarned(s, trip, status);
    case Create(_, _) =>
    case TopUpWallet(_, _) =>
  }

  lemma {:induction false} RunsExact(setup: Setup, ops: seq<Op>, id: string)
    requires setup.wired
    ensures Exact(Run(setup, ops), id) && RewardsEarned(Run(setup, ops).events)
  {
    if ops != [] {
      RunsExact(setup, ops[..|ops| - 1], id);
      StepExact(setup, Run(setup, ops[..|ops| - 1]), ops[|ops| - 1], id);
    }
  }

  /** Over every run, whatever store calls fail and whatever the driver service writes in between: a trip's fare is
      attempted exactly once per completion by the trip service, a reward only after that completion's fare was paid; and
      a trip never moved out of completed is charged at most once, namely if it is completed and no driver completed it. */
  lemma {:induction false} ExactCharging(setup: Setup, ops: seq<Op>, id: string)
    requires setup.wired
    ensures
      var s := Run(setup, ops);
      var n := Count(s.events, id);
      && n.charges == n.completions && n.rewards <= n.charges
      && RewardsEarned(s.events)
      && (NeverReopened(s.events, id) ==>
            && n.charges <= 1
            && (n.charges == 1 <==> id in s.trips && s.trips[id].status.Completed? && n.byDriver == 0))
  {
    RunsExact(setup, ops, id);
  }

  /** A trip that a driver completed is never charged unless it is reopened, however often it is completed again. */
  lemma {:induction false} DriverCompletedIsFree(setup: Setup, ops: seq<Op>, id: string)
    requires setup.wired && Count(Run(setup, ops).events, id).byDriver > 0
    ensures
      var s := Run(setup, ops);
      NeverReopened(s.events, id) ==>
        Count(s.events, id).charges == 0 && id in s.trips && s.trips[id].status.Completed?
  {
    RunsExact(setup, ops, id);
  }

  lemma RunSnoc(setup: Setup, ops: seq<Op>, op: Op)
    ensures Run(setup, ops + [op]) == Step(setup, Run(setup, ops), op)
  {
    assert (ops + [op])[..|ops|] == ops;
  }

  /** A rider who can pay, and the trip asked for. */
  ghost predicate CanPay(setup: Setup, n: NewTrip, amount: int) {
    && setup.wired && n.rider != "" && n.origin != "" && n.destination != "" && n.service != ""
    && setup.wallets.minTopUp <= amount <= setup.wallets.maxTopUp
    && 0 < FareFor(setup.wallets, n.service) <= amount <= MAX_INT64
  }

  /** The first steps of a rider: a top-up, then a trip. */
  lemma RiderStarts(setup: Setup, n: NewTrip, amount: int) returns (ops: seq<Op>)
    requires CanPay(setup, n, amount)
    ensures
      var s := Run(setup, ops);
      && s.trips == map[n.id := Requesting(n)] && s.events == []
      && View(s.tables.wallets, n.rider) == Summary(amount, 0)
  {
    TopUpExactly(setup.wallets, INIT.tables, n.rider, amount);
    WrapExact(amount);
    RunSnoc(setup, [], TopUpWallet(n.rider, amount));
    var one := [] + [TopUpWallet(n.rider, amount)];
    CreateExactly(setup, Run(setup, one), n, NO_FAULTS);
    RunSnoc(setup, one, Create(n, NO_FAULTS));
    ops := one + [Create(n, NO_FAULTS)];
    assert Run(setup, ops).trips == map[n.id := Requesting(n)];
  }

  /** From the first top-up to the end of a ride: the rider pays the fare once, gets the points, and the trip is
      completed. */
  lemma RiderPays(setup: Setup, n: NewTrip, amount: int) returns (ops: seq<Op>)
    requires CanPay(setup, n, amount)
    ensures
      var s := Run(setup, ops);
      && s.trips == map[n.id := Requesting(n).(status := Completed)]
      && View(s.tables.wallets, n.rider).balance == amount - FareFor(setup.wallets, n.service)
      && View(s.tables.wallets, n.rider).points == Wrap64(if setup.wallets.rewardPoints > 0 then setup.wallets.rewardPoints else 0)
      && s.events == [Moved(n.id, Requested, Completed), Charged(n.id, true), Rewarded(n.id, true)]
  {
    var started := RiderStarts(setup, n, amount);
    var s := Run(setup, started);
    UpdateExactly(setup, s, n.id, Completed, NO_FAULTS);
    UpdatePays(setup, s, n.id, Completed, NO_FAULTS);
    RunSnoc(setup, started, Update(n.id, Completed, NO_FAULTS));
    ops := started + [Update(n.id, Completed, NO_FAULTS)];
    RideEvents(setup, s, n.id);
    assert Run(setup, ops).trips == map[n.id := Requesting(n).(status := Completed)];
  }

  /** A completion that goes through leaves its three events. */
  lemma RideEvents(setup: Setup, s: State, id: string)
    requires Charges(setup, s, id, Completed) && Affords(setup.wallets, s, s.trips[id])
    ensures UpdateStatus(setup, s, id, Completed, NO_FAULTS).0.events ==
            s.events + [Moved(id, s.trips[id].status, Completed), Charged(id, true), Rewarded(id, true)]
  {
    DeductExactly(setup.wallets, s.tables, s.trips[id].rider, s.trips[id].service);
  }

  /** Without wallets nobody is ever charged. */
  lemma UnwiredNeverCharges(setup: Setup, s: State, id: string, status: TripStatus, f: Faults)
    requires !setup.wired
    ensures UpdateStatus(setup, s, id, status, f).0.tables == s.tables
    ensures forall trip ::
              Count(UpdateStatus(setup, s, id, status, f).0.events, trip).charges == Count(s.events, trip).charges
  {
    if id in s.trips {
      forall trip { CountSnoc(s.events, Moved(id, s.trips[id].status, status), trip); }
    }
  }
}
