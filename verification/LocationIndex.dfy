/** The geo index of driver positions and the location history behind it: `location/redis_index.go`, with
    `RecordLocation`, `UpdateAvailability` and `SearchNearbyDrivers` of `domain/driver_service.go`.  Coordinates and
    distances are opaque; Redis and the database do not fail. */
module LocationIndex {
  import opened Common

  datatype Point = Point(lat: int, lng: int)

  /** A row of `driver_locations`; times are in nanoseconds. */
  datatype Ping = Ping(driver: string, point: Point, recordedAt: int)

  /** The metadata hash keeps whole seconds. */
  function UnixSeconds(t: int): int { t / SECOND }

  /** `geo` and `meta` are the two Redis structures. */
  datatype State = State(
    drivers: set<string>, online: set<string>, history: seq<Ping>, geo: map<string, Point>, meta: map<string, int>)

  const INIT := State({}, {}, [], map[], map[])

  /** `LatestLocation`: the driver's ping recorded last. */
  function Latest(history: seq<Ping>, driver: string): Option<Ping> {
    if history == [] then None
    else
      var before, p := Latest(history[..|history| - 1], driver), history[|history| - 1];
      if p.driver == driver && (before.None? || before.value.recordedAt < p.recordedAt) then Some(p) else before
  }

  /** `RecordLocation`: a history row, refused for an unknown driver, then the index. */
  function Record(s: State, p: Ping): (State, bool) {
    if p.driver == "" || p.driver !in s.drivers then (s, false)
    else
      (s.(history := s.history + [p], geo := s.geo[p.driver := p.point],
          meta := s.meta[p.driver := UnixSeconds(p.recordedAt)]), true)
  }

  /** `UpdateAvailability`: going offline also leaves the index. */
  function SetAvailability(s: State, driver: string, wanted: DriverAvailability): (State, bool) {
    if driver == "" || wanted.UnknownAvailability? || driver !in s.drivers then (s, false)
    else if wanted.Online? then (s.(online := s.online + {driver}), true)
    else (s.(online := s.online - {driver}, geo := s.geo - {driver}, meta := s.meta - {driver}), true)
  }

  datatype Op = Register(driver: string) | RecordOp(ping: Ping) | AvailabilityOp(driver: string, wanted: DriverAvailability)

  function Step(s: State, op: Op): State {
    match op
    case Register(d) => if d == "" || d in s.drivers then s else s.(drivers := s.drivers + {d})
    case RecordOp(p) => Record(s, p).0
    case AvailabilityOp(d, wanted) => SetAvailability(s, d, wanted).0
  }

  function Run(ops: seq<Op>): State {
    if ops == [] then INIT else Step(Run(ops[..|ops| - 1]), ops[|ops| - 1])
  }

  /** Each driver's pings come with strictly increasing record times. */
  ghost predicate Increasing(ops: seq<Op>) {
    ops != [] ==>
      && Increasing(ops[..|ops| - 1])
      && var op := ops[|ops| - 1];
         op.RecordOp? ==>
           var before := Latest(Run(ops[..|ops| - 1]).history, op.ping.driver);
           before.Some? ==> before.value.recordedAt < op.ping.recordedAt
  }

  /** The index entry of a driver is the driver's latest recorded position. */
  ghost predicate EntryCurrent(s: State, driver: string) {
    driver in s.geo ==>
      var latest := Latest(s.history, driver);
      && driver in s.drivers && latest.Some? && s.geo[driver] == latest.value.point
      && driver in s.meta && s.meta[driver] == UnixSeconds(latest.value.recordedAt)
  }

  /** Has the driver recorded a position since last going offline? */
  function Tracked(ops: seq<Op>, driver: string): bool {
    if ops == [] then false
    else
      var before, op := ops[..|ops| - 1], ops[|ops| - 1];
      if op.RecordOp? && op.ping.driver == driver && driver in Run(before).drivers then true
      else if op.AvailabilityOp? && op.driver == driver && driver in Run(before).drivers && op.wanted.Offline? then false
      else Tracked(before, driver)
  }

  lemma {:induction false} NoNamelessDriver(ops: seq<Op>)
    ensures "" !in Run(ops).drivers
  {
    if ops != [] { NoNamelessDriver(ops[..|ops| - 1]); }
  }

  lemma LatestSnoc(history: seq<Ping>, p: Ping, driver: string)
    ensures
      var before := Latest(history, driver);
      Latest(history + [p], driver) ==
      if p.driver == driver && (before.None? || before.value.recordedAt < p.recordedAt) then Some(p) else before
  {
    assert (history + [p])[..|history|] == history;
  }

  /** The latest ping is one of the driver's, and none of the driver's was recorded after it. */
  lemma {:induction false} LatestMeaning(history: seq<Ping>, driver: string)
    ensures Latest(history, driver).None? <==> forall i :: 0 <= i < |history| ==> history[i].driver != driver
    ensures Latest(history, driver).Some? ==>
              && Latest(history, driver).value in history && Latest(history, driver).value.driver == driver
              && forall i :: 0 <= i < |history| && history[i].driver == driver ==>
                               history[i].recordedAt <= Latest(history, driver).value.recordedAt
  {
    if history != [] {
      LatestMeaning(history[..|history| - 1], driver);
    }
  }

  /** One operation keeps an index entry current. */
  lemma EntryStep(s: State, op: Op, driver: string)
    requires EntryCurrent(s, driver) && s.geo.Keys == s.meta.Keys
    requires op.RecordOp? ==>
               var before := Latest(s.history, op.ping.driver);
               before.Some? ==> before.value.recordedAt < op.ping.recordedAt
    ensures EntryCurrent(Step(s, op), driver) && Step(s, op).geo.Keys == Step(s, op).meta.Keys
  {
    if op.RecordOp? { LatestSnoc(s.history, op.ping, driver); }
  }

  lemma TrackedStep(s: State, op: Op, driver: string)
    requires "" !in s.drivers
    ensures driver in Step(s, op).geo <==>
            if op.RecordOp? && op.ping.driver == driver && driver in s.drivers then true
            else if op.AvailabilityOp? && op.driver == driver && driver in s.drivers && op.wanted.Offline? then false
            else driver in s.geo
  {
  }

  lemma {:induction false} IndexCurrent(ops: seq<Op>, driver: string)
    requires Increasing(ops)
    ensures Run(ops).geo.Keys == Run(ops).meta.Keys && EntryCurrent(Run(ops), driver)
  {
    if ops != [] {
      IndexCurrent(ops[..|ops| - 1], driver);
      EntryStep(Run(ops[..|ops| - 1]), ops[|ops| - 1], driver);
    }
  }

  lemma {:induction false} IndexTracks(ops: seq<Op>, driver: string)
    ensures driver in Run(ops).geo <==> Tracked(ops, driver)
  {
    if ops != [] {
      NoNamelessDriver(ops[..|ops| - 1]);
      IndexTracks(ops[..|ops| - 1], driver);
      TrackedStep(Run(ops[..|ops| - 1]), ops[|ops| - 1], driver);
    }
  }

  /** Index and history agree in every run: both Redis structures hold exactly the drivers with a position recorded since
      they last went offline, each at its latest recorded position and time. */
  lemma {:induction false} IndexAgrees(ops: seq<Op>, driver: string)
    requires Increasing(ops)
    ensures Run(ops).geo.Keys == Run(ops).meta.Keys
    ensures driver in Run(ops).geo <==> Tracked(ops, driver)
    ensures EntryCurrent(Run(ops), driver)
  {
    IndexCurrent(ops, driver);
    IndexTracks(ops, driver);
  }

  /** A position is recorded exactly for a known driver, and is then the one in the index whatever was there before. */
  lemma RecordExactly(s: State, p: Ping)
    ensures
      var (t, ok) := Record(s, p);
      && (ok <==> p.driver != "" && p.driver in s.drivers)
      && (if ok then
            && t.history == s.history + [p] && p.driver in t.geo && p.driver in t.meta
            && t.geo[p.driver] == p.point
            && 1_000_000_000 * t.meta[p.driver] <= p.recordedAt < 1_000_000_000 * (t.meta[p.driver] + 1)
            && t.geo - {p.driver} == s.geo - {p.driver} && t.meta - {p.driver} == s.meta - {p.driver}
            && t.online == s.online && t.drivers == s.drivers
          else t == s)
  {
  }

  /** A known driver is online exactly after asking to be, and only going offline leaves the index; nobody else changes. */
  lemma AvailabilityExactly(s: State, driver: string, wanted: DriverAvailability)
    ensures
      var (t, ok) := SetAvailability(s, driver, wanted);
      && (ok <==> driver != "" && driver in s.drivers && (wanted == Online || wanted == Offline))
      && (if ok then
            && (driver in t.online <==> wanted == Online)
            && (forall d :: d != driver ==> (d in t.online <==> d in s.online))
            && (wanted == Online ==> t.geo == s.geo && t.meta == s.meta)
            && (wanted == Offline ==> t.geo == s.geo - {driver} && t.meta == s.meta - {driver})
            && t.history == s.history && t.drivers == s.drivers
          else t == s)
  {
  }

  /** The driver's last accepted wish was to be online. */
  function SwitchedOn(ops: seq<Op>, driver: string): bool {
    if ops == [] then false
    else
      var before, op := ops[..|ops| - 1], ops[|ops| - 1];
      if op.AvailabilityOp? && op.driver == driver && driver in Run(before).drivers && !op.wanted.UnknownAvailability?
      then op.wanted.Online?
      else SwitchedOn(before, driver)
  }

  /** In every run, who is online is who last asked to be. */
  lemma {:induction false} OnlineTracks(ops: seq<Op>, driver: string)
    ensures driver in Run(ops).online <==> SwitchedOn(ops, driver)
  {
    if ops != [] {
      var before, op := ops[..|ops| - 1], ops[|ops| - 1];
      NoNamelessDriver(before);
      OnlineTracks(before, driver);
      if op.AvailabilityOp? { AvailabilityExactly(Run(before), op.driver, op.wanted); }
    }
  }

  // ---------------------------------------------------------------- nearby search

  /** A hit of the geo search. */
  datatype Hit = Hit(name: string, point: Point)

  /** What a geo search asks for besides names.  A reply without coordinates leaves them zero. */
  datatype Query = Query(withCoord: bool, withDist: bool)

  /** `Nearby` asks for distances only. */
  const NEARBY := Query(false, true)

  const ZERO := Point(0, 0)

  /** The reply that finds `names`. */
  function Reply(geo: map<string, Point>, q: Query, names: seq<string>): seq<Hit>
    requires forall i :: 0 <= i < |names| ==> names[i] in geo
  {
    seq(|names|, i requires 0 <= i < |names| => Hit(names[i], if q.withCoord then geo[names[i]] else ZERO))
  }

  /** The answer of the search, given the names found. */
  function Search(s: State, q: Query, names: seq<string>, now: int): seq<Location>
    requires forall i :: 0 <= i < |names| ==> names[i] in s.geo
  {
    OnlineOnly(s, AllLocated(s.meta, Reply(s.geo, q, names), now))
  }

  datatype Location = Location(driver: string, point: Point, recordedAt: int)

  /** What `Nearby` makes of one hit: the recorded second if the hash has one, else the current time. */
  function Located(meta: map<string, int>, hit: Hit, now: int): Location {
    Location(hit.name, hit.point, if hit.name in meta then meta[hit.name] * SECOND else now)
  }

  function AllLocated(meta: map<string, int>, hits: seq<Hit>, now: int): seq<Location> {
    if hits == [] then []
    else
      var rest, hit := AllLocated(meta, hits[..|hits| - 1], now), hits[|hits| - 1];
      if hit.name == "" then rest else rest + [Located(meta, hit, now)]
  }

  /** Named hits become one location each, in their order: the driver and the point found, and the second the hash has for
      the driver, or the present time if it has none. */
  lemma {:induction false} LocatedExactly(meta: map<string, int>, hits: seq<Hit>, now: int)
    requires forall i :: 0 <= i < |hits| ==> hits[i].name != ""
    ensures |AllLocated(meta, hits, now)| == |hits|
    ensures forall i :: 0 <= i < |hits| ==>
              var l := AllLocated(meta, hits, now)[i];
              && l.driver == hits[i].name && l.point == hits[i].point
              && (hits[i].name in meta ==> l.recordedAt == 1_000_000_000 * meta[hits[i].name])
              && (hits[i].name !in meta ==> l.recordedAt == now)
  {
    if hits != [] { LocatedExactly(meta, hits[..|hits| - 1], now); }
  }

  predicate Wanted(s: State, l: Location) { l.driver != "" && l.driver in s.drivers && l.driver in s.online }

  /** The locations of registered drivers who are online, in order. */
  function OnlineOnly(s: State, found: seq<Location>): seq<Location> {
    if found == [] then []
    else
      var rest, l := OnlineOnly(s, found[..|found| - 1]), found[|found| - 1];
      if Wanted(s, l) then rest + [l] else rest
  }

  /** `picks` are increasing positions of `found`, one for each element of `results`. */
  ghost predicate Subsequence(results: seq<Location>, found: seq<Location>, picks: seq<nat>) {
    && |picks| == |results|
    && (forall k :: 0 <= k < |picks| ==> picks[k] < |found| && results[k] == found[picks[k]])
    && (forall j, k :: 0 <= j < k < |picks| ==> picks[j] < picks[k])
  }

  function Picks(s: State, found: seq<Location>): seq<nat> {
    if found == [] then []
    else
      var rest := Picks(s, found[..|found| - 1]);
      if Wanted(s, found[|found| - 1]) then rest + [|found| - 1] else rest
  }

  /** The search keeps the order of `Nearby` and, of its locations, exactly those of registered online drivers. */
  lemma {:induction false} OnlineOnlyMeaning(s: State, found: seq<Location>)
    ensures Subsequence(OnlineOnly(s, found), found, Picks(s, found))
    ensures forall i :: 0 <= i < |found| ==>
              (i in Picks(s, found) <==> found[i].driver != "" && found[i].driver in s.drivers && found[i].driver in s.online)
  {
    if found != [] {
      var n := |found| - 1;
      OnlineOnlyMeaning(s, found[..n]);
      var rest := Picks(s, found[..n]);
      if Wanted(s, found[n]) { assert Picks(s, found) == rest + [n]; }
      forall i | 0 <= i < |found| ensures i in Picks(s, found) <==> Wanted(s, found[i]) {
        if i < n {
          assert found[..n][i] == found[i];
        }
      }
    }
  }

  lemma WholeSecond(t: int)
    ensures
      var second := UnixSeconds(t) * SECOND;
      second % 1_000_000_000 == 0 && second <= t < second + 1_000_000_000
  {
  }

  /** What an entry of the index says about its driver. */
  lemma EntryMeaning(ops: seq<Op>, driver: string)
    requires Increasing(ops) && driver in Run(ops).geo
    ensures
      var s := Run(ops);
      var latest := Latest(s.history, driver);
      && latest.Some? && s.geo[driver] == latest.value.point
      && driver in s.meta && s.meta[driver] == UnixSeconds(latest.value.recordedAt)
  {
    IndexAgrees(ops, driver);
  }

  /** A search in any run: each result is a registered online driver, at the second recorded last and, if the query
      asked for coordinates, at the position recorded last. */
  lemma SearchIsCurrent(ops: seq<Op>, q: Query, names: seq<string>, now: int, k: nat)
    requires Increasing(ops)
    requires forall i :: 0 <= i < |names| ==> names[i] in Run(ops).geo
    requires k < |Search(Run(ops), q, names, now)|
    ensures
      var s := Run(ops);
      var r := Search(s, q, names, now)[k];
      var latest := Latest(s.history, r.driver);
      && r.driver in names && r.driver in s.drivers && r.driver in s.online && latest.Some?
      && r.point == (if q.withCoord then latest.value.point else ZERO)
      && r.recordedAt % 1_000_000_000 == 0 && r.recordedAt <= latest.value.recordedAt < r.recordedAt + 1_000_000_000
  {
    var s := Run(ops);
    var hits := Reply(s.geo, q, names);
    var found := AllLocated(s.meta, hits, now);
    OnlineOnlyMeaning(s, found);
    var picks := Picks(s, found);
    assert picks[k] in picks;
    LocatedFromHit(s.meta, hits, now, picks[k]);
    SearchFinds(s, q, names, now, k);
    EntryMeaning(ops, found[picks[k]].driver);
    WholeSecond(Latest(s.history, found[picks[k]].driver).value.recordedAt);
  }

  /** `names` were found in the index after `ops`, and the search has a result number `k`. */
  ghost predicate Result(ops: seq<Op>, q: Query, names: seq<string>, now: int, k: nat) {
    && Increasing(ops) && (forall i :: 0 <= i < |names| ==> names[i] in Run(ops).geo)
    && k < |Search(Run(ops), q, names, now)|
  }

  /** Every result of every search shows its driver at the position recorded last. */
  ghost predicate ShowsPositions(q: Query) {
    forall ops, names, now, k: nat :: Result(ops, q, names, now, k) ==>
      var r := Search(Run(ops), q, names, now)[k];
      var latest := Latest(Run(ops).history, r.driver);
      latest.Some? && r.point == latest.value.point
  }

  /** One driver, online, away from zero latitude and longitude. */
  const AWAY := [Register("d"), AvailabilityOp("d", Online), RecordOp(Ping("d", Point(1, 1), 0))]

  lemma AwayRun()
    ensures Increasing(AWAY)
    ensures Run(AWAY) == State({"d"}, {"d"}, [Ping("d", Point(1, 1), 0)], map["d" := Point(1, 1)], map["d" := 0])
  {
    assert AWAY[..2] == [Register("d"), AvailabilityOp("d", Online)];
    assert AWAY[..2][..1] == [Register("d")];
    assert Run([]) == INIT;
    assert Run(AWAY[..2][..1]) == INIT.(drivers := {"d"});
    assert Run(AWAY[..2]) == INIT.(drivers := {"d"}, online := {"d"});
    assert Increasing(AWAY[..2][..1]);
  }

  lemma AwaySearched(q: Query)
    requires !q.withCoord
    ensures Result(AWAY, q, ["d"], 0, 0) && Search(Run(AWAY), q, ["d"], 0)[0].point == ZERO
    ensures Search(Run(AWAY), q, ["d"], 0)[0].driver == "d"
  {
    AwayRun();
    var hits := Reply(Run(AWAY).geo, q, ["d"]);
    assert hits == [] + [Hit("d", ZERO)];
    OneMoreHit(Run(AWAY), [], Hit("d", ZERO), 0);
  }

  /** A search shows drivers where they are, in every run and whatever it finds, if and only if its query asks for
      coordinates. */
  lemma ShowsPositionsExactly(q: Query)
    ensures ShowsPositions(q) <==> q.withCoord
  {
    if q.withCoord {
      forall ops, names, now, k: nat | Result(ops, q, names, now, k)
        ensures
          var r := Search(Run(ops), q, names, now)[k];
          var latest := Latest(Run(ops).history, r.driver);
          latest.Some? && r.point == latest.value.point
      {
        SearchIsCurrent(ops, q, names, now, k);
      }
    } else {
      AwaySearched(q);
      AwayRun();
      LatestSnoc([], Ping("d", Point(1, 1), 0), "d");
      assert [] + [Ping("d", Point(1, 1), 0)] == [Ping("d", Point(1, 1), 0)];
    }
  }

  /** The query of `Nearby` does not ask for them. */
  lemma NearbyMisplaces()
    ensures !ShowsPositions(NEARBY)
  {
    ShowsPositionsExactly(NEARBY);
  }

  lemma SearchFinds(s: State, q: Query, names: seq<string>, now: int, k: nat)
    requires forall i :: 0 <= i < |names| ==> names[i] in s.geo
    requires k < |Search(s, q, names, now)|
    ensures Search(s, q, names, now)[k].driver in names
  {
    var hits := Reply(s.geo, q, names);
    var found := AllLocated(s.meta, hits, now);
    OnlineOnlyMeaning(s, found);
    var at := Picks(s, found)[k];
    LocatedFromHit(s.meta, hits, now, at);
    var i :| 0 <= i < |hits| && hits[i].name != "" && found[at] == Located(s.meta, hits[i], now);
    assert names[i] == hits[i].name;
  }

  /** One more hit drops nobody, and is itself among the results if its driver is registered and online. */
  lemma FoundNext(s: State, hits: seq<Hit>, hit: Hit, now: int, l: Location)
    requires
      || l in OnlineOnly(s, AllLocated(s.meta, hits, now))
      || (l == Located(s.meta, hit, now) && hit.name != "" && hit.name in s.drivers && hit.name in s.online)
    ensures l in OnlineOnly(s, AllLocated(s.meta, hits + [hit], now))
  {
    OneMoreHit(s, hits, hit, now);
  }

  /** Nobody wanted is missed: every registered online driver found is among the results. */
  lemma {:induction false} SearchComplete(s: State, hits: seq<Hit>, now: int, i: nat)
    requires i < |hits| && hits[i].name != "" && hits[i].name in s.drivers && hits[i].name in s.online
    ensures Located(s.meta, hits[i], now) in OnlineOnly(s, AllLocated(s.meta, hits, now))
  {
    var n := |hits| - 1;
    if i < n { SearchComplete(s, hits[..n], now, i); }
    FoundNext(s, hits[..n], hits[n], now, Located(s.meta, hits[i], now));
    assert hits == hits[..n] + [hits[n]];
  }

  lemma OneMoreHit(s: State, hits: seq<Hit>, hit: Hit, now: int)
    ensures
      var l := Located(s.meta, hit, now);
      OnlineOnly(s, AllLocated(s.meta, hits + [hit], now)) ==
      OnlineOnly(s, AllLocated(s.meta, hits, now)) + (if hit.name != "" && Wanted(s, l) then [l] else [])
  {
    assert (hits + [hit])[..|hits|] == hits;
    OnlineOnlySnoc(s, AllLocated(s.meta, hits, now), Located(s.meta, hit, now));
  }

  lemma OnlineOnlySnoc(s: State, found: seq<Location>, l: Location)
    ensures OnlineOnly(s, found + [l]) == OnlineOnly(s, found) + (if Wanted(s, l) then [l] else [])
  {
    assert (found + [l])[..|found|] == found;
  }

  lemma {:induction false} LocatedFromHit(meta: map<string, int>, hits: seq<Hit>, now: int, k: nat)
    requires k < |AllLocated(meta, hits, now)|
    ensures exists i :: 0 <= i < |hits| && hits[i].name != "" && AllLocated(meta, hits, now)[k] == Located(meta, hits[i], now)
  {
    if hits != [] {
      var n := |hits| - 1;
      var rest := AllLocated(meta, hits[..n], now);
      if k < |rest| {
        LocatedFromHit(meta, hits[..n], now, k);
        var i :| 0 <= i < n && hits[..n][i].name != "" && rest[k] == Located(meta, hits[..n][i], now);
        assert hits[i] == hits[..n][i];
      } else {
        assert AllLocated(meta, hits, now)[k] == Located(meta, hits[n], now);
      }
    }
  }

  // ---------------------------------------------------------------- the objects of the source

  class GeoIndex {
    var geo: map<string, Point>
    var meta: map<string, int>

    constructor ()
      ensures geo == map[] && meta == map[]
    {
      geo, meta := map[], map[];
    }

    method Upsert(driver: string, point: Point, recordedAt: int)
      modifies this
      ensures geo == old(geo)[driver := point] && meta == old(meta)[driver := UnixSeconds(recordedAt)]
    {
      geo := geo[driver := point];
      meta := meta[driver := UnixSeconds(recordedAt)];
    }

    method Remove(driver: string)
      modifies this
      ensures geo == old(geo) - {driver} && meta == old(meta) - {driver}
    {
      geo := geo - {driver};
      meta := meta - {driver};
    }

    /** `Nearby`, given the hits of the geo search: one pass collects the times, one builds the answer. */
    method Nearby(hits: seq<Hit>, now: int) returns (locations: seq<Location>)
      ensures locations == AllLocated(meta, hits, now)
    {
      var times: map<string, int> := map[];
      for i := 0 to |hits|
        invariant forall k :: k in times <==> k in meta && k != "" && exists j :: 0 <= j < i && hits[j].name == k
        invariant forall k :: k in times ==> times[k] == meta[k] * SECOND
      {
        if hits[i].name != "" && hits[i].name in meta {
          times := times[hits[i].name := meta[hits[i].name] * SECOND];
        }
      }
      locations := [];
      for i := 0 to |hits|
        invariant locations == AllLocated(meta, hits[..i], now)
      {
        assert hits[..i + 1][..i] == hits[..i];
        var name := hits[i].name;
        if name != "" {
          var recordedAt := if name in times then times[name] else now;
          locations := locations + [Location(name, hits[i].point, recordedAt)];
        }
      }
      assert hits[..|hits|] == hits;
    }
  }

  class DriverLocations {
    const index: GeoIndex
    var drivers: set<string>
    var online: set<string>
    var history: seq<Ping>

    constructor (index: GeoIndex)
      ensures this.index == index && drivers == {} && online == {} && history == []
    {
      this.index, drivers, online, history := index, {}, {}, [];
    }

    function View(): State reads this, index { State(drivers, online, history, index.geo, index.meta) }

    method RecordLocation(p: Ping) returns (ok: bool)
      modifies `history, index
      ensures (View(), ok) == Record(old(View()), p)
    {
      if p.driver == "" || p.driver !in drivers { return false; }
      history := history + [p];
      index.Upsert(p.driver, p.point, p.recordedAt);
      ok := true;
    }

    method UpdateAvailability(driver: string, wanted: DriverAvailability) returns (ok: bool)
      modifies `online, index
      ensures (View(), ok) == SetAvailability(old(View()), driver, wanted)
    {
      if driver == "" || (!wanted.Online? && !wanted.Offline?) || driver !in drivers { return false; }
      if wanted.Online? {
        online := online + {driver};
      } else {
        online := online - {driver};
        index.Remove(driver);
      }
      ok := true;
    }

    method SearchNearbyDrivers(hits: seq<Hit>, now: int) returns (results: seq<Location>)
      ensures results == OnlineOnly(View(), AllLocated(index.meta, hits, now))
    {
      var found := index.Nearby(hits, now);
      results := [];
      for i := 0 to |found|
        invariant results == OnlineOnly(View(), found[..i])
      {
        assert found[..i + 1][..i] == found[..i];
        var l := found[i];
        if l.driver != "" && l.driver in drivers && l.driver in online {
          results := results + [l];
        }
      }
      assert found[..|found|] == found;
    }
  }
}
