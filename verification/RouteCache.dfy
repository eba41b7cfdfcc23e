/** The cache part of the OSRM client: `fromCache`, `saveCache`, `GetRoute` and `syntheticRoute` of `routing/osrm.go`.
    Coordinates are degrees; the great-circle distance of a request and the routing service are parameters. */
module RouteCache {
  import opened Common
  import StaleCache

  datatype Coordinate = Coordinate(lat: real, lng: real)

  datatype Request = Request(origin: Coordinate, destination: Coordinate)

  /** Metres and seconds. */
  datatype Route = Route(distance: real, duration: real)

  /** What became of a request to the service: no usable reply, a reply that there is no route, or a route. */
  datatype Upstream = Unreachable | NoRoute | Routed(route: Route)

  datatype CachedRoute = CachedRoute(route: Route, expiresAt: int)

  // ---------------------------------------------------------------- the key

  /** A number in decimal, the digits without its sign. */
  datatype Decimal = Decimal(negative: bool, digits: int)

  datatype Key = Key(originLat: Decimal, originLng: Decimal, destinationLat: Decimal, destinationLng: Decimal)

  function RoundHalfEven(y: real): int {
    var whole := y.Floor;
    var part := y - whole as real;
    if part < 0.5 || (part == 0.5 && whole % 2 == 0) then whole else whole + 1
  }

  function Abs(x: real): real { if x < 0.0 then -x else x }

  /** `%.5f` */
  function FiveDecimals(x: real): Decimal { Decimal(x < 0.0, RoundHalfEven(Abs(x) * 100000.0)) }

  /** `%f`, as the request to the service spells it. */
  function SixDecimals(x: real): Decimal { Decimal(x < 0.0, RoundHalfEven(Abs(x) * 1000000.0)) }

  function KeyOf(r: Request): Key {
    Key(FiveDecimals(r.origin.lat), FiveDecimals(r.origin.lng),
        FiveDecimals(r.destination.lat), FiveDecimals(r.destination.lng))
  }

  /** At most one hundred-thousandth of a degree apart, and so spelled to the service at most ten millionths apart. */
  predicate NearDegrees(x: real, y: real) {
    && -0.00001 <= x - y <= 0.00001
    && SixDecimals(x).negative == SixDecimals(y).negative
    && -10 <= SixDecimals(x).digits - SixDecimals(y).digits <= 10
  }

  predicate Near(a: Request, b: Request) {
    && NearDegrees(a.origin.lat, b.origin.lat) && NearDegrees(a.origin.lng, b.origin.lng)
    && NearDegrees(a.destination.lat, b.destination.lat) && NearDegrees(a.destination.lng, b.destination.lng)
  }

  lemma RoundClose(y: real)
    ensures -0.5 <= y - RoundHalfEven(y) as real <= 0.5
  {
  }

  /** The digits sent to the service are within five of ten times the digits of the key. */
  lemma DigitsClose(u: real)
    ensures
      var n := RoundHalfEven(u * 100000.0);
      && 10 * n - 5 <= RoundHalfEven(u * 1000000.0) <= 10 * n + 5
      && -0.000005 <= u - n as real / 100000.0 <= 0.000005
  {
    var y := u * 100000.0;
    RoundClose(y);
    RoundClose(10.0 * y);
    assert u * 1000000.0 == 10.0 * y;
  }

  lemma SameDigits(u: real, v: real)
    requires RoundHalfEven(u * 100000.0) == RoundHalfEven(v * 100000.0)
    ensures -0.00001 <= u - v <= 0.00001
    ensures -10 <= RoundHalfEven(u * 1000000.0) - RoundHalfEven(v * 1000000.0) <= 10
  {
    DigitsClose(u);
    DigitsClose(v);
  }

  lemma SameDegrees(x: real, y: real)
    requires FiveDecimals(x) == FiveDecimals(y)
    ensures -0.00001 <= x - y <= 0.00001
  {
    SameDigits(Abs(x), Abs(y));
  }

  lemma SameSixDecimals(x: real, y: real)
    requires FiveDecimals(x) == FiveDecimals(y)
    ensures SixDecimals(x).negative == SixDecimals(y).negative
    ensures -10 <= SixDecimals(x).digits - SixDecimals(y).digits <= 10
  {
    SameDigits(Abs(x), Abs(y));
  }

  lemma SameDecimals(x: real, y: real)
    requires FiveDecimals(x) == FiveDecimals(y)
    ensures NearDegrees(x, y)
  {
    SameDegrees(x, y);
    SameSixDecimals(x, y);
  }

  /** Two requests share an entry only if their coordinates are near. */
  lemma SharedKeyIsNear(a: Request, b: Request)
    requires KeyOf(a) == KeyOf(b)
    ensures Near(a, b)
  {
    SameDecimals(a.origin.lat, b.origin.lat);
    SameDecimals(a.origin.lng, b.origin.lng);
    SameDecimals(a.destination.lat, b.destination.lat);
    SameDecimals(a.destination.lng, b.destination.lng);
  }

  /** Numbers are rounded to the nearest, and from halfway to the even one. */
  lemma RoundExactly(y: real, n: int)
    ensures -0.5 < y - n as real < 0.5 ==> RoundHalfEven(y) == n
    ensures y == n as real + 0.5 || y == n as real - 0.5 ==> (RoundHalfEven(y) == n <==> n % 2 == 0)
  {
    assert y == n as real + 0.5 ==> y.Floor == n;
    assert y == n as real - 0.5 ==> y.Floor == n - 1;
    assert (n - 1) % 2 == 0 <==> n % 2 != 0;
  }

  /** Requests share an entry exactly if all four coordinates read the same with five decimals. */
  lemma SharedKeyExactly(a: Request, b: Request)
    ensures KeyOf(a) == KeyOf(b) <==>
            && FiveDecimals(a.origin.lat) == FiveDecimals(b.origin.lat)
            && FiveDecimals(a.origin.lng) == FiveDecimals(b.origin.lng)
            && FiveDecimals(a.destination.lat) == FiveDecimals(b.destination.lat)
            && FiveDecimals(a.destination.lng) == FiveDecimals(b.destination.lng)
  {
  }

  /** Ten millionths do occur. */
  lemma TenMillionthsShareKey()
    ensures FiveDecimals(0.0000150000001) == FiveDecimals(0.0000249999999)
    ensures SixDecimals(0.0000249999999).digits - SixDecimals(0.0000150000001).digits == 10
  {
  }

  // ---------------------------------------------------------------- one request

  const FALLBACK_SPEED: real := 11.0

  /** `syntheticRoute`: the straight line at an average speed, a minute at least; an error between points at no distance. */
  function Fallback(distance: Request -> real, r: Request): Option<Route> {
    var d := distance(r);
    if d <= 0.0 then None else Some(Route(d, if d / FALLBACK_SPEED < 60.0 then 60.0 else d / FALLBACK_SPEED))
  }

  /** The fallback is as long as the distance and takes the time that needs at eleven metres a second, but no less than a
      minute; there is one exactly between points apart. */
  lemma FallbackExactly(distance: Request -> real, r: Request)
    ensures Fallback(distance, r).Some? <==> distance(r) > 0.0
    ensures Fallback(distance, r).Some? ==>
              var route := Fallback(distance, r).value;
              && route.distance == distance(r) && route.duration >= 60.0
              && 11.0 * route.duration >= route.distance
              && (route.duration == 60.0 || 11.0 * route.duration == route.distance)
  {
  }

  /** The answer to a request the cache does not answer. */
  function Resolve(distance: Request -> real, r: Request, upstream: Upstream): Option<Route> {
    match upstream
    case Routed(route) => Some(route)
    case NoRoute => None
    case Unreachable => Fallback(distance, r)
  }

  predicate Hit(cache: map<Key, CachedRoute>, ttl: int, key: Key, now: int) {
    ttl != 0 && key in cache && now <= cache[key].expiresAt
  }

  function Filed(cache: map<Key, CachedRoute>, ttl: int, key: Key, route: Route, now: int): map<Key, CachedRoute> {
    if ttl == 0 then cache else cache[key := CachedRoute(route, now + ttl)]
  }

  /** A whole request: the cache afterwards and the answer. */
  function Call(
    cache: map<Key, CachedRoute>, ttl: int, distance: Request -> real, r: Request, upstream: Upstream, asked: int, came: int)
    : (map<Key, CachedRoute>, Option<Route>)
  {
    if Hit(cache, ttl, KeyOf(r), asked) then (cache, Some(cache[KeyOf(r)].route))
    else
      var answer := Resolve(distance, r, upstream);
      (if answer.Some? then Filed(cache, ttl, KeyOf(r), answer.value, came) else cache, answer)
  }

  class Client {
    const ttl: int
    const distance: Request -> real
    var cache: map<Key, CachedRoute>

    constructor (ttl: int, distance: Request -> real)
      ensures this.ttl == (if ttl < 0 then 0 else ttl) && this.distance == distance && cache == map[]
    {
      this.ttl := if ttl < 0 then 0 else ttl;
      this.distance := distance;
      cache := map[];
    }

    method FromCache(key: Key, now: int) returns (r: Option<Route>)
      ensures r == if Hit(cache, ttl, key, now) then Some(cache[key].route) else None
    {
      if ttl == 0 { return None; }
      if key !in cache || now > cache[key].expiresAt { return None; }
      r := Some(cache[key].route);
    }

    method SaveCache(key: Key, route: Route, now: int)
      modifies this
      ensures cache == Filed(old(cache), ttl, key, route, now)
    {
      if ttl == 0 { return; }
      cache := cache[key := CachedRoute(route, now + ttl)];
    }

    /** The straight line is filed like a reply of the service. */
    method SyntheticRoute(request: Request, now: int) returns (r: Option<Route>)
      modifies this
      ensures r == Fallback(distance, request)
      ensures cache == if r.Some? then Filed(old(cache), ttl, KeyOf(request), r.value, now) else old(cache)
    {
      var d := distance(request);
      if d <= 0.0 { return None; }
      var duration := d / FALLBACK_SPEED;
      if duration < 60.0 { duration := 60.0; }
      SaveCache(KeyOf(request), Route(d, duration), now);
      r := Some(Route(d, duration));
    }

    /** `asked` is the time of the lookup, `came` the time of the reply or of its failure. */
    method GetRoute(request: Request, upstream: Upstream, asked: int, came: int) returns (r: Option<Route>)
      modifies this
      ensures (cache, r) == Call(old(cache), ttl, distance, request, upstream, asked, came)
    {
      var key := KeyOf(request);
      var cached := FromCache(key, asked);
      if cached.Some? { return cached; }
      match upstream {
        case Unreachable => r := SyntheticRoute(request, came);
        case NoRoute => r := None;
        case Routed(route) =>
          SaveCache(key, route, came);
          r := Some(route);
      }
    }
  }

  /** An outage outlives itself: the straight line served while the service could not be reached is served again to every
      request under the same key until it expires, whatever the service would say by then. */
  lemma OutageLingers(
    cache: map<Key, CachedRoute>, ttl: int, distance: Request -> real, r: Request, asked: int, came: int,
    later: Request, upstream: Upstream, again: int, reply: int)
    requires ttl > 0 && !Hit(cache, ttl, KeyOf(r), asked) && Fallback(distance, r).Some?
    requires KeyOf(later) == KeyOf(r) && again <= came + ttl
    ensures
      var (down, straight) := Call(cache, ttl, distance, r, Unreachable, asked, came);
      && straight == Fallback(distance, r)
      && Call(down, ttl, distance, later, upstream, again, reply) == (down, straight)
  {
  }

  // ---------------------------------------------------------------- the cache as a machine

  /** The service at one time says `service(store, request)`; what is asked of the client is what it makes of that. */
  function Machine<S>(service: (S, Request) -> Upstream, distance: Request -> real, ttl: int)
    : StaleCache.Params<S, Request, Key, Option<Route>>
  {
    StaleCache.Params((s: S, r: Request) => Resolve(distance, r, service(s, r)), (r: Request) => KeyOf(r),
                      (v: Option<Route>) => v.Some?, ttl, true)
  }

  /** The client's map holds what the machine's cache holds. */
  ghost predicate Mirrors(cache: map<Key, CachedRoute>, machine: map<Key, StaleCache.Entry<Option<Route>, Request>>) {
    && cache.Keys == machine.Keys
    && forall k :: k in cache ==> machine[k].value == Some(cache[k].route) && cache[k].expiresAt == machine[k].expires
  }

  /** The machine's steps for one call that reaches the service at time `read`. */
  function CallSteps<S>(
    cache: map<Key, CachedRoute>, ttl: int, answer: Option<Route>, r: Request, id: nat, asked: int, read: int, came: int)
    : seq<StaleCache.Step<S, Request, Key>>
  {
    if Hit(cache, ttl, KeyOf(r), asked) then [StaleCache.Hit(r, asked)]
    else [StaleCache.Miss(id, r, read), StaleCache.Finish(id, ttl != 0 && answer.Some?, came)]
  }

  /** Every call of the client is a run of the machine, with the same answer and the same cache afterwards. */
  lemma ClientIsMachine<S(!new)>(
    service: (S, Request) -> Upstream, distance: Request -> real, ttl: int, delay: int, cache: map<Key, CachedRoute>,
    s: StaleCache.State<S, Request, Key, Option<Route>>, r: Request, id: nat, asked: int, read: int, came: int)
    returns (t: StaleCache.State<S, Request, Key, Option<Route>>)
    requires ttl >= 0 && Mirrors(cache, s.cache) && s.versions != [] && id !in s.fills
    requires s.now <= asked <= read <= came <= read + delay
    ensures
      var upstream := service(s.versions[|s.versions| - 1].store, r);
      var (after, answer) := Call(cache, ttl, distance, r, upstream, asked, came);
      && StaleCache.Reaches(Machine(service, distance, ttl), delay, s,
                            CallSteps(cache, ttl, answer, r, id, asked, read, came), t)
      && Mirrors(after, t.cache) && t.versions == s.versions && t.fills == s.fills
      && t.served == s.served + [StaleCache.Answer(r, answer, t.now)]
  {
    var p := Machine(service, distance, ttl);
    if Hit(cache, ttl, KeyOf(r), asked) {
      var hit := StaleCache.Hit(r, asked);
      t := StaleCache.Next(p, s, hit);
      assert StaleCache.Reaches(p, delay, t, [], t);
      assert [hit][1..] == [];
    } else {
      var answer := Resolve(distance, r, service(s.versions[|s.versions| - 1].store, r));
      var miss, finish := StaleCache.Miss(id, r, read), StaleCache.Finish(id, ttl != 0 && answer.Some?, came);
      var missed := StaleCache.Next(p, s, miss);
      t := StaleCache.Next(p, missed, finish);
      assert [miss, finish][1..] == [finish] && [finish][1..] == [];
      assert StaleCache.Reaches(p, delay, t, [], t);
      assert StaleCache.Reaches(p, delay, missed, [finish], t);
      assert t.fills == s.fills;
    }
  }

  /** At some moment no earlier than `ttl + delay` before the answer, the service made of a request near the one answered
      what explains it: its own route, no route, or the straight line because it could not be reached. */
  ghost predicate Explained<S>(
    service: (S, Request) -> Upstream, distance: Request -> real, ttl: int, delay: int,
    versions: seq<StaleCache.Version<S>>, a: StaleCache.Answer<Request, Option<Route>>, i: nat, q: Request)
  {
    && StaleCache.CurrentSince(versions, i, a.at - ttl - delay) && versions[i].at <= a.at && Near(q, a.query)
    && match service(versions[i].store, q)
       case Routed(route) => a.value == Some(route)
       case NoRoute => a.value == None
       case Unreachable => a.value == Fallback(distance, q)
  }

  /** However requests interleave, a route served at time `t` is the service's route, or the straight line of a moment
      when the service could not be reached, for points at most a hundred-thousandth of a degree from those asked for and
      at some moment no earlier than `t - ttl - delay`. */
  lemma RouteStaleness<S(!new)>(
    service: (S, Request) -> Upstream, distance: Request -> real, ttl: int, delay: int, store: S,
    steps: seq<StaleCache.Step<S, Request, Key>>, t: StaleCache.State<S, Request, Key, Option<Route>>, n: nat)
    requires delay >= 0 && ttl >= 0 && n < |t.served|
    requires StaleCache.Reaches(Machine(service, distance, ttl), delay, StaleCache.Initial(store), steps, t)
    ensures exists i, q :: Explained(service, distance, ttl, delay, t.versions, t.served[n], i, q)
  {
    var p, a := Machine(service, distance, ttl), t.served[n];
    StaleCache.BoundedStaleness(p, delay, StaleCache.Initial(store), steps, t);
    assert StaleCache.Backed(p, delay, t.versions, a);
    var i, q :| StaleCache.Justified(p, delay, t.versions, a, i, q);
    SharedKeyIsNear(q, a.query);
    assert Explained(service, distance, ttl, delay, t.versions, a, i, q);
  }

  /** The route the service gave, if it gave one. */
  function Given(u: Upstream): Option<Route> { if u.Routed? then Some(u.route) else None }

  /** What an entry was filed from: never from a refusal, and it holds the service's route if and only if the service could
      be reached when it was asked; otherwise it holds the straight line. */
  lemma FiledExactly<S(!new)>(
    service: (S, Request) -> Upstream, distance: Request -> real, ttl: int, delay: int, store: S,
    steps: seq<StaleCache.Step<S, Request, Key>>, t: StaleCache.State<S, Request, Key, Option<Route>>, key: Key)
    requires delay >= 0 && ttl >= 0 && key in t.cache
    requires StaleCache.Reaches(Machine(service, distance, ttl), delay, StaleCache.Initial(store), steps, t)
    ensures
      var e := t.cache[key];
      && e.version < |t.versions| && KeyOf(e.query) == key && e.value.Some?
      && var upstream := service(t.versions[e.version].store, e.query);
         && !upstream.NoRoute?
         && (e.value == Given(upstream) <==> upstream.Routed?)
         && (upstream.Unreachable? ==> e.value == Fallback(distance, e.query))
  {
    var p := Machine(service, distance, ttl);
    StaleCache.BoundedStaleness(p, delay, StaleCache.Initial(store), steps, t);
    assert StaleCache.EntryOk(p, delay, t.versions, key, t.cache[key], t.now);
  }
}
