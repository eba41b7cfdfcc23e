/** Runs of one hub: connections register, publishers fill the broadcast channel, the hub drains it, connection handlers
    send their snapshots straight into their own channel, writers take items out, readers unregister; all interleaved. */
module HubRuns {
  import opened Hub

  /** Where the goroutine of a connection stands: it may still send `left` snapshots, or it reads and, when that ends,
      unregisters; or it sent on a closed channel, a panic that ends this goroutine and nothing else. */
  datatype Handler = Sending(left: nat) | Reading | Gone | Panicked

  /** Whether a connection is in the hub's map, or how it left: `at` is how many broadcasts the hub had taken up and dealt
      with when it did, `backlog` the items its writer had not taken. */
  datatype Standing = Member | Unregistered(at: nat) | FoundFull(at: nat, backlog: nat)

  /** One connection.  `sent` is everything ever put into its channel and `received` how much of it the writer has
      taken; `start` counts the broadcasts the hub had taken up when it joined, `end` those it had been offered with
      success, counted the same way; `closes` counts closings of its channel. */
  datatype Conn = Conn(
    box: Mailbox, standing: Standing, handler: Handler, sent: seq<Item>, received: nat, start: nat, end: nat, closes: nat)

  /** `published` is the order in which the broadcast channel accepted payloads, `pending` its content, `order` what the
      hub has taken from it, and `todo` the connections the hub has yet to offer the last of these to. */
  datatype State = State(
    conns: map<nat, Conn>, published: seq<string>, pending: seq<string>, order: seq<string>, todo: set<nat>)

  const INIT := State(map[], [], [], [], {})

  datatype Step =
    | Register(id: nat, snapshots: nat)
    | Publish(payload: string)
    | Take
    | OfferTo(id: nat)
    | Snapshot(id: nat, payload: string)
    | StartReading(id: nat)
    | Unregister(id: nat)
    | Write(id: nat)

  /** The hub's goroutine does one thing at a time: it takes up a broadcast, a registration or an unregistration only
      when the last broadcast has been offered to everyone.  A snapshot send blocks while the channel is open and full; a
      publisher blocks while the broadcast channel is full. */
  ghost predicate Enabled(s: State, step: Step) {
    match step
    case Register(id, snapshots) => s.todo == {} && id !in s.conns && snapshots <= SNAPSHOTS
    case Publish(_) => |s.pending| < BROADCAST_SLOTS
    case Take => s.todo == {} && s.pending != []
    case OfferTo(id) => id in s.todo && id in s.conns && s.order != []
    case Snapshot(id, _) =>
      && id in s.conns && s.conns[id].handler.Sending? && s.conns[id].handler.left > 0
      && (s.conns[id].box.closed || |s.conns[id].box.queue| < SEND_SLOTS)
    case StartReading(id) => id in s.conns && s.conns[id].handler.Sending?
    case Unregister(id) => s.todo == {} && id in s.conns && s.conns[id].handler.Reading?
    case Write(id) => id in s.conns && s.conns[id].box.queue != []
  }

  /** What offering broadcast number `at` does to a member. */
  function Offered(c: Conn, payload: string, at: nat): Conn {
    var box := Offer(c.box, payload);
    if box.closed then c.(box := box, standing := FoundFull(at, |c.box.queue|), closes := c.closes + 1)
    else c.(box := box, sent := c.sent + [Live(payload)], end := c.end + 1)
  }

  function AfterSnapshot(c: Conn, payload: string): Conn
    requires c.handler.Sending? && c.handler.left > 0
  {
    if c.box.closed then c.(handler := Panicked)
    else
      c.(box := c.box.(queue := c.box.queue + [Snap(payload)]), sent := c.sent + [Snap(payload)],
         handler := Sending(c.handler.left - 1))
  }

  function AfterUnregister(c: Conn, at: nat): Conn {
    if c.standing.Member? then
      c.(handler := Gone, standing := Unregistered(at), box := c.box.(closed := true), closes := c.closes + 1)
    else c.(handler := Gone)
  }

  function AfterWrite(c: Conn): Conn
    requires c.box.queue != []
  {
    c.(box := c.box.(queue := c.box.queue[1..]), received := c.received + 1)
  }

  function Members(s: State): set<nat> {
    set id | id in s.conns && s.conns[id].standing.Member?
  }

  function Next(s: State, step: Step): State
    requires Enabled(s, step)
  {
    match step
    case Register(id, snapshots) =>
      s.(conns := s.conns[id := Conn(EMPTY_MAILBOX, Member, Sending(snapshots), [], 0, |s.order|, |s.order|, 0)])
    case Publish(payload) => s.(published := s.published + [payload], pending := s.pending + [payload])
    case Take => s.(pending := s.pending[1..], order := s.order + [s.pending[0]], todo := Members(s))
    case OfferTo(id) =>
      var at := |s.order| - 1;
      s.(conns := s.conns[id := Offered(s.conns[id], s.order[at], at)], todo := s.todo - {id})
    case Snapshot(id, payload) =>
      s.(conns := s.conns[id := AfterSnapshot(s.conns[id], payload)])
    case StartReading(id) => s.(conns := s.conns[id := s.conns[id].(handler := Reading)])
    case Unregister(id) =>
      s.(conns := s.conns[id := AfterUnregister(s.conns[id], |s.order|)])
    case Write(id) =>
      s.(conns := s.conns[id := AfterWrite(s.conns[id])])
  }

  ghost predicate Legal(steps: seq<Step>) {
    steps != [] ==> Legal(steps[..|steps| - 1]) && Enabled(Run(steps[..|steps| - 1]), steps[|steps| - 1])
  }

  ghost function Run(steps: seq<Step>): State {
    if steps == [] then INIT
    else
      var before := Run(steps[..|steps| - 1]);
      if Enabled(before, steps[|steps| - 1]) then Next(before, steps[|steps| - 1]) else before
  }

  /** The broadcasts among the items of a channel, in order. */
  function Lives(items: seq<Item>): seq<string> {
    if items == [] then []
    else
      var rest, x := Lives(items[..|items| - 1]), items[|items| - 1];
      if x.Live? then rest + [x.payload] else rest
  }

  lemma LivesSnoc(items: seq<Item>, x: Item)
    ensures Lives(items + [x]) == if x.Live? then Lives(items) + [x.payload] else Lives(items)
  {
    assert (items + [x])[..|items|] == items;
  }

  lemma {:induction false} LivesPrefix(items: seq<Item>, n: nat)
    requires n <= |items|
    ensures Lives(items[..n]) <= Lives(items)
    decreases |items|
  {
    if n < |items| {
      LivesPrefix(items[..|items| - 1], n);
      assert items[..|items| - 1][..n] == items[..n];
    } else {
      assert items[..n] == items;
    }
  }

  // ---------------------------------------------------------------- invariant

  /** `n` is how many broadcasts the connection would have been offered were it a member. */
  ghost predicate ConnOk(c: Conn, order: seq<string>, n: nat) {
    // the channel is a queue of what was sent and not yet taken
    && c.received <= |c.sent| && c.box.queue == c.sent[c.received..] && |c.box.queue| <= SEND_SLOTS
    // the broadcasts sent are a contiguous stretch of the hub's order
    && c.start <= c.end <= n <= |order| && Lives(c.sent) == order[c.start..c.end]
    // closed exactly when it left the map, and closed once
    && (c.standing.Member? <==> !c.box.closed) && c.closes == (if c.box.closed then 1 else 0)
    // a member has been offered everything; others left by unregistering or by being found full, with everything before
    && (c.standing.Member? ==> c.end == n && !c.handler.Gone?)
    && (c.standing.Unregistered? ==> c.handler.Gone? && c.end == c.standing.at)
    && (c.standing.FoundFull? ==> c.end == c.standing.at < n && c.standing.backlog == SEND_SLOTS <= |c.sent|)
    && (c.handler.Panicked? ==> c.standing.FoundFull?)
    // at most two snapshots
    && |Lives(c.sent)| <= |c.sent|
    && SnapshotsSent(c) + (if c.handler.Sending? then c.handler.left else 0) <= SNAPSHOTS
  }

  function SnapshotsSent(c: Conn): int { |c.sent| - |Lives(c.sent)| }

  function OfferedCount(s: State, id: nat): int { if id in s.todo then |s.order| - 1 else |s.order| }

  ghost predicate Invariant(s: State) {
    && s.order + s.pending == s.published && |s.pending| <= BROADCAST_SLOTS
    && (s.todo != {} ==> s.order != [])
    && (forall id :: id in s.todo ==> id in s.conns && s.conns[id].standing.Member?)
    && (forall id :: id in s.conns ==> OfferedCount(s, id) >= 0 && ConnOk(s.conns[id], s.order, OfferedCount(s, id)))
  }

  lemma TakeKeeps(c: Conn, order: seq<string>, payload: string)
    requires ConnOk(c, order, |order|)
    ensures ConnOk(c, order + [payload], if c.standing.Member? then |order| else |order| + 1)
  {
    assert (order + [payload])[c.start..c.end] == order[c.start..c.end];
  }

  lemma OfferKeeps(c: Conn, order: seq<string>)
    requires order != [] && ConnOk(c, order, |order| - 1) && c.standing.Member?
    ensures ConnOk(Offered(c, order[|order| - 1], |order| - 1), order, |order|)
  {
    var payload := order[|order| - 1];
    if |c.box.queue| < SEND_SLOTS {
      LivesSnoc(c.sent, Live(payload));
      assert (c.sent + [Live(payload)])[c.received..] == c.sent[c.received..] + [Live(payload)];
      assert order[c.start..|order|] == order[c.start..|order| - 1] + [payload];
    }
  }

  lemma TakeKeepsAll(s: State)
    requires Invariant(s) && Enabled(s, Take)
    ensures Invariant(Next(s, Take))
  {
    var t := Next(s, Take);
    assert s.order + s.pending == (s.order + [s.pending[0]]) + s.pending[1..];
    forall id | id in t.conns ensures ConnOk(t.conns[id], t.order, OfferedCount(t, id)) {
      assert ConnOk(s.conns[id], s.order, OfferedCount(s, id));
      TakeKeeps(s.conns[id], s.order, s.pending[0]);
    }
  }

  lemma OfferedKeeps(s: State, id: nat, c: Conn)
    requires Invariant(s) && id in s.todo && ConnOk(c, s.order, |s.order|)
    ensures Invariant(s.(conns := s.conns[id := c], todo := s.todo - {id}))
  {
  }

  lemma OfferKeepsAll(s: State, id: nat)
    requires Invariant(s) && Enabled(s, OfferTo(id))
    ensures Invariant(Next(s, OfferTo(id)))
  {
    var at := |s.order| - 1;
    OfferKeeps(s.conns[id], s.order);
    OfferedKeeps(s, id, Offered(s.conns[id], s.order[at], at));
  }

  lemma SnapshotKeeps(c: Conn, order: seq<string>, n: nat, payload: string)
    requires ConnOk(c, order, n) && c.handler.Sending? && c.handler.left > 0
    requires c.box.closed || |c.box.queue| < SEND_SLOTS
    ensures ConnOk(AfterSnapshot(c, payload), order, n)
  {
    LivesSnoc(c.sent, Snap(payload));
    assert (c.sent + [Snap(payload)])[c.received..] == c.sent[c.received..] + [Snap(payload)];
  }

  lemma UnregisterKeeps(c: Conn, order: seq<string>)
    requires ConnOk(c, order, |order|)
    ensures ConnOk(AfterUnregister(c, |order|), order, |order|)
  {
  }

  lemma WriteKeeps(c: Conn, order: seq<string>, n: nat)
    requires ConnOk(c, order, n) && c.box.queue != []
    ensures ConnOk(AfterWrite(c), order, n)
  {
    assert c.sent[c.received..][1..] == c.sent[c.received + 1..];
  }

  /** What a step of the handler, the writer or the reader of one connection does to it. */
  lemma ConnKeeps(s: State, step: Step, n: nat)
    requires step.Snapshot? || step.StartReading? || step.Unregister? || step.Write?
    requires Enabled(s, step) && ConnOk(s.conns[step.id], s.order, n) && (step.Unregister? ==> n == |s.order|)
    ensures step.id in Next(s, step).conns && ConnOk(Next(s, step).conns[step.id], s.order, n)
  {
    var c := s.conns[step.id];
    match step
    case Snapshot(_, payload) => SnapshotKeeps(c, s.order, n, payload);
    case Unregister(_) => UnregisterKeeps(c, s.order);
    case Write(_) => WriteKeeps(c, s.order, n);
    case _ =>
  }

  lemma ArrivalKeeps(s: State, step: Step)
    requires Invariant(s) && Enabled(s, step) && (step.Publish? || step.Register?)
    ensures Invariant(Next(s, step))
  {
    if step.Publish? {
      assert s.order + (s.pending + [step.payload]) == (s.order + s.pending) + [step.payload];
    } else {
      assert s.order[|s.order|..|s.order|] == [];
    }
  }

  lemma ReplaceKeeps(s: State, id: nat, c: Conn)
    requires Invariant(s) && id in s.conns && ConnOk(c, s.order, OfferedCount(s, id))
    requires id in s.todo ==> c.standing.Member?
    ensures Invariant(s.(conns := s.conns[id := c]))
  {
  }

  lemma OwnKeeps(s: State, step: Step)
    requires Invariant(s) && Enabled(s, step)
    requires step.Snapshot? || step.StartReading? || step.Unregister? || step.Write?
    ensures Invariant(Next(s, step))
  {
    ConnKeeps(s, step, OfferedCount(s, step.id));
    var t := Next(s, step);
    assert t == s.(conns := s.conns[step.id := t.conns[step.id]]);
    ReplaceKeeps(s, step.id, t.conns[step.id]);
  }

  lemma StepKeeps(s: State, step: Step)
    requires Invariant(s) && Enabled(s, step)
    ensures Invariant(Next(s, step))
  {
    if step.Take? { TakeKeepsAll(s); }
    else if step.OfferTo? { OfferKeepsAll(s, step.id); }
    else if step.Publish? || step.Register? { ArrivalKeeps(s, step); }
    else { OwnKeeps(s, step); }
  }

  lemma {:induction false} Invariants(steps: seq<Step>)
    requires Legal(steps)
    ensures Invariant(Run(steps))
  {
    if steps != [] {
      Invariants(steps[..|steps| - 1]);
      StepKeeps(Run(steps[..|steps| - 1]), steps[|steps| - 1]);
    }
  }

  // ---------------------------------------------------------------- results

  /** Gap-free, ordered delivery: the broadcasts put into a connection's channel are exactly those the hub took up from
      its registration on, to the last for a member, up to its unregistration, or up to but not including the first that
      found sixteen items waiting; what the writer took is a prefix of them; and the hub's order is the order of
      publication. */
  lemma {:induction false} GapFree(steps: seq<Step>, id: nat)
    requires Legal(steps) && id in Run(steps).conns
    ensures
      var s := Run(steps);
      var c := s.conns[id];
      && s.order <= s.published
      && c.start <= c.end <= |s.order| && Lives(c.sent) == s.order[c.start..c.end]
      && c.received <= |c.sent| && Lives(c.sent[..c.received]) <= s.order[c.start..c.end]
      && match c.standing
         case Member => c.end == |s.order| || (c.end == |s.order| - 1 && id in s.todo)
         case Unregistered(at) => c.end == at && c.handler.Gone?
         case FoundFull(at, backlog) => c.end == at < |s.order| && backlog == SEND_SLOTS
  {
    Invariants(steps);
    var s := Run(steps);
    assert ConnOk(s.conns[id], s.order, OfferedCount(s, id));
    LivesPrefix(s.conns[id].sent, s.conns[id].received);
  }

  /** The connection was a member throughout the hub's broadcasts `i` to `j`. */
  ghost predicate Covers(c: Conn, i: nat, j: nat) { c.start <= i <= j <= c.end }

  /** What the two channels were given for the hub's broadcasts `i` to `j`. */
  ghost predicate AgreeBetween(a: Conn, b: Conn, i: nat, j: nat)
    requires Covers(a, i, j) && Covers(b, i, j)
  {
    && j - a.start <= |Lives(a.sent)| && j - b.start <= |Lives(b.sent)|
    && Lives(a.sent)[i - a.start..j - a.start] == Lives(b.sent)[i - b.start..j - b.start]
  }

  lemma SameOrderIn(s: State, a: nat, b: nat, i: nat, j: nat)
    requires Invariant(s) && a in s.conns && b in s.conns && Covers(s.conns[a], i, j) && Covers(s.conns[b], i, j)
    ensures AgreeBetween(s.conns[a], s.conns[b], i, j)
  {
    assert ConnOk(s.conns[a], s.order, OfferedCount(s, a)) && ConnOk(s.conns[b], s.order, OfferedCount(s, b));
    OrderBetween(s.order, s.conns[a], i, j);
    OrderBetween(s.order, s.conns[b], i, j);
  }

  /** All connections agree: two that were both members throughout the hub's broadcasts `i` to `j` were given the same
      payloads for them, in the same order. */
  lemma SameOrder(steps: seq<Step>, a: nat, b: nat, i: nat, j: nat)
    requires Legal(steps) && a in Run(steps).conns && b in Run(steps).conns
    requires Covers(Run(steps).conns[a], i, j) && Covers(Run(steps).conns[b], i, j)
    ensures AgreeBetween(Run(steps).conns[a], Run(steps).conns[b], i, j)
  {
    Invariants(steps);
    SameOrderIn(Run(steps), a, b, i, j);
  }

  lemma OrderBetween(order: seq<string>, c: Conn, i: nat, j: nat)
    requires c.start <= i <= j <= c.end <= |order| && Lives(c.sent) == order[c.start..c.end]
    ensures j - c.start <= |Lives(c.sent)| && Lives(c.sent)[i - c.start..j - c.start] == order[i..j]
  {
    SubSlice(order, c.start, c.end, i, j);
  }

  lemma SubSlice(s: seq<string>, lo: nat, hi: nat, i: nat, j: nat)
    requires lo <= i <= j <= hi <= |s|
    ensures s[lo..hi][i - lo..j - lo] == s[i..j]
  {
    var mid := s[lo..hi];
    assert forall k :: i - lo <= k < j - lo ==> mid[k] == s[lo + k];
    assert mid[i - lo..j - lo] == s[i..j];
  }

  /** A channel is closed at most once, exactly when its connection leaves the map, so the hub, which only sends to and
      closes members' channels, never uses a closed one. */
  lemma {:induction false} ClosedOnce(steps: seq<Step>, id: nat)
    requires Legal(steps) && id in Run(steps).conns
    ensures
      var c := Run(steps).conns[id];
      && c.closes <= 1 && (c.closes == 1 <==> c.box.closed) && (c.box.closed <==> !c.standing.Member?)
      && (id in Run(steps).todo ==> !c.box.closed)
  {
    Invariants(steps);
    var s := Run(steps);
    assert ConnOk(s.conns[id], s.order, OfferedCount(s, id));
  }

  predicate HubStep(step: Step) { step.Take? || step.OfferTo? }

  /** `t` has less left for the hub to do: fewer broadcasts to take up, or as many and fewer offers of the last one. */
  predicate LessWork(t: State, s: State) {
    |t.pending| < |s.pending| || (t.pending == s.pending && t.todo < s.todo)
  }

  /** Let the hub run on its own: what it does next is a take or an offer it is never kept from. */
  ghost function Drain(s: State): (t: State)
    requires Invariant(s)
    ensures Invariant(t) && t.pending == [] && t.todo == {}
    ensures t.published == s.published && t.order == s.published
    decreases |s.pending|, s.todo
  {
    if s.todo == {} && s.pending == [] then s
    else
      var step := HubNext(s);
      StepKeeps(s, step);
      Drain(Next(s, step))
  }

  ghost function HubNext(s: State): (step: Step)
    requires Invariant(s) && (s.todo != {} || s.pending != [])
    ensures HubStep(step) && Enabled(s, step)
  {
    if s.todo == {} then Take
    else
      var id :| id in s.todo;
      OfferTo(id)
  }

  /** The hub never waits for a client: from every reachable state it deals with all that was published, taking it up in
      order, by steps of its own that are enabled whatever writers, readers and handlers have left undone and that each
      leave it less to do. */
  lemma {:induction false} HubNeverBlocks(steps: seq<Step>)
    requires Legal(steps)
    ensures
      var s := Run(steps);
      && Invariant(s)
      && Drain(s).order == s.published && Drain(s).pending == [] && Drain(s).todo == {}
      && (s.todo != {} || s.pending != [] ==> Enabled(s, HubNext(s)))
      && (forall step :: Enabled(s, step) && HubStep(step) ==> LessWork(Next(s, step), s))
  {
    Invariants(steps);
  }

  // ---------------------------------------------------------------- joining, leaving, writing

  /** A connection is a member from its registration on, with an open and empty channel, and its stretch of the hub's order
      starts there; what is published goes to the end of the order to come. */
  lemma Joins(steps: seq<Step>, id: nat, snapshots: nat)
    requires Legal(steps + [Register(id, snapshots)])
    ensures
      var s, t := Run(steps), Run(steps + [Register(id, snapshots)]);
      && id !in s.conns && t.conns.Keys == s.conns.Keys + {id}
      && t.conns[id].standing.Member? && !t.conns[id].box.closed && t.conns[id].sent == []
      && t.conns[id].start == t.conns[id].end == |s.order|
      && t.conns[id].handler == Sending(snapshots)
      && forall k :: k in s.conns ==> t.conns[k] == s.conns[k]
  {
    LastStep(steps, Register(id, snapshots));
  }

  lemma LastStep(steps: seq<Step>, step: Step)
    requires Legal(steps + [step])
    ensures Legal(steps) && Enabled(Run(steps), step) && Run(steps + [step]) == Next(Run(steps), step)
  {
    assert (steps + [step])[..|steps|] == steps;
  }

  lemma Publishes(steps: seq<Step>, payload: string)
    requires Legal(steps + [Publish(payload)])
    ensures
      var s, t := Run(steps), Run(steps + [Publish(payload)]);
      t.published == s.published + [payload] && t.order == s.order && t.conns == s.conns
  {
    LastStep(steps, Publish(payload));
  }

  /** A handler that is done with its snapshots can unregister as soon as the hub is between broadcasts. */
  lemma ReaderCanLeave(steps: seq<Step>, id: nat)
    requires Legal(steps + [StartReading(id)])
    ensures
      var s, t := Run(steps), Run(steps + [StartReading(id)]);
      && id in s.conns && id in t.conns && (Enabled(t, Unregister(id)) <==> t.todo == {})
      && t.conns[id].standing == s.conns[id].standing && t.conns[id].sent == s.conns[id].sent
  {
    LastStep(steps, StartReading(id));
  }

  /** The connection has left the hub's map, in the way it did and with what it was sent. */
  predicate LeftWith(s: State, id: nat, standing: Standing, sent: seq<Item>) {
    && id in s.conns && !s.conns[id].standing.Member? && s.conns[id].box.closed
    && s.conns[id].standing == standing && s.conns[id].sent == sent
  }

  lemma StaysLeft(s: State, step: Step, id: nat, standing: Standing, sent: seq<Item>)
    requires Invariant(s) && Enabled(s, step) && LeftWith(s, id, standing, sent)
    ensures LeftWith(Next(s, step), id, standing, sent)
  {
  }

  /** Once it has left it is gone for good: nothing is ever put into its channel again. */
  lemma {:induction false} LeftForGood(steps: seq<Step>, more: seq<Step>, id: nat)
    requires Legal(steps + more) && id in Run(steps).conns && !Run(steps).conns[id].standing.Member?
    ensures LeftWith(Run(steps + more), id, Run(steps).conns[id].standing, Run(steps).conns[id].sent)
    decreases |more|
  {
    if more == [] {
      assert steps + more == steps;
      ClosedOnce(steps, id);
    } else {
      var n := |more| - 1;
      assert steps + more == (steps + more[..n]) + [more[n]];
      LastStep(steps + more[..n], more[n]);
      LeftForGood(steps, more[..n], id);
      Invariants(steps + more[..n]);
      StaysLeft(Run(steps + more[..n]), more[n], id, Run(steps).conns[id].standing, Run(steps).conns[id].sent);
    }
  }

  /** Unregistering takes a member out of the map there and then and closes its channel; a connection the hub had dropped
      stays as it was.  Either way it is sent nothing ever after, and the other connections do not notice. */
  lemma {:induction false} Leaves(steps: seq<Step>, id: nat, more: seq<Step>)
    requires Legal(steps + [Unregister(id)] + more)
    ensures
      var s, t, u := Run(steps), Run(steps + [Unregister(id)]), Run(steps + [Unregister(id)] + more);
      && id in s.conns && id in t.conns && t.order == s.order && t.conns[id].handler.Gone?
      && (if s.conns[id].standing.Member? then t.conns[id].standing == Unregistered(|s.order|)
          else t.conns[id].standing == s.conns[id].standing)
      && (forall k :: k in s.conns && k != id ==> k in t.conns && t.conns[k] == s.conns[k])
      && LeftWith(t, id, t.conns[id].standing, s.conns[id].sent)
      && LeftWith(u, id, t.conns[id].standing, s.conns[id].sent)
  {
    var left := steps + [Unregister(id)];
    LegalBefore(left, more);
    LastStep(steps, Unregister(id));
    ClosedOnce(left, id);
    LeftForGood(left, more, id);
  }

  lemma {:induction false} LegalBefore(steps: seq<Step>, more: seq<Step>)
    requires Legal(steps + more)
    ensures Legal(steps)
    decreases |more|
  {
    if more == [] {
      assert steps + more == steps;
    } else {
      var n := |more| - 1;
      assert steps + more == (steps + more[..n]) + [more[n]];
      LastStep(steps + more[..n], more[n]);
      LegalBefore(steps, more[..n]);
    }
  }

  /** Then the writer of a connection takes `n` items. */
  function Writing(steps: seq<Step>, id: nat, n: nat): seq<Step> {
    if n == 0 then steps else Writing(steps, id, n - 1) + [Write(id)]
  }

  /** From `s` to `t` the writer took the first `n` items waiting, and nothing else happened. */
  predicate Took(s: State, t: State, id: nat, n: nat) {
    && id in s.conns && id in t.conns && n <= |s.conns[id].box.queue|
    && t == s.(conns := s.conns[id := t.conns[id]])
    && t.conns[id].sent == s.conns[id].sent && t.conns[id].received == s.conns[id].received + n
    && t.conns[id].box.queue == s.conns[id].box.queue[n..]
  }

  lemma TookOneMore(s: State, t: State, id: nat, n: nat)
    requires Took(s, t, id, n) && n < |s.conns[id].box.queue|
    ensures Enabled(t, Write(id)) && Took(s, Next(t, Write(id)), id, n + 1)
  {
  }

  ghost predicate TookIn(steps: seq<Step>, later: seq<Step>, id: nat, n: nat) {
    Legal(later) && Took(Run(steps), Run(later), id, n)
  }

  lemma TookNothing(steps: seq<Step>, id: nat)
    requires Legal(steps) && id in Run(steps).conns
    ensures TookIn(steps, steps, id, 0)
  {
  }

  lemma WriterNext(steps: seq<Step>, before: seq<Step>, id: nat, n: nat)
    requires TookIn(steps, before, id, n) && n < |Run(steps).conns[id].box.queue|
    ensures TookIn(steps, before + [Write(id)], id, n + 1)
  {
    TookOneMore(Run(steps), Run(before), id, n);
    RunSnoc(before, Write(id));
  }

  lemma {:induction false} WriterRuns(steps: seq<Step>, id: nat, n: nat)
    requires Legal(steps) && id in Run(steps).conns && n <= |Run(steps).conns[id].box.queue|
    ensures TookIn(steps, Writing(steps, id, n), id, n)
  {
    if n == 0 {
      TookNothing(steps, id);
    } else {
      WriterRuns(steps, id, n - 1);
      WriterNext(steps, Writing(steps, id, n - 1), id, n - 1);
    }
  }

  lemma QueueIsUnreceived(c: Conn, order: seq<string>, m: nat, n: nat)
    requires ConnOk(c, order, m) && n <= |c.box.queue|
    ensures c.received + n <= |c.sent| && c.box.queue[..n] == c.sent[c.received..c.received + n]
  {
  }

  lemma QueueInRun(steps: seq<Step>, id: nat, n: nat)
    requires Legal(steps) && id in Run(steps).conns && n <= |Run(steps).conns[id].box.queue|
    ensures
      var c := Run(steps).conns[id];
      c.received + n <= |c.sent| && c.box.queue[..n] == c.sent[c.received..c.received + n]
  {
    Invariants(steps);
    QueueIsUnreceived(Run(steps).conns[id], Run(steps).order, OfferedCount(Run(steps), id), n);
  }

  /** A writer that is let run takes the items waiting, which are those sent and not yet received, in the order they were
      put in. */
  lemma WriterTakes(steps: seq<Step>, id: nat, n: nat)
    requires Legal(steps) && id in Run(steps).conns && n <= |Run(steps).conns[id].box.queue|
    ensures Legal(Writing(steps, id, n)) && Took(Run(steps), Run(Writing(steps, id, n)), id, n)
    ensures
      var c := Run(steps).conns[id];
      c.received + n <= |c.sent| && c.box.queue[..n] == c.sent[c.received..c.received + n]
  {
    WriterRuns(steps, id, n);
    QueueInRun(steps, id, n);
  }

  // ---------------------------------------------------------------- snapshots

  /** In some run, a handler that has sent `m` snapshots, and since whose registration the hub has taken up `k` broadcasts,
      can send one more. */
  ghost predicate CanSend(steps: seq<Step>, id: nat, payload: string, k: nat, m: nat) {
    && Legal(steps) && Enabled(Run(steps), Snapshot(id, payload))
    && |Run(steps).order| - Run(steps).conns[id].start == k && SnapshotsSent(Run(steps).conns[id]) == m
  }

  /** Such a send always finds an open channel. */
  ghost predicate SendSafe(k: nat, m: nat) {
    forall steps, id, payload :: CanSend(steps, id, payload, k, m) ==> !Run(steps).conns[id].box.closed
  }

  lemma SnapshotSafe(steps: seq<Step>, id: nat, payload: string, k: nat, m: nat)
    requires CanSend(steps, id, payload, k, m) && k + m <= SEND_SLOTS
    ensures !Run(steps).conns[id].box.closed
    ensures !Next(Run(steps), Snapshot(id, payload)).conns[id].handler.Panicked?
  {
    Invariants(steps);
    var s := Run(steps);
    assert ConnOk(s.conns[id], s.order, OfferedCount(s, id));
  }

  /** One connection that has sent `m` snapshots, is not written out, and is offered broadcasts while it is a member; the
      hub takes up `n` in all. */
  function Flood(m: nat, n: nat): seq<Step>
    requires m < SNAPSHOTS
  {
    if n == 0 then if m == 0 then [Register(0, 2)] else [Register(0, 2), Snapshot(0, "status")]
    else if n + m <= SEND_SLOTS + 1 then Flood(m, n - 1) + [Publish("m"), Take, OfferTo(0)]
    else Flood(m, n - 1) + [Publish("m"), Take]
  }

  ghost predicate Flooded(s: State, m: nat, n: nat) {
    && s.pending == [] && s.todo == {} && |s.order| == n && s.conns.Keys == {0}
    && m < SNAPSHOTS && s.conns[0].handler == Sending(SNAPSHOTS - m) && s.conns[0].start == 0 && SnapshotsSent(s.conns[0]) == m
    && (if n + m <= SEND_SLOTS then
          s.conns[0].standing.Member? && !s.conns[0].box.closed && |s.conns[0].box.queue| == n + m
        else !s.conns[0].standing.Member? && s.conns[0].box.closed)
  }

  lemma RunSnoc(steps: seq<Step>, step: Step)
    requires Legal(steps) && Enabled(Run(steps), step)
    ensures Legal(steps + [step]) && Run(steps + [step]) == Next(Run(steps), step)
  {
    assert (steps + [step])[..|steps|] == steps;
  }

  function TakenUp(s: State, todo: set<nat>): State {
    s.(published := s.published + ["m"], order := s.order + ["m"], todo := todo)
  }

  lemma TakesUp(s: State)
    requires s.pending == [] && s.todo == {}
    ensures Enabled(s, Publish("m")) && Enabled(Next(s, Publish("m")), Take)
    ensures Next(Next(s, Publish("m")), Take) == TakenUp(s, Members(s))
  {
    assert Members(Next(s, Publish("m"))) == Members(s);
  }

  /** The hub takes up one more broadcast. */
  lemma OneTaken(steps: seq<Step>)
    requires Legal(steps) && Run(steps).pending == [] && Run(steps).todo == {}
    ensures
      var all := steps + [Publish("m"), Take];
      Legal(all) && Run(all) == TakenUp(Run(steps), Members(Run(steps)))
  {
    TakesUp(Run(steps));
    RunSnoc(steps, Publish("m"));
    RunSnoc(steps + [Publish("m")], Take);
    assert steps + [Publish("m"), Take] == steps + [Publish("m")] + [Take];
  }

  lemma FloodedMembers(s: State, m: nat, n: nat)
    requires Flooded(s, m, n)
    ensures Members(s) == if n + m <= SEND_SLOTS then {0} else {}
  {
  }

  lemma OfferFloods(s: State, m: nat, n: nat)
    requires Flooded(s, m, n) && n + m <= SEND_SLOTS
    ensures Enabled(TakenUp(s, {0}), OfferTo(0)) && Flooded(Next(TakenUp(s, {0}), OfferTo(0)), m, n + 1)
  {
    LivesSnoc(s.conns[0].sent, Live("m"));
  }

  lemma OneMore(steps: seq<Step>, m: nat, n: nat)
    requires Legal(steps) && Flooded(Run(steps), m, n) && n + m <= SEND_SLOTS
    ensures
      var all := steps + [Publish("m"), Take, OfferTo(0)];
      Legal(all) && Flooded(Run(all), m, n + 1)
  {
    var taken := steps + [Publish("m"), Take];
    OneTaken(steps);
    FloodedMembers(Run(steps), m, n);
    OfferFloods(Run(steps), m, n);
    RunSnoc(taken, OfferTo(0));
    assert steps + [Publish("m"), Take, OfferTo(0)] == taken + [OfferTo(0)];
  }

  lemma OneIgnored(steps: seq<Step>, m: nat, n: nat)
    requires Legal(steps) && Flooded(Run(steps), m, n) && n + m > SEND_SLOTS
    ensures
      var all := steps + [Publish("m"), Take];
      Legal(all) && Flooded(Run(all), m, n + 1)
  {
    OneTaken(steps);
    FloodedMembers(Run(steps), m, n);
  }

  lemma Registered()
    ensures Legal([Register(0, 2)]) && Flooded(Run([Register(0, 2)]), 0, 0)
  {
    assert [] + [Register(0, 2)] == [Register(0, 2)];
    RunSnoc([], Register(0, 2));
  }

  lemma Greeted(s: State)
    requires Flooded(s, 0, 0)
    ensures Enabled(s, Snapshot(0, "status")) && Flooded(Next(s, Snapshot(0, "status")), 1, 0)
  {
    LivesSnoc(s.conns[0].sent, Snap("status"));
  }

  lemma FloodStarts(m: nat)
    requires m < SNAPSHOTS
    ensures Legal(Flood(m, 0)) && Flooded(Run(Flood(m, 0)), m, 0)
  {
    Registered();
    if m == 1 {
      Greeted(Run([Register(0, 2)]));
      RunSnoc([Register(0, 2)], Snapshot(0, "status"));
      assert [Register(0, 2)] + [Snapshot(0, "status")] == Flood(1, 0);
    }
  }

  lemma {:induction false} FloodFills(m: nat, n: nat)
    requires m < SNAPSHOTS
    ensures Legal(Flood(m, n)) && Flooded(Run(Flood(m, n)), m, n)
  {
    if n == 0 {
      FloodStarts(m);
    } else {
      FloodFills(m, n - 1);
      if n + m <= SEND_SLOTS + 1 { OneMore(Flood(m, n - 1), m, n - 1); } else { OneIgnored(Flood(m, n - 1), m, n - 1); }
    }
  }

  /** One snapshot too late: the send finds its channel closed and panics. */
  lemma SnapshotPanics(k: nat, m: nat)
    requires m < SNAPSHOTS && k + m > SEND_SLOTS
    ensures CanSend(Flood(m, k), 0, "late", k, m)
    ensures Next(Run(Flood(m, k)), Snapshot(0, "late")).conns[0].handler.Panicked?
    ensures Run(Flood(m, k)).conns[0].box.closed
  {
    FloodFills(m, k);
  }

  /** A handler's next snapshot is safe in every run if and only if the broadcasts taken up since the registration and the
      snapshots already sent number at most sixteen together. */
  lemma SnapshotSafeExactly(k: nat, m: nat)
    requires m < SNAPSHOTS
    ensures SendSafe(k, m) <==> k + m <= SEND_SLOTS
  {
    if k + m <= SEND_SLOTS {
      forall steps, id, payload | CanSend(steps, id, payload, k, m) ensures !Run(steps).conns[id].box.closed {
        SnapshotSafe(steps, id, payload, k, m);
      }
    } else {
      SnapshotPanics(k, m);
    }
  }
}
