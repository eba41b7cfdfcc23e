/** The trip queues: `matching/redis_queue.go` and `matching/sqs_queue.go`. */
module Queues {
  import opened Common

  datatype Event = Event(trip: string, rider: string)

  /** What lies in a queue: an event as `json.Marshal` writes it, or something that does not decode. */
  datatype Payload = Json(event: Event) | Garbage(bytes: string)

  function Decode(p: Payload): Option<Event> { if p.Json? then Some(p.event) else None }

  // ---------------------------------------------------------------- Redis list

  /** `list` is the Redis list, its right end last.  The rest is history: what was pushed, in order; what the handler was
      given; what failed to decode. */
  datatype Redis = Redis(list: seq<Payload>, pushed: seq<Payload>, handled: seq<Event>, undecodable: seq<Payload>)

  /** `Publish` refuses an event without a trip, otherwise `RPUSH`es it; other programs may push anything. */
  function Push(s: Redis, p: Payload): Redis { s.(list := s.list + [p], pushed := s.pushed + [p]) }

  function Publish(s: Redis, event: Event): (Redis, bool) {
    if event.trip == "" then (s, false) else (Push(s, Json(event)), true)
  }

  /** One turn of `Consume`: `BRPOP`, then decode, then the handler, whatever it returns. */
  function Pop(s: Redis): Redis {
    if s.list == [] then s
    else
      var p := s.list[|s.list| - 1];
      var rest := s.(list := s.list[..|s.list| - 1]);
      match Decode(p)
      case None => rest.(undecodable := s.undecodable + [p])
      case Some(e) => rest.(handled := s.handled + [e])
  }

  datatype RedisStep = Published(event: Event) | Pushed(payload: Payload) | Consumed

  function RedisNext(s: Redis, step: RedisStep): Redis {
    match step
    case Published(e) => Publish(s, e).0
    case Pushed(p) => Push(s, p)
    case Consumed => Pop(s)
  }

  function RedisRun(steps: seq<RedisStep>): Redis {
    if steps == [] then Redis([], [], [], [])
    else RedisNext(RedisRun(steps[..|steps| - 1]), steps[|steps| - 1])
  }

  function Jsons(events: seq<Event>): seq<Payload> {
    seq(|events|, i requires 0 <= i < |events| => Json(events[i]))
  }

  lemma JsonsSnoc(events: seq<Event>, e: Event)
    ensures Jsons(events + [e]) == Jsons(events) + [Json(e)]
  {
  }

  function Accounted(s: Redis): multiset<Payload> {
    multiset(s.list) + multiset(Jsons(s.handled)) + multiset(s.undecodable)
  }

  lemma PopConserves(s: Redis)
    requires s.list != []
    ensures Accounted(Pop(s)) == Accounted(s)
  {
    var n := |s.list| - 1;
    assert s.list == s.list[..n] + [s.list[n]];
    if s.list[n].Json? { JsonsSnoc(s.handled, s.list[n].event); }
  }

  /** Nothing is lost or handled twice: what was pushed is what is still there, what the handler got and what did not
      decode, each exactly as often as it was pushed. */
  lemma {:induction false} RedisConserves(steps: seq<RedisStep>)
    ensures
      var s := RedisRun(steps);
      multiset(s.pushed) == Accounted(s)
  {
    if steps != [] {
      var s, step := RedisRun(steps[..|steps| - 1]), steps[|steps| - 1];
      RedisConserves(steps[..|steps| - 1]);
      if step.Consumed? && s.list != [] {
        PopConserves(s);
      }
    }
  }

  /** An event published and then consumed is the event the handler gets, and the rest of the queue is left alone; an event
      without a trip is not published, and what does not decode is set aside. */
  lemma RedisRoundTrip(s: Redis, event: Event, bytes: string)
    ensures
      var t := RedisNext(s, Published(event));
      && (Publish(s, event).1 <==> event.trip != "")
      && (if event.trip == "" then t == s
          else
            && t.list == s.list + [Json(event)] && t.pushed == s.pushed + [Json(event)]
            && RedisNext(t, Consumed) == s.(pushed := t.pushed, handled := s.handled + [event]))
    ensures
      RedisNext(RedisNext(s, Pushed(Garbage(bytes))), Consumed)
      == s.(pushed := s.pushed + [Garbage(bytes)], undecodable := s.undecodable + [Garbage(bytes)])
  {
  }

  function PublishAll(s: Redis, events: seq<Event>): Redis
    decreases |events|
  {
    if events == [] then s else PublishAll(RedisNext(s, Published(events[0])), events[1..])
  }

  function Pops(s: Redis, n: nat): Redis
    decreases n
  {
    if n == 0 then s else Pops(RedisNext(s, Consumed), n - 1)
  }

  function Reversed(events: seq<Event>): seq<Event> {
    if events == [] then [] else Reversed(events[1..]) + [events[0]]
  }

  lemma {:induction false} PopsAdd(s: Redis, m: nat, n: nat)
    ensures Pops(s, m + n) == Pops(Pops(s, m), n)
    decreases m
  {
    if m > 0 { PopsAdd(RedisNext(s, Consumed), m - 1, n); }
  }

  /** Events published one after another and then consumed reach the handler last first, each once, and nothing is left of
      them. */
  lemma {:induction false} RedisReverses(s: Redis, events: seq<Event>)
    requires forall i :: 0 <= i < |events| ==> events[i].trip != ""
    ensures
      var t := Pops(PublishAll(s, events), |events|);
      t == s.(pushed := s.pushed + Jsons(events), handled := s.handled + Reversed(events))
    decreases |events|
  {
    if events == [] {
      assert s.pushed + Jsons([]) == s.pushed;
    } else {
      var first, rest := events[0], events[1..];
      var t := Publish(s, first).0;
      RedisReverses(t, rest);
      PopsAdd(PublishAll(t, rest), |rest|, 1);
      var mid := Pops(PublishAll(t, rest), |rest|);
      assert Pops(mid, 1) == Pop(mid);
      assert mid.list == s.list + [Json(first)];
      assert mid.list[..|mid.list| - 1] == s.list;
      assert [Json(first)] + Jsons(rest) == Jsons(events);
      assert s.pushed + Jsons(events) == t.pushed + Jsons(rest);
      assert s.handled + Reversed(rest) + [first] == s.handled + Reversed(events);
    }
  }

  /** `RPUSH` with `BRPOP` makes the list a stack. */
  ghost predicate Positions(s: Redis, at: seq<nat>) {
    && |at| == |s.list|
    && (forall i :: 0 <= i < |at| ==> at[i] < |s.pushed| && s.pushed[at[i]] == s.list[i])
    && (forall i, j :: 0 <= i < j < |at| ==> at[i] < at[j])
  }

  /** Where each item of the list stands in the order of pushing. */
  function PushOrder(steps: seq<RedisStep>): seq<nat> {
    if steps == [] then []
    else
      var before, s, step := PushOrder(steps[..|steps| - 1]), RedisRun(steps[..|steps| - 1]), steps[|steps| - 1];
      match step
      case Published(e) => if e.trip == "" then before else before + [|s.pushed|]
      case Pushed(_) => before + [|s.pushed|]
      case Consumed => if before == [] then before else before[..|before| - 1]
  }

  /** Last in, first out: at any moment the item a consumer would take next was pushed after everything else pending. */
  lemma {:induction false} RedisLastInFirstOut(steps: seq<RedisStep>)
    ensures Positions(RedisRun(steps), PushOrder(steps))
  {
    if steps != [] {
      RedisLastInFirstOut(steps[..|steps| - 1]);
    }
  }

  class RedisQueue {
    var list: seq<Payload>
    ghost var pushed: seq<Payload>
    ghost var handled: seq<Event>
    ghost var undecodable: seq<Payload>

    constructor ()
      ensures View() == RedisRun([])
    {
      list, pushed, handled, undecodable := [], [], [], [];
    }

    ghost function View(): Redis reads this { Redis(list, pushed, handled, undecodable) }

    method PublishEvent(event: Event) returns (ok: bool)
      modifies this
      ensures (View(), ok) == Publish(old(View()), event)
    {
      if event.trip == "" { return false; }
      list := list + [Json(event)];
      pushed := pushed + [Json(event)];
      ok := true;
    }

    /** One turn of the consumer loop; the event, if any, is what the handler is called with. */
    method ConsumeOne() returns (event: Option<Event>)
      modifies this
      ensures View() == Pop(old(View()))
      ensures event == if old(list) == [] then None else Decode(old(list)[|old(list)| - 1])
    {
      if list == [] { return None; }
      var payload := list[|list| - 1];
      list := list[..|list| - 1];
      event := Decode(payload);
      if event.Some? { handled := handled + [event.value]; } else { undecodable := undecodable + [payload]; }
    }
  }

  // ---------------------------------------------------------------- SQS

  /** What the consumer does with a message: calls the handler, asks for its deletion. */
  datatype Action = Called(id: nat, ok: bool) | Deleted(id: nat)

  /** `messages` is everything ever sent, `queue` the identifiers not deleted. */
  datatype Sqs = Sqs(messages: map<nat, Payload>, queue: set<nat>, actions: seq<Action>)

  /** What happens to one delivery: the handler's verdict and whether the delete call goes through. */
  datatype Delivery = Delivery(id: nat, handlerOk: bool, deleteOk: bool)

  /** `processSQSMessage`. */
  function Process(s: Sqs, d: Delivery): Sqs {
    if d.id !in s.messages || Decode(s.messages[d.id]).None? then s
    else
      var called := s.(actions := s.actions + [Called(d.id, d.handlerOk)]);
      if !d.handlerOk || !d.deleteOk then called
      else called.(queue := s.queue - {d.id}, actions := called.actions + [Deleted(d.id)])
  }

  /** SQS may deliver a message it holds any number of times, and even one already deleted. */
  datatype SqsStep = Sent(id: nat, payload: Payload) | Delivered(delivery: Delivery)

  function SqsNext(s: Sqs, step: SqsStep): Sqs {
    match step
    case Sent(id, p) => if id in s.messages then s else s.(messages := s.messages[id := p], queue := s.queue + {id})
    case Delivered(d) => Process(s, d)
  }

  function SqsRun(steps: seq<SqsStep>): Sqs {
    if steps == [] then Sqs(map[], {}, []) else SqsNext(SqsRun(steps[..|steps| - 1]), steps[|steps| - 1])
  }

  /** Every deletion comes right after a handler call for the same message that returned nil. */
  ghost predicate DeletesEarned(actions: seq<Action>) {
    forall i :: 0 <= i < |actions| && actions[i].Deleted? ==> i > 0 && actions[i - 1] == Called(actions[i].id, true)
  }

  /** Every message gone from the queue was deleted by the consumer. */
  ghost predicate NoneLost(s: Sqs) {
    && s.queue <= s.messages.Keys
    && forall id :: id in s.messages && id !in s.queue ==> Deleted(id) in s.actions
  }

  lemma ProcessKeeps(s: Sqs, d: Delivery)
    requires DeletesEarned(s.actions) && NoneLost(s)
    ensures DeletesEarned(Process(s, d).actions) && NoneLost(Process(s, d))
    ensures s.actions <= Process(s, d).actions
  {
    var t := Process(s, d);
    assert forall i :: 0 <= i < |s.actions| ==> t.actions[i] == s.actions[i];
    forall id | id in t.messages && id !in t.queue ensures Deleted(id) in t.actions {
      if id !in s.queue {
        var i :| 0 <= i < |s.actions| && s.actions[i] == Deleted(id);
        assert t.actions[i] == Deleted(id);
      } else {
        assert t.actions[|t.actions| - 1] == Deleted(id);
      }
    }
  }

  /** A message sent under a new identifier is in the queue with what it says. */
  lemma SentExactly(s: Sqs, id: nat, payload: Payload)
    requires id !in s.messages
    ensures
      var t := SqsNext(s, Sent(id, payload));
      && id in t.messages && t.messages[id] == payload && id in t.queue && t.actions == s.actions
      && (forall k :: k != id ==> (k in t.queue <==> k in s.queue))
      && (forall k :: k in s.messages ==> k in t.messages && t.messages[k] == s.messages[k])
  {
  }

  /** A delivery calls the handler exactly if the message decodes, and takes the message out of the queue exactly if the
      handler then returns nil and the delete call goes through; no other message is touched. */
  lemma ProcessExactly(s: Sqs, d: Delivery)
    requires d.id in s.messages && d.id in s.queue
    ensures
      var t := SqsNext(s, Delivered(d));
      var called := s.messages[d.id].Json?;
      && t.messages == s.messages
      && (d.id !in t.queue <==> called && d.handlerOk && d.deleteOk)
      && (forall id :: id != d.id ==> (id in t.queue <==> id in s.queue))
      && s.actions <= t.actions
      && (t.actions != s.actions <==> called)
      && (called ==> t.actions[|s.actions|] == Called(d.id, d.handlerOk))
      && (Deleted(d.id) in t.actions[|s.actions|..] <==> d.id !in t.queue)
  {
    var t := Process(s, d);
    var added := t.actions[|s.actions|..];
    if s.messages[d.id].Json? {
      assert added == if d.id in t.queue then [Called(d.id, d.handlerOk)] else [Called(d.id, d.handlerOk), Deleted(d.id)];
      if d.id !in t.queue { assert added[1] == Deleted(d.id); }
    }
  }

  /** At least once: whatever is redelivered and whichever deletes fail, a message leaves the queue only after the
      handler returned nil for it. */
  lemma {:induction false} SqsAtLeastOnce(steps: seq<SqsStep>)
    ensures
      var s := SqsRun(steps);
      && DeletesEarned(s.actions) && NoneLost(s)
      && forall id :: id in s.messages && id !in s.queue ==> Called(id, true) in s.actions
  {
    if steps != [] {
      var before, step := SqsRun(steps[..|steps| - 1]), steps[|steps| - 1];
      SqsAtLeastOnce(steps[..|steps| - 1]);
      if step.Delivered? { ProcessKeeps(before, step.delivery); }
    }
    var s := SqsRun(steps);
    forall id | id in s.messages && id !in s.queue ensures Called(id, true) in s.actions {
      var i :| 0 <= i < |s.actions| && s.actions[i] == Deleted(id);
      assert s.actions[i - 1] == Called(id, true);
    }
  }

  function ProcessAll(s: Sqs, batch: seq<Delivery>): Sqs {
    if batch == [] then s else Process(ProcessAll(s, batch[..|batch| - 1]), batch[|batch| - 1])
  }

  class SqsConsumer {
    ghost const messages: map<nat, Payload>
    var queue: set<nat>
    ghost var actions: seq<Action>

    constructor (ghost messages: map<nat, Payload>, sent: set<nat>)
      requires sent == messages.Keys
      ensures View() == Sqs(messages, messages.Keys, [])
    {
      this.messages, queue, actions := messages, sent, [];
    }

    ghost function View(): Sqs reads this { Sqs(messages, queue, actions) }

    /** One delivery; `body` is the message received. */
    method ProcessMessage(d: Delivery, body: Payload)
      requires d.id in messages && messages[d.id] == body
      modifies this
      ensures View() == Process(old(View()), d)
    {
      if Decode(body).None? { return; }
      actions := actions + [Called(d.id, d.handlerOk)];
      if !d.handlerOk { return; }
      if d.deleteOk {
        queue := queue - {d.id};
        actions := actions + [Deleted(d.id)];
      }
    }

    /** The inner loop of `Consume` over one received batch. */
    method ProcessBatch(batch: seq<Delivery>, bodies: seq<Payload>)
      requires |batch| == |bodies|
      requires forall i :: 0 <= i < |batch| ==> batch[i].id in messages && messages[batch[i].id] == bodies[i]
      modifies this
      ensures View() == ProcessAll(old(View()), batch)
    {
      for i := 0 to |batch|
        invariant View() == ProcessAll(old(View()), batch[..i])
      {
        assert batch[..i + 1][..i] == batch[..i];
        ProcessMessage(batch[i], bodies[i]);
      }
      assert batch[..|batch|] == batch;
    }
  }
}
