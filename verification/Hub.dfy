/** The per-trip WebSocket hub of `handlers/ws.go`.  Payloads are opaque strings. */
module Hub {

  const SEND_SLOTS := 16       // capacity of a client's send channel
  const BROADCAST_SLOTS := 16  // capacity of the hub's broadcast channel
  const SNAPSHOTS := 2         // the status and the location snapshot of a connection

  datatype Item = Live(payload: string) | Snap(payload: string)

  /** A client's `send` channel. */
  datatype Mailbox = Mailbox(queue: seq<Item>, closed: bool)

  const EMPTY_MAILBOX := Mailbox([], false)

  /** What `run` does to one client for one broadcast: a non-blocking send, or the client is dropped. */
  function Offer(m: Mailbox, payload: string): Mailbox {
    if |m.queue| < SEND_SLOTS then m.(queue := m.queue + [Live(payload)]) else m.(closed := true)
  }

  // ---------------------------------------------------------------- the objects of the source

  class Client {
    var queue: seq<Item>
    var closed: bool

    constructor ()
      ensures Box() == EMPTY_MAILBOX
    {
      queue, closed := [], false;
    }

    function Box(): Mailbox reads this { Mailbox(queue, closed) }
  }

  class TripHub {
    var clients: set<Client>

    constructor ()
      ensures clients == {}
    {
      clients := {};
    }

    /** Members are exactly the clients whose channel is open, so the hub never sends on or closes a closed channel. */
    ghost predicate Valid() reads this, clients {
      forall c :: c in clients ==> !c.closed
    }

    method Register(client: Client)
      requires Valid() && !client.closed
      modifies `clients
      ensures Valid() && clients == old(clients) + {client}
    {
      clients := clients + {client};
    }

    method Unregister(client: Client)
      requires Valid()
      modifies `clients, client`closed
      ensures Valid() && clients == old(clients) - {client}
      ensures client.closed == (client in old(clients) || old(client.closed))
    {
      if client in clients {
        clients := clients - {client};
        client.closed := true;
      }
    }

    /** One message of the broadcast channel, offered to every client in whatever order the map yields them. */
    method Broadcast(payload: string)
      requires Valid()
      modifies `clients, clients
      ensures Valid()
      ensures forall c :: c in old(clients) ==> c.Box() == Offer(old(c.Box()), payload)
      ensures forall c :: c in old(clients) ==> (c in clients <==> |old(c.queue)| < SEND_SLOTS)
      ensures clients <= old(clients)
    {
      ghost var before := clients;
      var todo := clients;
      while todo != {}
        invariant todo <= clients <= before
        invariant forall c :: c in todo ==> c.Box() == old(c.Box())
        invariant forall c :: c in before && c !in todo ==> c.Box() == Offer(old(c.Box()), payload)
        invariant forall c :: c in before && c !in todo ==> (c in clients <==> |old(c.queue)| < SEND_SLOTS)
        decreases |todo|
      {
        var c :| c in todo;
        todo := todo - {c};
        if |c.queue| < SEND_SLOTS {
          c.queue := c.queue + [Live(payload)];
        } else {
          c.closed := true;
          clients := clients - {c};
        }
      }
    }
  }
}
