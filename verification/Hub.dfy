/**
 One room's hub, its clients and the registry of hubs, as the objects they are. A client
 is pending or active; broadcasts reach active clients only, and a client whose buffer is
 full is removed and closed instead of losing a message. Every client in a hub is open, so
 no message is ever sent on a closed channel.
 */
module Hub {
  import opened Common
  import opened Tables

  datatype Message = SyncRequired | Event(body: int)

  /** The send buffer a handshake gives its client. */
  const SEND_BUFFER: nat := 32

  // ---------- the clients map: who is in, and whether active ----------

  function WithPending<C(==)>(clients: map<C, bool>, c: C): map<C, bool> {
    clients[c := false]
  }

  /** `c` becomes active if it is registered and has room for one more message; without
      room it is removed. */
  function Activated<C(==)>(clients: map<C, bool>, c: C, full: bool): map<C, bool> {
    if c !in clients then clients
    else if full then clients - {c}
    else clients[c := true]
  }

  /** The active clients a broadcast finds with a full buffer. */
  function Overflowing<C(==)>(clients: map<C, bool>, full: set<C>): set<C> {
    set c | c in clients && clients[c] && c in full
  }

  /** One more client of the map has been looked at and, if chosen, taken out. */
  lemma NextChosen<C>(clients: map<C, bool>, chosen: set<C>, pending: set<C>, c: C)
    requires c in pending
    ensures chosen - (pending - {c}) == if c in chosen then (chosen - pending) + {c} else chosen - pending
    ensures clients - (chosen - pending) - {c} == clients - ((chosen - pending) + {c})
  {
  }

  // ---------- clients ----------

  class Client {
    const room: RoomId
    const session: SessionId
    const capacity: nat
    /** The messages in the channel, oldest first. */
    var send: seq<Message>
    var open: bool
    /** How often the channel has been closed; a second time would be a panic. */
    var closings: nat

    ghost predicate Valid()
      reads this
    {
      |send| <= capacity && closings == if open then 0 else 1
    }

    predicate Full()
      reads this
    {
      |send| >= capacity
    }

    constructor (room: RoomId, session: SessionId, buffer: nat)
      ensures Valid() && open && send == [] && this.room == room && this.session == session && capacity == buffer
    {
      this.room, this.session, capacity := room, session, buffer;
      send, open, closings := [], true, 0;
    }

    /** A send that does not block. Only an open channel may be sent on. */
    method TrySend(m: Message) returns (sent: bool)
      requires Valid() && open
      modifies this`send
      ensures Valid()
      ensures sent == !old(Full())
      ensures send == if sent then old(send) + [m] else old(send)
    {
      sent := |send| < capacity;
      if sent {
        send := send + [m];
      }
    }

    /** Takes effect once, whoever calls it and however often. */
    method Close()
      requires Valid()
      modifies this`open, this`closings
      ensures Valid() && !open && closings == 1
    {
      if open {
        open := false;
        closings := closings + 1;
      }
    }

    /** What the write pump takes from the channel; a closed channel is drained first. */
    method Receive() returns (m: Option<Message>)
      requires Valid()
      modifies this`send
      ensures Valid()
      ensures old(send) == [] ==> m == None && send == []
      ensures old(send) != [] ==> m.Some? && [m.value] + send == old(send)
    {
      if send == [] {
        m := None;
      } else {
        m, send := Some(send[0]), send[1..];
      }
    }
  }

  // ---------- one room ----------

  class RoomHub {
    var clients: map<Client, bool>

    /** Every registered client is open. */
    ghost predicate Valid()
      reads this, clients.Keys
    {
      forall c :: c in clients ==> c.Valid() && c.open
    }

    ghost function FullOnes(): set<Client>
      reads this, clients.Keys
    {
      set c: Client | c in clients && c.Full()
    }

    function OfSession(cs: set<Client>, session: SessionId): set<Client> {
      set c: Client | c in cs && c.session == session
    }

    constructor ()
      ensures Valid() && clients == map[]
    {
      clients := map[];
    }

    method RegisterPending(client: Client)
      requires Valid() && client.Valid() && client.open
      modifies this
      ensures Valid() && clients == WithPending(old(clients), client)
    {
      clients := clients[client := false];
    }

    method Activate(client: Client) returns (registered: bool)
      requires Valid() && client.Valid()
      modifies this, client
      ensures Valid()
      ensures clients == Activated(old(clients), client, old(client.Full()))
      ensures registered <==> client in old(clients) && !old(client.Full())
      ensures client.send == if registered then old(client.send) + [SyncRequired] else old(client.send)
      ensures client.Valid() && (registered ==> client.open) && (!registered ==> !client.open)
    {
      registered := client in clients;
      if registered {
        var sent := client.TrySend(SyncRequired);
        if sent {
          clients := clients[client := true];
        } else {
          clients := clients - {client};
          registered := false;
        }
      }
      if !registered {
        client.Close();
      }
    }

    method Unregister(client: Client)
      requires Valid() && client.Valid()
      modifies this, client`open, client`closings
      ensures Valid() && clients == old(clients) - {client}
      ensures client.Valid() && !client.open
    {
      clients := clients - {client};
      client.Close();
    }

    /** Closes clients that have left the map, in any order. */
    static method CloseAll(closing: set<Client>)
      requires forall c :: c in closing ==> c.Valid()
      modifies closing`open, closing`closings
      ensures forall c :: c in closing ==> c.Valid() && !c.open
    {
      var pending: set<Client> := closing;
      while pending != {}
        invariant pending <= closing
        invariant forall c :: c in closing ==> c.Valid()
        invariant forall c :: c in closing - pending ==> !c.open
        decreases |pending|
      {
        var client: Client :| client in pending;
        pending := pending - {client};
        client.Close();
      }
    }

    /** All sockets of a session, pending or active, leave and are closed. */
    method DisconnectSession(session: SessionId)
      requires Valid()
      modifies this, clients.Keys`open, clients.Keys`closings
      ensures Valid()
      ensures clients == old(clients) - OfSession(old(clients).Keys, session)
      ensures forall c :: c in old(clients) ==> c.Valid() && (c.open <==> c in clients)
    {
      ghost var chosen: set<Client> := OfSession(clients.Keys, session);
      var closing: set<Client> := {};
      var pending: set<Client> := clients.Keys;
      while pending != {}
        invariant pending <= old(clients).Keys
        invariant closing == chosen - pending && clients == old(clients) - closing
        modifies this
        decreases |pending|
      {
        var client: Client :| client in pending;
        NextChosen(old(clients), chosen, pending, client);
        pending := pending - {client};
        if client.session == session {
          clients := clients - {client};
          closing := closing + {client};
        }
      }
      CloseAll(closing);
    }

    /** What a broadcast is to do, fixed when it starts: `was` is the map it finds, `before`
        the buffers, `after` the buffers it leaves and `chosen` the clients it removes. */
    static ghost predicate Due(m: Message, was: map<Client, bool>, before: map<Client, seq<Message>>,
                               after: map<Client, seq<Message>>, chosen: set<Client>)
    {
      && before.Keys == was.Keys && after.Keys == was.Keys && chosen <= was.Keys
      && (forall c :: c in was ==>
            && (c in chosen <==> was[c] && |before[c]| >= c.capacity)
            && after[c] == if was[c] && c !in chosen then before[c] + [m] else before[c])
    }

    /** The clients outside `pending` have been served. */
    ghost predicate Served(was: map<Client, bool>, before: map<Client, seq<Message>>, after: map<Client, seq<Message>>,
                           chosen: set<Client>, pending: set<Client>, closing: set<Client>)
      reads this, was.Keys
    {
      && before.Keys == was.Keys && after.Keys == was.Keys
      && closing == chosen - pending
      && clients == was - closing
      && (forall c :: c in was && c in pending ==> c.send == before[c])
      && (forall c :: c in was && c !in pending ==> c.send == after[c])
    }

    /** One client's turn in a broadcast. */
    method Offer(client: Client, m: Message, closing: set<Client>, ghost was: map<Client, bool>,
                 ghost before: map<Client, seq<Message>>,
                 ghost after: map<Client, seq<Message>>, ghost chosen: set<Client>, ghost pending: set<Client>)
      returns (closed: set<Client>)
      requires Due(m, was, before, after, chosen) && Served(was, before, after, chosen, pending, closing)
      requires client in pending && client in was && client.Valid() && client.open
      modifies this, client`send
      ensures Served(was, before, after, chosen, pending - {client}, closed)
    {
      NextChosen(was, chosen, pending, client);
      closed := closing;
      if clients[client] {
        var sent := client.TrySend(m);
        if !sent {
          clients := clients - {client};
          closed := closing + {client};
        }
      }
    }

    /** The loop over the clients, in any order. */
    method OfferAll(m: Message, ghost was: map<Client, bool>, ghost before: map<Client, seq<Message>>,
                    ghost after: map<Client, seq<Message>>, ghost chosen: set<Client>)
      returns (closing: set<Client>)
      requires clients == was && Due(m, was, before, after, chosen)
      requires forall c :: c in was ==> c.Valid() && c.open && c.send == before[c]
      modifies this, was.Keys`send
      ensures Served(was, before, after, chosen, {}, closing)
    {
      closing := {};
      var pending: set<Client> := clients.Keys;
      while pending != {}
        invariant pending <= was.Keys
        invariant Served(was, before, after, chosen, pending, closing)
        decreases |pending|
      {
        var client: Client :| client in pending;
        closing := Offer(client, m, closing, was, before, after, chosen, pending);
        pending := pending - {client};
      }
    }

    /** The part of a broadcast under the mutex: what each client gets, and who is removed. */
    method Deliver(m: Message) returns (closing: set<Client>)
      requires Valid()
      modifies this, clients.Keys`send
      ensures closing == Overflowing(old(clients), old(FullOnes())) && clients == old(clients) - closing
      ensures forall c :: c in old(clients) ==>
                c.send == if old(clients)[c] && c !in closing then old(c.send) + [m] else old(c.send)
    {
      ghost var chosen: set<Client> := Overflowing(clients, FullOnes());
      ghost var before: map<Client, seq<Message>> := map c: Client | c in clients :: c.send;
      ghost var after: map<Client, seq<Message>> := map c: Client | c in clients ::
        if clients[c] && c !in chosen then c.send + [m] else c.send;
      closing := OfferAll(m, clients, before, after, chosen);
    }

    method Broadcast(m: Message)
      requires Valid()
      modifies this, clients.Keys
      ensures Valid()
      ensures clients == old(clients) - Overflowing(old(clients), old(FullOnes()))
      ensures forall c :: c in old(clients) ==>
                && c.Valid() && (c.open <==> c in clients)
                && c.send == if c in clients && clients[c] then old(c.send) + [m] else old(c.send)
    {
      var closing := Deliver(m);
      CloseAll(closing);
    }
  }

  // ---------- all rooms ----------

  class Registry {
    var hubs: map<RoomId, RoomHub>

    /** What acting on a room's hub may touch. */
    ghost function Touched(room: RoomId): set<object>
      reads this, hubs.Values
    {
      if room in hubs then {hubs[room]} + hubs[room].clients.Keys else {}
    }

    constructor ()
      ensures hubs == map[]
    {
      hubs := map[];
    }

    /** The hub of a room, created on first use and never removed. */
    method HubOf(room: RoomId) returns (hub: RoomHub)
      modifies this
      ensures hubs == old(hubs)[room := hub]
      ensures room in old(hubs) ==> hub == old(hubs)[room]
      ensures room !in old(hubs) ==> fresh(hub) && hub.Valid() && hub.clients == map[]
    {
      if room in hubs {
        hub := hubs[room];
        assert hubs == hubs[room := hub];
      } else {
        hub := new RoomHub();
        hubs := hubs[room := hub];
      }
    }

    /** A room without a hub has no sockets, so there is nothing to disconnect. */
    method DisconnectSession(room: RoomId, session: SessionId)
      requires room in hubs ==> hubs[room].Valid()
      modifies Touched(room)
      ensures room in hubs ==>
                && hubs[room].Valid()
                && (forall c :: c in hubs[room].clients ==> c.session != session)
                && (forall c :: c in old(hubs[room].clients) && c.session != session ==>
                      c in hubs[room].clients && hubs[room].clients[c] == old(hubs[room].clients[c]))
                && (forall c :: c in old(hubs[room].clients) ==> (c.open <==> c.session != session))
    {
      if room in hubs {
        hubs[room].DisconnectSession(session);
      }
    }

    /** A broadcast to a room without a hub reaches nobody. */
    method Broadcast(room: RoomId, body: int)
      requires room in hubs ==> hubs[room].Valid()
      modifies Touched(room)
      ensures room in hubs ==>
                && hubs[room].Valid()
                && hubs[room].clients
                   == old(hubs[room].clients) - Overflowing(old(hubs[room].clients), old(hubs[room].FullOnes()))
                && (forall c :: c in old(hubs[room].clients) ==>
                      && (c.open <==> c in hubs[room].clients)
                      && c.send
                         == if c in hubs[room].clients && hubs[room].clients[c] then old(c.send) + [Event(body)]
                            else old(c.send))
    {
      if room in hubs {
        hubs[room].Broadcast(Event(body));
      }
    }

    /** A handshake that nothing interferes with, after its first check and upgrade:
        `confirmed` is the answer of the second check. The socket ends up active with
        nothing but the request to synchronise in its buffer, or unregistered and closed. */
    method Handshake(room: RoomId, session: SessionId, confirmed: bool) returns (client: Client, live: bool)
      requires room in hubs ==> hubs[room].Valid()
      modifies this, Touched(room)
      ensures room in hubs && hubs[room].Valid() && fresh(client) && client.Valid()
      ensures live <==> confirmed
      ensures live ==> client in hubs[room].clients && hubs[room].clients[client] && client.send == [SyncRequired]
      ensures !live ==> client !in hubs[room].clients && !client.open && client.send == []
      ensures room in old(hubs) ==>
                hubs[room] == old(hubs)[room] && hubs[room].clients - {client} == old(hubs[room].clients)
    {
      client := new Client(room, session, SEND_BUFFER);
      var hub := HubOf(room);
      hub.RegisterPending(client);
      if confirmed {
        live := hub.Activate(client);
      } else {
        hub.Unregister(client);
        live := false;
      }
    }
  }
}
