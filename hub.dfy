/** The websocket hub: the set of connected clients, each with a bounded send
    buffer, and the three events its run loop handles one at a time:
    register, unregister and broadcast. A client whose buffer is full when a
    message is broadcast is dropped instead of making the publisher wait. */
module Hub {
  import opened Wrappers

  /** A connected client (the `*Client` reference the hub keys its map by). */
  type ClientId = nat

  /** A broadcast message: the `type` tag and the JSON text of the payload. */
  datatype Envelope = Envelope(kind: string, payload: string)

  /** A payload to broadcast: its JSON text, or a value `json.Marshal` rejects. */
  datatype Payload = Encoded(json: string) | Unencodable

  /** The capacity of each client's send buffer. */
  const SendBufferSize: nat := 256

  /** Registered clients, the messages queued in every buffer ever opened, and the closed buffers. */
  datatype HubState = HubState(clients: set<ClientId>, buffers: map<ClientId, seq<Envelope>>, closed: set<ClientId>)

  /** Every registered client has an open buffer, and no buffer holds more than `SendBufferSize` messages. */
  predicate Valid(s: HubState) {
    s.clients <= s.buffers.Keys && s.closed <= s.buffers.Keys && s.clients !! s.closed
    && forall c | c in s.buffers :: |s.buffers[c]| <= SendBufferSize
  }

  /** The register branch: `clients[client] = true`; a new client's buffer starts empty. */
  function Registered(s: HubState, c: ClientId): (r: HubState)
    ensures r.clients == s.clients + {c}
    ensures c !in s.buffers ==> r.buffers == s.buffers[c := []]
    ensures c in s.buffers ==> r.buffers == s.buffers
    ensures r.closed == s.closed
  {
    HubState(s.clients + {c}, if c in s.buffers then s.buffers else s.buffers[c := []], s.closed)
  }

  /** The unregister branch: a registered client is removed and its buffer closed;
      an unknown client changes nothing. */
  function Unregistered(s: HubState, c: ClientId): (r: HubState)
    ensures c in s.clients ==> r == HubState(s.clients - {c}, s.buffers, s.closed + {c})
    ensures c !in s.clients ==> r == s
  {
    if c in s.clients then HubState(s.clients - {c}, s.buffers, s.closed + {c}) else s
  }

  /** A registered client with room in its buffer. */
  predicate HasRoom(s: HubState, c: ClientId)
    requires Valid(s)
  {
    c in s.clients && |s.buffers[c]| < SendBufferSize
  }

  /** The broadcast branch: the message is queued for every client with room;
      every client with a full buffer is closed and removed. */
  function Fanout(s: HubState, m: Envelope): (r: HubState)
    requires Valid(s)
    ensures r.clients == set c | c in s.clients && HasRoom(s, c)
    ensures r.closed == s.closed + (set c | c in s.clients && !HasRoom(s, c))
    ensures r.buffers.Keys == s.buffers.Keys
    ensures forall c | c in s.buffers ::
      r.buffers[c] == (if c in s.clients && HasRoom(s, c) then s.buffers[c] + [m] else s.buffers[c])
  {
    HubState(
      set c | c in s.clients && HasRoom(s, c),
      map c | c in s.buffers :: if c in s.clients && HasRoom(s, c) then s.buffers[c] + [m] else s.buffers[c],
      s.closed + (set c | c in s.clients && !HasRoom(s, c)))
  }

  // ---------------------------------------------------------------------------
  // Properties of the three branches.

  lemma RegisterKeepsValid(s: HubState, c: ClientId)
    requires Valid(s) && c !in s.closed
    ensures Valid(Registered(s, c))
  {
  }

  /** Registering a client twice leaves a single entry, as registering it once. */
  lemma RegisterIdempotent(s: HubState, c: ClientId)
    ensures Registered(Registered(s, c), c) == Registered(s, c)
  {
  }

  lemma UnregisterKeepsValid(s: HubState, c: ClientId)
    requires Valid(s)
    ensures Valid(Unregistered(s, c))
    ensures c !in Unregistered(s, c).clients
  {
  }

  /** A broadcast keeps every remaining buffer within its capacity and adds no client. */
  lemma FanoutKeepsValid(s: HubState, m: Envelope)
    requires Valid(s)
    ensures Valid(Fanout(s, m))
    ensures Fanout(s, m).clients <= s.clients
  {
  }

  /** A client that stays registered through two broadcasts receives both, in publish order. */
  lemma PublishOrder(s: HubState, m1: Envelope, m2: Envelope, c: ClientId)
    requires Valid(s) && c in Fanout(Fanout(s, m1), m2).clients
    ensures Valid(Fanout(s, m1))
    ensures Fanout(Fanout(s, m1), m2).buffers[c] == s.buffers[c] + [m1, m2]
  {
    FanoutKeepsValid(s, m1);
    var s1 := Fanout(s, m1);
    assert c in s1.clients;
  }

  /** A client registered after a broadcast never receives that message: its
      buffer holds only what is published after it joined. */
  lemma LateClientMissesEarlier(s: HubState, m1: Envelope, m2: Envelope, c: ClientId)
    requires Valid(s) && c !in s.buffers
    ensures Valid(Fanout(s, m1)) && c !in Fanout(s, m1).buffers
    ensures Valid(Registered(Fanout(s, m1), c))
    ensures Fanout(Registered(Fanout(s, m1), c), m2).buffers[c] == [m2]
  {
    FanoutKeepsValid(s, m1);
    RegisterKeepsValid(Fanout(s, m1), c);
  }

  /** A full buffer gets the client dropped and closed. */
  lemma FullClientDropped(s: HubState, m: Envelope, c: ClientId)
    requires Valid(s) && c in s.clients && |s.buffers[c]| == SendBufferSize
    ensures c !in Fanout(s, m).clients && c in Fanout(s, m).closed
    ensures Fanout(s, m).buffers[c] == s.buffers[c]
  {
  }

  // ---------------------------------------------------------------------------
  // Broadcast and its typed helpers.

  /** The envelope `Broadcast` sends, or None when the payload does not marshal. */
  function EnvelopeOf(messageType: string, payload: Payload): (e: Option<Envelope>)
    ensures payload.Unencodable? <==> e.None?
    ensures e.Some? ==> e == Some(Envelope(messageType, payload.json))
  {
    if payload.Unencodable? then None else Some(Envelope(messageType, payload.json))
  }

  /** The state after `Broadcast`: unchanged when marshalling fails. */
  function Broadcasted(s: HubState, messageType: string, payload: Payload): (r: HubState)
    requires Valid(s)
    ensures payload.Unencodable? ==> r == s
    ensures payload.Encoded? ==> r == Fanout(s, Envelope(messageType, payload.json))
  {
    match EnvelopeOf(messageType, payload)
    case None => s
    case Some(e) => Fanout(s, e)
  }

  const TicketUpdate: string := "ticket_update"
  const CounterUpdate: string := "counter_update"
  const StatsUpdate: string := "stats_update"
  const DisplayUpdate: string := "display_update"

  /** The hub with its map of clients and their send buffers. */
  class Hub {
    var clients: set<ClientId>
    var buffers: map<ClientId, seq<Envelope>>
    var closed: set<ClientId>

    function State(): (s: HubState)
      reads this
      ensures s.clients == clients && s.buffers == buffers && s.closed == closed
    {
      HubState(clients, buffers, closed)
    }

    constructor ()
      ensures State() == HubState({}, map[], {}) && Valid(State())
    {
      clients, buffers, closed := {}, map[], {};
    }

    method Register(c: ClientId)
      requires Valid(State()) && c !in buffers
      modifies this
      ensures State() == Registered(old(State()), c) && Valid(State())
    {
      clients := clients + {c};
      buffers := buffers[c := []];
    }

    method Unregister(c: ClientId)
      requires Valid(State())
      modifies this
      ensures State() == Unregistered(old(State()), c) && Valid(State())
    {
      if c in clients {
        clients := clients - {c};
        closed := closed + {c};
      }
    }

    /** The broadcast branch: one client at a time, in any order. */
    method Publish(m: Envelope)
      requires Valid(State())
      modifies this
      ensures State() == Fanout(old(State()), m) && Valid(State())
    {
      ghost var s0 := State();
      var pending := clients;
      while pending != {}
        invariant pending <= s0.clients
        invariant clients <= s0.clients
        invariant forall c | c in s0.clients :: c in clients <==> c in pending || HasRoom(s0, c)
        invariant closed == s0.closed + (s0.clients - clients)
        invariant buffers.Keys == s0.buffers.Keys
        invariant forall c | c in s0.buffers ::
          buffers[c] == (if c in s0.clients && c !in pending && HasRoom(s0, c) then s0.buffers[c] + [m] else s0.buffers[c])
        decreases pending
      {
        var c :| c in pending;
        if |buffers[c]| < SendBufferSize {
          buffers := buffers[c := buffers[c] + [m]];
        } else {
          closed := closed + {c};
          clients := clients - {c};
        }
        pending := pending - {c};
      }
      assert clients == Fanout(s0, m).clients;
      assert closed == Fanout(s0, m).closed;
      assert buffers == Fanout(s0, m).buffers;
      FanoutKeepsValid(s0, m);
    }

    method Broadcast(messageType: string, payload: Payload)
      requires Valid(State())
      modifies this
      ensures State() == Broadcasted(old(State()), messageType, payload) && Valid(State())
    {
      var e := EnvelopeOf(messageType, payload);
      if e.None? {
        return;
      }
      Publish(e.value);
    }

    method BroadcastTicketUpdate(payload: Payload)
      requires Valid(State())
      modifies this
      ensures State() == Broadcasted(old(State()), TicketUpdate, payload) && Valid(State())
    {
      Broadcast(TicketUpdate, payload);
    }

    method BroadcastCounterUpdate(payload: Payload)
      requires Valid(State())
      modifies this
      ensures State() == Broadcasted(old(State()), CounterUpdate, payload) && Valid(State())
    {
      Broadcast(CounterUpdate, payload);
    }

    method BroadcastStatsUpdate(payload: Payload)
      requires Valid(State())
      modifies this
      ensures State() == Broadcasted(old(State()), StatsUpdate, payload) && Valid(State())
    {
      Broadcast(StatsUpdate, payload);
    }

    method BroadcastDisplayUpdate(payload: Payload)
      requires Valid(State())
      modifies this
      ensures State() == Broadcasted(old(State()), DisplayUpdate, payload) && Valid(State())
    {
      Broadcast(DisplayUpdate, payload);
    }
  }
}
