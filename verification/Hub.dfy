/** The hub: one goroutine that owns the set of connected clients, their index by
    environment and namespace, and the sending side of their channels. */
module Hub {
  import opened Model

  /** A full channel refuses the message. */
  predicate HasRoom(queue: seq<Message>, capacity: nat) {
    |queue| < capacity
  }

  function Push(queue: seq<Message>, capacity: nat, m: Message): seq<Message> {
    if HasRoom(queue, capacity) then queue + [m] else queue
  }

  class Client {
    const scope: Scope
    const capacity: nat
    var queue: seq<Message>  // the buffered channel
    var closed: bool

    constructor (scope: Scope, capacity: nat)
      ensures this.scope == scope && this.capacity == capacity && queue == [] && !closed
    {
      this.scope := scope;
      this.capacity := capacity;
      queue := [];
      closed := false;
    }

    /** Sending on a closed channel panics. */
    method TrySend(m: Message) returns (sent: bool)
      requires !closed
      modifies this
      ensures sent <==> HasRoom(old(queue), capacity)
      ensures queue == Push(old(queue), capacity, m) && !closed
    {
      sent := |queue| < capacity;
      if sent {
        queue := queue + [m];
      }
    }

    /** Closing a channel twice panics. */
    method Close()
      requires !closed
      modifies this
      ensures closed && queue == old(queue)
    {
      closed := true;
    }

    /** What a receiver gets: the next buffered message, or nothing. */
    method Receive() returns (m: Option<Message>)
      modifies this
      ensures closed == old(closed)
      ensures old(queue) == [] ==> m == None && queue == []
      ensures old(queue) != [] ==> m == Some(old(queue)[0]) && queue == old(queue)[1..]
    {
      if queue == [] {
        return None;
      }
      m := Some(queue[0]);
      queue := queue[1..];
    }
  }

  type Shards = map<string, map<string, set<Client>>>

  function Cell(shards: Shards, env: string, namespace: string): set<Client> {
    if env in shards && namespace in shards[env] then shards[env][namespace] else {}
  }

  predicate NoEmptyCell(shards: Shards) {
    && (forall env | env in shards :: shards[env] != map[])
    && (forall env | env in shards :: NoEmptyRow(shards[env]))
  }

  predicate NoEmptyRow(row: map<string, set<Client>>) {
    forall namespace | namespace in row :: row[namespace] != {}
  }

  predicate Wildcard(c: Client) {
    "*" in c.scope.namespaces
  }

  predicate FiledUnder(c: Client, env: string, namespace: string) {
    !Wildcard(c) && c.scope.env == env && namespace in c.scope.namespaces
  }

  function Wildcards(clients: set<Client>): set<Client> {
    set c | c in clients && Wildcard(c)
  }

  function Filed(clients: set<Client>, env: string, namespace: string): set<Client> {
    set c | c in clients && FiledUnder(c, env, namespace)
  }

  function Receivers(clients: set<Client>, m: Message): set<Client> {
    set c | c in clients && c.scope.Routes(m)
  }

  /** One turn of the hub's select loop, or a receive on a client's side of its channel. */
  datatype Event =
    | Register(client: Client)
    | Unregister(client: Client)
    | Broadcast(m: Message)
    | Heartbeat
    | Receive(client: Client)

  /** The clients the events register. */
  function Joining(events: seq<Event>): set<Client> {
    set e | e in events && e.Register? :: e.client
  }

  /** The plain hub: a set of connected clients and the contents of every channel, no index. */
  datatype World = World(clients: set<Client>, queues: map<Client, seq<Message>>)

  /** Every receiver is sent the message, and a full channel costs its client the connection. */
  function Sent(w: World, receivers: set<Client>, m: Message): World {
    World(set c | c in w.clients && (c in receivers && c in w.queues ==> HasRoom(w.queues[c], c.capacity)),
          map c | c in w.queues :: if c in receivers then Push(w.queues[c], c.capacity, m) else w.queues[c])
  }

  /** One event, by a scan over all connected clients. */
  function After(w: World, e: Event): World {
    match e
    case Register(client) => w.(clients := w.clients + {client})
    case Unregister(client) => w.(clients := w.clients - {client})
    case Broadcast(m) => Sent(w, Receivers(w.clients, m), m)
    case Heartbeat => Sent(w, w.clients, PING)
    case Receive(client) =>
      if client in w.queues && w.queues[client] != [] then
        w.(queues := w.queues[client := w.queues[client][1..]])
      else w
  }

  function AfterAll(w: World, events: seq<Event>): World {
    if events == [] then w else After(AfterAll(w, events[..|events| - 1]), events[|events| - 1])
  }

  /** The hub sends to `client` at this event, while it is connected. */
  predicate Addressed(client: Client, e: Event) {
    e.Heartbeat? || (e.Broadcast? && client.scope.Routes(e.m))
  }

  function Sends(events: seq<Event>, client: Client): nat {
    if events == [] then 0
    else Sends(events[..|events| - 1], client) + if Addressed(client, events[|events| - 1]) then 1 else 0
  }

  /** A connected client whose stream has ended, and which is never unregistered, leaves the hub
      with exactly the send that follows its channel's last free slot. This is what becomes of a
      client whose Unregister was handled before its Register. */
  lemma {:induction false} UndrainedClientLeaves(w: World, events: seq<Event>, client: Client)
    requires client in w.clients && client in w.queues && |w.queues[client]| <= client.capacity
    requires forall e | e in events && (e.Register? || e.Unregister? || e.Receive?) :: e.client != client
    ensures client in AfterAll(w, events).queues
    ensures client in AfterAll(w, events).clients <==> |w.queues[client]| + Sends(events, client) <= client.capacity
    ensures client in AfterAll(w, events).clients ==>
              |AfterAll(w, events).queues[client]| == |w.queues[client]| + Sends(events, client)
  {
    if events != [] {
      var rest, e := events[..|events| - 1], events[|events| - 1];
      assert e in events && forall x | x in rest :: x in events;
      UndrainedClientLeaves(w, rest, client);
    }
  }

  /** A channel is made for one registration: no event registers a client twice. */
  ghost predicate DistinctRegistrations(events: seq<Event>) {
    forall i, j | 0 <= i < j < |events| && events[i].Register? && events[j].Register? ::
      events[i].client != events[j].client
  }

  ghost predicate Registrable(c: Client)
    reads c
  {
    !c.closed && |c.queue| <= c.capacity && c.scope.namespaces != {}
  }

  /** `client` has been added to its own cells and to no others. */
  ghost predicate CellsGain(before: Shards, after: Shards, client: Client) {
    forall env, namespace ::
      Cell(after, env, namespace)
      == Cell(before, env, namespace) + (if FiledUnder(client, env, namespace) then {client} else {})
  }

  ghost predicate CellsLose(before: Shards, after: Shards, client: Client) {
    forall env, namespace ::
      Cell(after, env, namespace)
      == Cell(before, env, namespace) - (if FiledUnder(client, env, namespace) then {client} else {})
  }

  /** The client has been put into these cells of the row, which are made where they are missing. */
  ghost predicate RowGained(row0: map<string, set<Client>>, row: map<string, set<Client>>, client: Client,
        namespaces: set<string>)
  {
    && row.Keys == row0.Keys + namespaces
    && forall n | n in row :: row[n] == (if n in row0 then row0[n] else {}) + (if n in namespaces then {client} else {})
  }

  lemma {:induction false} CellGained(row0: map<string, set<Client>>, row: map<string, set<Client>>, client: Client,
        namespaces: set<string>, namespace: string)
    requires RowGained(row0, row, client, namespaces) && namespace !in namespaces
    ensures RowGained(row0, row[namespace := (if namespace in row then row[namespace] else {}) + {client}], client,
                      namespaces + {namespace})
  {
  }

  lemma {:induction false} RowNotEmpty(row0: map<string, set<Client>>, row: map<string, set<Client>>, client: Client)
    requires NoEmptyRow(row0) && client.scope.namespaces != {} && RowGained(row0, row, client, client.scope.namespaces)
    ensures row != map[] && NoEmptyRow(row)
  {
    var namespace :| namespace in client.scope.namespaces;
    assert namespace in row;
  }

  lemma {:induction false} RowGain(before: Shards, row: map<string, set<Client>>, client: Client)
    requires !Wildcard(client)
    requires var row0 := if client.scope.env in before then before[client.scope.env] else map[];
             RowGained(row0, row, client, client.scope.namespaces)
    ensures CellsGain(before, before[client.scope.env := row], client)
  {
    var after := before[client.scope.env := row];
    forall env, namespace
      ensures Cell(after, env, namespace)
           == Cell(before, env, namespace) + (if FiledUnder(client, env, namespace) then {client} else {})
    {
      if env == client.scope.env {
        if namespace in row {
          assert Cell(after, env, namespace) == row[namespace];
        }
      } else {
        assert Cell(after, env, namespace) == Cell(before, env, namespace);
      }
    }
  }

  lemma {:induction false} FiledGain(clients: set<Client>, client: Client)
    ensures Wildcards(clients + {client}) == Wildcards(clients) + (if Wildcard(client) then {client} else {})
    ensures forall env, namespace ::
              Filed(clients + {client}, env, namespace)
              == Filed(clients, env, namespace) + (if FiledUnder(client, env, namespace) then {client} else {})
  {
  }

  class Hub {
    var clients: set<Client>
    var shards: Shards
    var wildcards: set<Client>
    var online: int

    /** The index holds exactly the connected clients, each in its own cells. */
    ghost predicate Indexed()
      reads this
    {
      && wildcards == Wildcards(clients)
      && (forall env, namespace :: Cell(shards, env, namespace) == Filed(clients, env, namespace))
      && NoEmptyCell(shards)
    }

    ghost predicate Valid()
      reads this, clients
    {
      && Indexed()
      && online == |clients|
      && (forall c | c in clients :: !c.closed && |c.queue| <= c.capacity)
      && (forall c | c in clients :: c.scope.namespaces != {})
    }

    /** What the plain hub knows about the channels in `world`. */
    ghost function State(world: set<Client>): World
      reads this, world
    {
      World(clients, map c | c in world :: c.queue)
    }

    constructor ()
      ensures Valid() && clients == {}
    {
      clients := {};
      shards := map[];
      wildcards := {};
      online := 0;
    }

    method AddToShards(client: Client)
      requires client.scope.namespaces != {} && NoEmptyCell(shards)
      modifies `shards, `wildcards
      ensures wildcards == old(wildcards) + (if Wildcard(client) then {client} else {})
      ensures CellsGain(old(shards), shards, client)
      ensures NoEmptyCell(shards)
    {
      if "*" in client.scope.namespaces {
        wildcards := wildcards + {client};
        return;
      }
      var env := client.scope.env;
      var row := FillRow(if env in shards then shards[env] else map[], client);
      RowNotEmpty(if env in shards then shards[env] else map[], row, client);
      RowGain(shards, row, client);
      shards := shards[env := row];
    }

    method FillRow(row0: map<string, set<Client>>, client: Client) returns (row: map<string, set<Client>>)
      ensures RowGained(row0, row, client, client.scope.namespaces)
    {
      row := row0;
      var todo := client.scope.namespaces;
      while todo != {}
        invariant todo <= client.scope.namespaces
        invariant RowGained(row0, row, client, client.scope.namespaces - todo)
      {
        var namespace :| namespace in todo;
        var cell := if namespace in row then row[namespace] else {};
        CellGained(row0, row, client, client.scope.namespaces - todo, namespace);
        row := row[namespace := cell + {client}];
        ghost var filled := client.scope.namespaces - todo;
        todo := todo - {namespace};
        assert client.scope.namespaces - todo == filled + {namespace};
      }
    }

    method RemoveFromShards(client: Client)
      requires NoEmptyCell(shards) && (client in wildcards <==> Wildcard(client))
      modifies `shards, `wildcards
      ensures wildcards == old(wildcards) - {client}
      ensures CellsLose(old(shards), shards, client)
      ensures NoEmptyCell(shards)
    {
      if client in wildcards {
        wildcards := wildcards - {client};
        return;
      }
      var env := client.scope.env;
      if env !in shards {
        return;
      }
      var row := ClearRow(shards[env], client);
      shards := if row == map[] then shards - {env} else shards[env := row];
    }

    method ClearRow(row0: map<string, set<Client>>, client: Client) returns (row: map<string, set<Client>>)
      requires NoEmptyRow(row0)
      ensures forall n | n in row ::
        n in row0 && row[n] == row0[n] - (if n in client.scope.namespaces then {client} else {})
      ensures forall n | n in row0 && n !in row :: n in client.scope.namespaces && row0[n] == {client}
      ensures NoEmptyRow(row)
    {
      row := row0;
      var todo := client.scope.namespaces;
      while todo != {}
        invariant todo <= client.scope.namespaces
        invariant forall n | n in row ::
          n in row0 && row[n] == row0[n] - (if n in client.scope.namespaces - todo then {client} else {})
        invariant forall n | n in row0 && n !in row :: n in client.scope.namespaces - todo && row0[n] == {client}
        invariant NoEmptyRow(row)
      {
        var namespace :| namespace in todo;
        todo := todo - {namespace};
        if namespace in row {
          var cell := row[namespace] - {client};
          row := if cell == {} then row - {namespace} else row[namespace := cell];
        }
      }
    }

    method HandleRegister(client: Client)
      requires Valid()
      requires client !in clients && !client.closed && |client.queue| <= client.capacity
      requires client.scope.namespaces != {}
      modifies this
      ensures Valid()
      ensures clients == old(clients) + {client}
    {
      FiledGain(clients, client);
      clients := clients + {client};
      AddToShards(client);
      online := online + 1;
    }

    method RemoveClient(client: Client)
      requires Valid()
      modifies this, clients * {client}
      ensures Valid()
      ensures clients == old(clients) - {client}
      ensures client in old(clients) ==> client.closed && client.queue == old(client.queue)
    {
      if client !in clients {
        return;
      }
      clients := clients - {client};
      RemoveFromShards(client);
      client.Close();
      online := online - 1;
    }

    method HandleUnregister(client: Client)
      requires Valid()
      modifies this, clients * {client}
      ensures Valid()
      ensures clients == old(clients) - {client}
      ensures client in old(clients) ==> client.closed && client.queue == old(client.queue)
    {
      if client in clients {
        RemoveClient(client);
      }
    }

    method SendMessage(client: Client, m: Message)
      requires Valid() && client in clients
      modifies this, client
      ensures Valid()
      ensures client.queue == Push(old(client.queue), client.capacity, m)
      ensures clients == if HasRoom(old(client.queue), client.capacity) then old(clients) else old(clients) - {client}
      ensures client.closed <==> client !in clients
    {
      var sent := client.TrySend(m);
      if !sent {
        RemoveClient(client);
      }
    }

    /** Exactly the clients in `served` have been sent the message, given the queues `before`. */
    ghost predicate Served(before: map<Client, seq<Message>>, served: set<Client>, m: Message)
      reads this, before.Keys
    {
      && clients == (set c | c in before && (c in served ==> HasRoom(before[c], c.capacity)))
      && (forall c | c in before :: c.queue == if c in served then Push(before[c], c.capacity, m) else before[c])
      && (forall c | c in before :: c.closed <==> c !in clients)
    }

    /** A broadcast is one attempt at every client whose scope routes the message and at no other,
        although clients are removed from the maps it iterates over. */
    method HandleBroadcast(m: Message)
      requires Valid()
      modifies this, clients
      ensures Valid()
      ensures Served(old(map c | c in clients :: c.queue), Receivers(old(clients), m), m)
      ensures forall c | c in old(clients) ::
                var routed := "*" in c.scope.namespaces || (c.scope.env == m.env && m.namespace in c.scope.namespaces);
                && c.queue == (if routed && |old(c.queue)| < c.capacity then old(c.queue) + [m] else old(c.queue))
                && (c in clients <==> !routed || |old(c.queue)| < c.capacity)
    {
      ghost var before := map c | c in clients :: c.queue;
      SendToWildcards(before, m);
      SendToCell(before, m);
    }

    method HandleHeartbeat()
      requires Valid()
      modifies this, clients
      ensures Valid()
      ensures Served(old(map c | c in clients :: c.queue), old(clients), PING)
      ensures forall c | c in old(clients) ::
                if |old(c.queue)| < c.capacity then
                  c in clients && |c.queue| == |old(c.queue)| + 1 && c.queue[..|old(c.queue)|] == old(c.queue)
                  && c.queue[|old(c.queue)|].IsPing()
                else c !in clients && c.queue == old(c.queue)
    {
      ghost var before := map c | c in clients :: c.queue;
      SendToEveryone(before, PING);
    }

    method SendToWildcards(ghost before: map<Client, seq<Message>>, m: Message)
      requires Valid() && Served(before, {}, m)
      modifies this, clients
      ensures Valid() && clients <= old(clients)
      ensures Served(before, Wildcards(before.Keys), m)
    {
      var visited: set<Client> := {};
      while wildcards - visited != {}
        invariant Valid() && clients <= old(clients)
        invariant visited <= Wildcards(before.Keys)
        invariant Served(before, visited, m)
        decreases before.Keys - visited
      {
        var client :| client in wildcards - visited;
        Attempt(before, visited, client, m);
        visited := visited + {client};
      }
      AllVisited(before, visited, Wildcards(before.Keys), m);
    }

    method SendToCell(ghost before: map<Client, seq<Message>>, m: Message)
      requires Valid() && Served(before, Wildcards(before.Keys), m)
      modifies this, clients
      ensures Valid() && clients <= old(clients)
      ensures Served(before, Receivers(before.Keys, m), m)
    {
      var visited: set<Client> := {};
      ghost var served := Wildcards(before.Keys);
      assert served <= Receivers(before.Keys, m);
      while Cell(shards, m.env, m.namespace) - visited != {}
        invariant Valid() && clients <= old(clients)
        invariant served == Wildcards(before.Keys) + visited
        invariant served <= Receivers(before.Keys, m)
        invariant Served(before, served, m)
        decreases before.Keys - visited
      {
        var client := AttemptInCell(before, served, visited, m);
        visited := visited + {client};
        served := served + {client};
      }
      CellExhausted(before, served, m);
    }

    /** The next client of the message's cell, as the range statement yields it, and one send to it. */
    method AttemptInCell(ghost before: map<Client, seq<Message>>, ghost served: set<Client>, visited: set<Client>,
          m: Message)
      returns (client: Client)
      requires Valid() && Served(before, served, m)
      requires served == Wildcards(before.Keys) + visited
      requires Cell(shards, m.env, m.namespace) - visited != {}
      modifies this, clients
      ensures Valid() && clients <= old(clients)
      ensures client in before && client !in visited && client in Receivers(before.Keys, m)
      ensures Served(before, served + {client}, m)
    {
      client :| client in Cell(shards, m.env, m.namespace) - visited;
      CellMember(before, served, client, m);
      Attempt(before, served, client, m);
    }

    lemma {:induction false} CellMember(before: map<Client, seq<Message>>, served: set<Client>, client: Client,
          m: Message)
      requires Indexed() && Served(before, served, m)
      requires client in Cell(shards, m.env, m.namespace)
      ensures client in clients && client in Receivers(before.Keys, m) && !Wildcard(client)
    {
      assert client in Filed(clients, m.env, m.namespace);
    }

    /** Every connected receiver is a wildcard or in the message's cell. */
    lemma {:induction false} CellExhausted(before: map<Client, seq<Message>>, visited: set<Client>, m: Message)
      requires Indexed() && Served(before, visited, m)
      requires Wildcards(before.Keys) <= visited <= Receivers(before.Keys, m)
      requires Cell(shards, m.env, m.namespace) <= visited
      ensures Served(before, Receivers(before.Keys, m), m)
    {
      forall c | c in clients && c in Receivers(before.Keys, m)
        ensures c in visited
      {
        if !Wildcard(c) {
          assert c in Filed(clients, m.env, m.namespace);
        }
      }
      AllVisited(before, visited, Receivers(before.Keys, m), m);
    }

    method SendToEveryone(ghost before: map<Client, seq<Message>>, m: Message)
      requires Valid() && Served(before, {}, m)
      modifies this, clients
      ensures Valid() && clients <= old(clients)
      ensures Served(before, before.Keys, m)
    {
      var visited: set<Client> := {};
      while clients - visited != {}
        invariant Valid() && clients <= old(clients)
        invariant visited <= before.Keys
        invariant Served(before, visited, m)
        decreases before.Keys - visited
      {
        var client :| client in clients - visited;
        Attempt(before, visited, client, m);
        visited := visited + {client};
      }
      AllVisited(before, visited, before.Keys, m);
    }

    /** One send to a client not served before. */
    method Attempt(ghost before: map<Client, seq<Message>>, ghost served: set<Client>, client: Client, m: Message)
      requires Valid() && Served(before, served, m)
      requires client in clients && client !in served
      modifies this, client
      ensures Valid() && clients <= old(clients)
      ensures Served(before, served + {client}, m)
    {
      SendMessage(client, m);
    }

    /** A target left out of `visited` would still be connected. */
    lemma {:induction false} AllVisited(before: map<Client, seq<Message>>, visited: set<Client>, targets: set<Client>,
          m: Message)
      requires Served(before, visited, m)
      requires visited <= targets <= before.Keys
      requires forall c | c in clients && c in targets :: c in visited
      ensures Served(before, targets, m)
    {
      assert visited == targets;
    }

    /** Any run of the hub does what the plain hub does: the same clients stay connected and the
        same messages lie in every channel. The index and the online count stay in order, and no
        closed channel is sent to or closed again. */
    method Run(events: seq<Event>, ghost world: set<Client>)
      requires Valid() && DistinctRegistrations(events)
      requires world == clients + Joining(events)
      requires forall c | c in Joining(events) :: c !in clients && Registrable(c)
      requires forall e | e in events && e.Receive? :: e.client in world
      modifies this, world
      ensures Valid()
      ensures State(world) == AfterAll(old(State(world)), events)
    {
      ghost var pending := Joining(events);
      for i := 0 to |events|
        invariant Valid() && clients <= world && pending <= world
        invariant pending == Joining(events[i..])
        invariant forall c | c in pending :: c !in clients && Registrable(c)
        invariant State(world) == AfterAll(old(State(world)), events[..i])
      {
        LeavesTheRest(events, i);
        assert events[..i + 1][..i] == events[..i];
        Turn(events[i], pending, world);
        pending := Joining(events[i + 1..]);
      }
      assert events[..|events|] == events;
    }

    /** `pending` are the channels made but not registered yet. */
    method Turn(e: Event, ghost pending: set<Client>, ghost world: set<Client>)
      requires Valid() && clients <= world && pending <= world
      requires forall c | c in pending :: c !in clients && Registrable(c)
      requires e.Register? ==> e.client in pending
      requires e.Receive? ==> e.client in world
      modifies this, clients, if e.Receive? then {e.client} else {}
      ensures Valid()
      ensures clients <= old(clients) + (if e.Register? then {e.client} else {})
      ensures forall c | c in pending && !(e.Register? && c == e.client) :: c !in clients && Registrable(c)
      ensures State(world) == After(old(State(world)), e)
    {
      hide Valid, State, After;
      match e {
        case Register(client) => RegisterTurn(client, world);
        case Unregister(client) => UnregisterTurn(client, world);
        case Broadcast(m) => BroadcastTurn(m, world);
        case Heartbeat => HeartbeatTurn(world);
        case Receive(client) => ReceiveTurn(client, world);
      }
    }

    method RegisterTurn(client: Client, ghost world: set<Client>)
      requires Valid() && client in world && client !in clients && Registrable(client)
      modifies this
      ensures Valid() && clients == old(clients) + {client}
      ensures State(world) == After(old(State(world)), Register(client))
    {
      HandleRegister(client);
    }

    method UnregisterTurn(client: Client, ghost world: set<Client>)
      requires Valid() && clients <= world
      modifies this, clients * {client}
      ensures Valid() && clients <= old(clients)
      ensures State(world) == After(old(State(world)), Unregister(client))
    {
      hide Valid;
      HandleUnregister(client);
      assert forall c | c in world :: c.queue == old(c.queue);
    }

    method BroadcastTurn(m: Message, ghost world: set<Client>)
      requires Valid() && clients <= world
      modifies this, clients
      ensures Valid() && clients <= old(clients)
      ensures State(world) == After(old(State(world)), Broadcast(m))
    {
      hide Valid;
      ghost var w := State(world);
      assert (map c | c in w.clients :: w.queues[c]) == map c | c in clients :: c.queue;
      HandleBroadcast(m);
      ServedIsSent(w, world, Receivers(w.clients, m), m);
    }

    method HeartbeatTurn(ghost world: set<Client>)
      requires Valid() && clients <= world
      modifies this, clients
      ensures Valid() && clients <= old(clients)
      ensures State(world) == After(old(State(world)), Heartbeat)
    {
      hide Valid;
      ghost var w := State(world);
      assert (map c | c in w.clients :: w.queues[c]) == map c | c in clients :: c.queue;
      HandleHeartbeat();
      ServedIsSent(w, world, w.clients, PING);
    }

    /** Not the hub's doing: the stream of `client` takes a message from its channel. */
    method ReceiveTurn(client: Client, ghost world: set<Client>)
      requires Valid() && client in world
      modifies client
      ensures Valid() && clients == old(clients)
      ensures client.closed == old(client.closed) && |client.queue| <= old(|client.queue|)
      ensures State(world) == After(old(State(world)), Receive(client))
    {
      var _ := client.Receive();
    }

    /** The clients served through the index are those a scan would have sent to. */
    lemma {:induction false} ServedIsSent(w: World, world: set<Client>, receivers: set<Client>, m: Message)
      requires w.clients <= world == w.queues.Keys && receivers <= w.clients
      requires Served(map c | c in w.clients :: w.queues[c], receivers, m)
      requires forall c | c in world - w.clients :: c.queue == w.queues[c]
      ensures State(world) == Sent(w, receivers, m)
    {
      var before := map c | c in w.clients :: w.queues[c];
      assert before.Keys == w.clients;
      forall c | c in world
        ensures c.queue == Sent(w, receivers, m).queues[c]
      {
      }
    }

    /** The event at `i` registers a client that no later event registers. */
    lemma {:induction false} LeavesTheRest(events: seq<Event>, i: nat)
      requires i < |events| && DistinctRegistrations(events)
      ensures Joining(events[i + 1..]) <= Joining(events[i..])
      ensures events[i].Register? ==>
                events[i].client in Joining(events[i..]) && events[i].client !in Joining(events[i + 1..])
    {
      forall c | c in Joining(events[i + 1..])
        ensures c in Joining(events[i..])
        ensures events[i].Register? ==> c != events[i].client
      {
        var j :| i + 1 <= j < |events| && events[j].Register? && events[j].client == c;
        assert events[i..][j - i] == events[j];
      }
      if events[i].Register? {
        assert events[i..][0] == events[i];
      }
    }
  }
}
