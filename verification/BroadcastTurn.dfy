/** One broadcast of the hub while the streams go on: whatever they do between its sends, it has the
    effect of a broadcast made at once, before which and after which the streams took their messages. */
module BroadcastTurn {
  import opened Model
  import opened WatchPipeline
  import Hub

  /** What goes on while the hub is busy sending: its own sends, and everything the hub has no part in. */
  predicate DuringBroadcast(s: Step) {
    !s.TakeBroadcast? && !s.Ping? && !s.HubRegister? && !s.HubUnregister?
  }

  /** The clients whose streams take a message before the hub gets to them, in order. */
  function Early(steps: seq<Step>): seq<nat> {
    if steps == [] then []
    else
      var rest := Early(steps[1..]);
      if steps[0].Receive? && SendTo(steps[0].id) in steps[1..] then [steps[0].id] + rest else rest
  }

  /** Those whose streams take one after that, or that are not sent to. */
  function Late(steps: seq<Step>): seq<nat> {
    if steps == [] then []
    else
      var rest := Late(steps[1..]);
      if steps[0].Receive? && SendTo(steps[0].id) !in steps[1..] then [steps[0].id] + rest else rest
  }

  function Count(ids: seq<nat>, id: nat): nat {
    if ids == [] then 0 else (if ids[0] == id then 1 else 0) + Count(ids[1..], id)
  }

  lemma {:induction false} CountFirst(first: nat, rest: seq<nat>, id: nat)
    ensures Count([first] + rest, id) == (if first == id then 1 else 0) + Count(rest, id)
  {
    assert ([first] + rest)[1..] == rest;
  }

  /** A channel from which `n` messages have been taken. */
  function Drained(queue: seq<Message>, n: nat): seq<Message> {
    if n == 0 || queue == [] then queue else Drained(queue[1..], n - 1)
  }

  lemma {:induction false} DrainedOnce(queue: seq<Message>, n: nat)
    ensures Drained(queue, n + 1) == var rest := Drained(queue, n); if rest == [] then [] else rest[1..]
  {
    if n > 0 && queue != [] {
      DrainedOnce(queue[1..], n - 1);
    }
  }

  lemma {:induction false} DrainedFirst(queue: seq<Message>, n: nat)
    ensures Drained(queue, 0) == queue && Drained(queue, n + 1) == Drained(Drained(queue, 1), n)
  {
    assert queue != [] ==> Drained(queue, 1) == Drained(queue[1..], 0) == queue[1..];
  }

  // ----- one client -----

  /** What the hub and the stream share of a client. */
  datatype View = View(queue: seq<Message>, link: Link)
  {
    function Sent(scope: Scope, capacity: nat, m: Message): View {
      if !scope.Routes(m) then this
      else if Hub.HasRoom(queue, capacity) then this.(queue := Hub.Push(queue, capacity, m))
      else this.(link := Out)
    }

    function Taken(n: nat): View {
      this.(queue := Drained(queue, n))
    }
  }

  function ViewOf(c: Conn): View {
    View(c.queue, c.link)
  }

  lemma {:induction false} OneStep(p: Pipeline, s: Step, id: nat)
    requires Sane(p) && Enabled(p, s) && DuringBroadcast(s) && id in p.conns && 0 < p.taken <= |p.log|
    ensures var q, m := Next(p, s), p.log[p.taken - 1];
            && q.taken == p.taken <= |q.log| && q.log[q.taken - 1] == m
            && q.busy == (if s.SendTo? then p.busy - {s.id} else p.busy)
            && id in q.conns && q.conns[id].scope == p.conns[id].scope && q.conns[id].capacity == p.conns[id].capacity
            && ViewOf(q.conns[id])
               == (if s == SendTo(id) then ViewOf(p.conns[id]).Sent(p.conns[id].scope, p.conns[id].capacity, m)
                   else if s == Receive(id) then ViewOf(p.conns[id]).Taken(1)
                   else ViewOf(p.conns[id]))
  {
    assert s == Receive(id) ==> Drained(p.conns[id].queue[1..], 0) == p.conns[id].queue[1..];
  }

  /** The sends of the run are to busy clients, each to another, and no others stay busy. */
  lemma {:induction false} SendsAreToBusy(p: Pipeline, steps: seq<Step>)
    requires Runs(p, steps) && forall s | s in steps :: DuringBroadcast(s)
    ensures forall id | SendTo(id) in steps :: id in p.busy
    ensures forall id | id in p.busy && id !in Exec(p, steps).busy :: SendTo(id) in steps
    decreases |steps|
  {
    if steps != [] {
      var s, rest := steps[0], steps[1..];
      assert steps == [s] + rest && s in steps && forall x | x in rest :: x in steps;
      SendsAreToBusy(Next(p, s), rest);
    }
  }

  /** A client from which some messages are taken, which is sent the one, and from which more are taken. */
  function TakenSentTaken(v: View, steps: seq<Step>, id: nat, scope: Scope, capacity: nat, m: Message): View {
    var before := v.Taken(Count(Early(steps), id));
    (if SendTo(id) in steps then before.Sent(scope, capacity, m) else before).Taken(Count(Late(steps), id))
  }

  lemma {:induction false} NothingEarly(steps: seq<Step>, id: nat)
    requires SendTo(id) !in steps
    ensures Count(Early(steps), id) == 0
    decreases |steps|
  {
    if steps != [] {
      assert steps == [steps[0]] + steps[1..];
      NothingEarly(steps[1..], id);
    }
  }

  lemma {:induction false} FirstCounts(steps: seq<Step>, id: nat)
    requires steps != []
    ensures var rest, takes, sent := steps[1..], steps[0] == Receive(id), SendTo(id) in steps[1..];
            && Count(Early(steps), id) == Count(Early(rest), id) + (if takes && sent then 1 else 0)
            && Count(Late(steps), id) == Count(Late(rest), id) + (if takes && !sent then 1 else 0)
            && (SendTo(id) in steps <==> steps[0] == SendTo(id) || sent)
  {
    assert steps == [steps[0]] + steps[1..];
    if steps[0].Receive? {
      CountFirst(steps[0].id, Early(steps[1..]), id);
      CountFirst(steps[0].id, Late(steps[1..]), id);
    }
  }

  lemma {:induction false} FirstStep(v: View, steps: seq<Step>, id: nat, scope: Scope, capacity: nat, m: Message)
    requires steps != [] && (steps[0] == SendTo(id) ==> SendTo(id) !in steps[1..])
    ensures var s := steps[0];
            var first := if s == SendTo(id) then v.Sent(scope, capacity, m) else if s == Receive(id) then v.Taken(1) else v;
            TakenSentTaken(v, steps, id, scope, capacity, m) == TakenSentTaken(first, steps[1..], id, scope, capacity, m)
  {
    hide Hub.Push, Hub.HasRoom, Early, Late, Count, Drained;
    FirstCounts(steps, id);
    if SendTo(id) !in steps[1..] {
      NothingEarly(steps[1..], id);
    }
    DrainedFirst(v.queue, Count(Early(steps[1..]), id));
    DrainedFirst(v.queue, Count(Late(steps[1..]), id));
    DrainedFirst(v.Sent(scope, capacity, m).queue, 0);
  }

  /** So it goes with each client over the run. */
  lemma {:induction false} OneClient(p: Pipeline, steps: seq<Step>, id: nat)
    requires Runs(p, steps) && (forall s | s in steps :: DuringBroadcast(s)) && id in p.conns && 0 < p.taken <= |p.log|
    ensures id in Exec(p, steps).conns
    ensures var c, d := p.conns[id], Exec(p, steps).conns[id];
            && d.scope == c.scope && d.capacity == c.capacity
            && ViewOf(d) == TakenSentTaken(ViewOf(c), steps, id, c.scope, c.capacity, p.log[p.taken - 1])
    decreases |steps|
  {
    hide Next, Enabled, Hub.Push, Hub.HasRoom, Early, Late, Count, TakenSentTaken;
    if steps == [] {
      NoSteps(ViewOf(p.conns[id]), id, p.conns[id].scope, p.conns[id].capacity, p.log[p.taken - 1]);
    } else {
      var s, rest := steps[0], steps[1..];
      assert steps == [s] + rest && s in steps && forall x | x in rest :: x in steps;
      OneStep(p, s, id);
      SendsAreToBusy(Next(p, s), rest);
      FirstStep(ViewOf(p.conns[id]), steps, id, p.conns[id].scope, p.conns[id].capacity, p.log[p.taken - 1]);
      OneClient(Next(p, s), rest, id);
    }
  }

  lemma {:induction false} NoSteps(v: View, id: nat, scope: Scope, capacity: nat, m: Message)
    ensures TakenSentTaken(v, [], id, scope, capacity, m) == v
  {
  }

  // ----- the plain hub -----

  /** The receives of a list of clients. */
  function Takes(ids: seq<nat>, handle: nat -> Hub.Client): seq<Hub.Event> {
    seq(|ids|, i requires 0 <= i < |ids| => Hub.Receive(handle(ids[i])))
  }

  lemma {:induction false} CountLast(ids: seq<nat>, id: nat)
    requires ids != []
    ensures Count(ids, id) == Count(ids[..|ids| - 1], id) + if ids[|ids| - 1] == id then 1 else 0
  {
    if |ids| > 1 {
      CountLast(ids[1..], id);
      assert ids[..|ids| - 1][1..] == ids[1..][..|ids| - 2];
    }
  }

  lemma {:induction false} WorldTakes(w: Hub.World, ids: seq<nat>, handle: nat -> Hub.Client, all: set<nat>, id: nat)
    requires (forall i | i in ids :: i in all) && id in all && handle(id) in w.queues
    requires forall i, j | i in all && j in all && handle(i) == handle(j) :: i == j
    ensures var w' := Hub.AfterAll(w, Takes(ids, handle));
            && w'.clients == w.clients && handle(id) in w'.queues
            && w'.queues[handle(id)] == Drained(w.queues[handle(id)], Count(ids, id))
  {
    if ids != [] {
      var rest, last := ids[..|ids| - 1], ids[|ids| - 1];
      assert Takes(ids, handle)[..|ids| - 1] == Takes(rest, handle);
      assert ids == rest + [last];
      WorldTakes(w, rest, handle, all, id);
      CountLast(ids, id);
      DrainedOnce(w.queues[handle(id)], Count(rest, id));
    }
  }

  lemma {:induction false} AfterAllConcat(w: Hub.World, a: seq<Hub.Event>, b: seq<Hub.Event>)
    ensures Hub.AfterAll(w, a + b) == Hub.AfterAll(Hub.AfterAll(w, a), b)
  {
    if b == [] {
      assert a + b == a;
    } else {
      assert (a + b)[..|a + b| - 1] == a + b[..|b| - 1];
      AfterAllConcat(w, a, b[..|b| - 1]);
    }
  }

  /** A client that registers meanwhile waits for its turn, with an empty channel. */
  ghost predicate OthersWait(p: Pipeline, known: set<nat>) {
    forall id | id in p.conns && id !in known :: p.conns[id].queue == [] && id !in p.busy
  }

  lemma {:induction false} TakesAreKnown(p: Pipeline, steps: seq<Step>, known: set<nat>)
    requires Runs(p, steps) && (forall s | s in steps :: DuringBroadcast(s)) && OthersWait(p, known)
    ensures forall id | id in Early(steps) || id in Late(steps) :: id in known
    decreases |steps|
  {
    if steps != [] {
      var s, rest := steps[0], steps[1..];
      assert steps == [s] + rest && s in steps && forall x | x in rest :: x in steps;
      OthersGoOnWaiting(p, s, known);
      TakesAreKnown(Next(p, s), rest, known);
    }
  }

  lemma {:induction false} OthersGoOnWaiting(p: Pipeline, s: Step, known: set<nat>)
    requires Sane(p) && Enabled(p, s) && DuringBroadcast(s) && OthersWait(p, known)
    ensures OthersWait(Next(p, s), known)
  {
  }

  // ----- the whole broadcast -----

  /** What a run has made of the clients there were. */
  function Ours(p: Pipeline, q: Pipeline): map<nat, Conn> {
    map id | id in p.conns && id in q.conns :: q.conns[id]
  }

  function Serialised(p: Pipeline, steps: seq<Step>, handle: nat -> Hub.Client): seq<Hub.Event>
    requires 0 < p.taken <= |p.log|
  {
    Takes(Early(steps), handle) + ([Hub.Broadcast(p.log[p.taken - 1])] + Takes(Late(steps), handle))
  }

  /** A broadcast is atomic. The hub has taken a message and is sending it, client by client, in
      whatever order, while streams take messages from their channels, read the ring, open and end, and
      new events arrive. When it is through, every client is as if the hub had broadcast the message at
      one instant, after the messages taken early and before those taken late. */
  lemma {:induction false} BroadcastIsAtomic(p: Pipeline, steps: seq<Step>, w: Hub.World, handle: nat -> Hub.Client)
    requires Runs(p, steps) && (forall s | s in steps :: DuringBroadcast(s)) && Exec(p, steps).busy == {}
    requires 0 < p.taken <= |p.log| && forall id | id in p.conns :: id in p.busy <==> p.conns[id].link == In
    requires p.busy <= p.conns.Keys && SameClients(p.conns, w, handle)
    ensures Ours(p, Exec(p, steps)).Keys == p.conns.Keys
    ensures SameClients(Ours(p, Exec(p, steps)), Hub.AfterAll(w, Serialised(p, steps, handle)), handle)
  {
    hide Exec, Runs, Early, Late, Hub.AfterAll, Enabled, Next;
    TakesAreKnown(p, steps, p.conns.Keys);
    SendsAreToBusy(p, steps);
    forall id | id in p.conns
      ensures id in Exec(p, steps).conns
      ensures SameClient(Exec(p, steps).conns[id], Hub.AfterAll(w, Serialised(p, steps, handle)), handle(id))
    {
      OneClient(p, steps, id);
      assert SendTo(id) in steps <==> id in p.busy;
      SerialisedClient(p, steps, w, handle, id, Exec(p, steps).conns[id]);
    }
  }

  ghost predicate SameClient(c: Conn, w: Hub.World, client: Hub.Client) {
    && client.scope == c.scope && client.capacity == c.capacity && (client in w.clients <==> c.link == In)
    && client in w.queues && w.queues[client] == c.queue
  }

  lemma {:induction false} SerialisedClient(p: Pipeline, steps: seq<Step>, w: Hub.World, handle: nat -> Hub.Client,
        id: nat, d: Conn)
    requires 0 < p.taken <= |p.log| && id in p.conns && SameClients(p.conns, w, handle)
    requires forall i | i in Early(steps) || i in Late(steps) :: i in p.conns
    requires SendTo(id) in steps <==> p.conns[id].link == In
    requires d.scope == p.conns[id].scope && d.capacity == p.conns[id].capacity
    requires var c := p.conns[id];
             ViewOf(d) == TakenSentTaken(ViewOf(c), steps, id, c.scope, c.capacity, p.log[p.taken - 1])
    ensures SameClient(d, Hub.AfterAll(w, Serialised(p, steps, handle)), handle(id))
  {
    hide Early, Late, Drained, Count;
    var m, all := p.log[p.taken - 1], p.conns.Keys;
    var early, late := Takes(Early(steps), handle), Takes(Late(steps), handle);
    var w1 := Hub.AfterAll(w, early);
    var w2 := Hub.After(w1, Hub.Broadcast(m));
    OneEvent(w1, Hub.Broadcast(m));
    AfterAllConcat(w, early, [Hub.Broadcast(m)] + late);
    AfterAllConcat(w1, [Hub.Broadcast(m)], late);
    WorldTakes(w, Early(steps), handle, all, id);
    WorldTakes(w2, Late(steps), handle, all, id);
  }

  lemma {:induction false} OneEvent(w: Hub.World, e: Hub.Event)
    ensures Hub.AfterAll(w, [e]) == Hub.After(w, e)
  {
    assert [e][..0] == [];
  }
}
