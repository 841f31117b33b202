/** From the etcd watch to the stream connections: the watcher appends each event to the ring
    and hands it to the hub, the hub sends it to one client after another, and every stream
    reads the ring once and then its own channel. All of these interleave freely. */
module WatchPipeline {
  import opened Model
  import opened EventLog
  import opened RevisionBuffer
  import opened StreamHandler
  import Hub

  /** Where a connection stands with the hub: its Register lies in the channel, was taken,
      or the client has been removed and its channel closed. */
  datatype Link = Queued | In | Out

  datatype Phase = Joined | Live | Ended

  /** One stream connection.
      `upTo` counts the broadcasts the hub has finished for this client, `joinedAt` those that
      were over when it took the Register, `readAt` the ring's messages at the compensation read
      (0 after a reset); `registeredFirst` tells whether the Register was taken before that read. */
  datatype Conn = Conn(scope: Scope, lastRev: int, capacity: nat, link: Link, phase: Phase,
                       queue: seq<Message>, progress: Progress,
                       joinedAt: nat, upTo: nat, readAt: nat, registeredFirst: bool)

  /** `added` messages are in the ring, the hub has taken `taken` of them, and `busy` are the
      clients it still has to send the last one to. */
  datatype Pipeline = Pipeline(log: seq<Message>, size: nat, added: nat, taken: nat, busy: set<nat>,
                               conns: map<nat, Conn>)

  datatype Step =
    | Publish(m: Message)        // etcd commits an event
    | Buffer                     // the watcher adds the next event to the ring
    | TakeBroadcast              // the hub receives it from the watcher
    | SendTo(id: nat)            // the hub sends it to one client
    | Ping(id: nat)              // a heartbeat
    | HubRegister(id: nat)
    | HubUnregister(id: nat)
    | Connect(id: nat, scope: Scope, lastRev: int, capacity: nat)
    | Compensate(id: nat)        // the stream reads the ring
    | Receive(id: nat)           // the stream takes one message from its channel
    | Close(id: nat)             // the stream ends

  predicate Enabled(p: Pipeline, s: Step) {
    match s
    case Publish(m) =>
      !m.IsPing() && forall e | e in p.log :: e.revision < m.revision
    case Buffer =>
      // the Broadcast channel is unbuffered: the previous event has been received
      p.added == p.taken && p.added < |p.log|
    case TakeBroadcast =>
      p.taken < p.added && p.busy == {}
    case SendTo(id) =>
      id in p.busy
    case Ping(id) =>
      p.busy == {} && id in p.conns && p.conns[id].link == In
    case HubRegister(id) =>
      p.busy == {} && id in p.conns && p.conns[id].link == Queued
    case HubUnregister(id) =>
      p.busy == {} && id in p.conns && p.conns[id].phase == Ended
    case Connect(id, scope, _, _) =>
      id !in p.conns && Admitted(scope)
    case Compensate(id) =>
      id in p.conns && p.conns[id].phase == Joined
    case Receive(id) =>
      id in p.conns && p.conns[id].phase == Live && p.conns[id].queue != []
    case Close(id) =>
      id in p.conns && p.conns[id].phase == Live
  }

  /** A send: a full channel costs the client its place in the hub. */
  function Sent(c: Conn, m: Message): Conn {
    if Hub.HasRoom(c.queue, c.capacity) then c.(queue := Hub.Push(c.queue, c.capacity, m))
    else c.(link := Out)
  }

  /** The hub's turn for one client: only a client the message is routed to is sent it. */
  function Served(c: Conn, m: Message): Conn {
    if !c.scope.Routes(m) then c.(upTo := c.upTo + 1)
    else if Hub.HasRoom(c.queue, c.capacity) then Sent(c, m).(upTo := c.upTo + 1)
    else Sent(c, m)
  }

  function Compensated(p: Pipeline, c: Conn): Conn
    requires p.size > 0 && p.added <= |p.log|
  {
    var history := Compensation(p.size, p.log[..p.added], c.lastRev);
    c.(phase := Live,
       progress := Replayed(c.lastRev, c.scope, history),
       readAt := if history.Some? then p.added else 0,
       registeredFirst := !c.link.Queued?)
  }

  function Next(p: Pipeline, s: Step): Pipeline
    requires Sane(p) && Enabled(p, s)
  {
    match s
    case Publish(m) => p.(log := p.log + [m])
    case Buffer => p.(added := p.added + 1)
    case TakeBroadcast =>
      p.(taken := p.taken + 1, busy := set id | id in p.conns && p.conns[id].link == In)
    case SendTo(id) =>
      p.(busy := p.busy - {id}, conns := p.conns[id := Served(p.conns[id], p.log[p.taken - 1])])
    case Ping(id) => p.(conns := p.conns[id := Sent(p.conns[id], PING)])
    case HubRegister(id) =>
      p.(conns := p.conns[id := p.conns[id].(link := In, joinedAt := p.taken, upTo := p.taken)])
    case HubUnregister(id) =>
      if p.conns[id].link == In then p.(conns := p.conns[id := p.conns[id].(link := Out)]) else p
    case Connect(id, scope, lastRev, capacity) =>
      p.(conns := p.conns[id := Conn(scope, lastRev, capacity, Queued, Joined, [], Opened(lastRev), 0, 0, 0, false)])
    case Compensate(id) => p.(conns := p.conns[id := Compensated(p, p.conns[id])])
    case Receive(id) =>
      p.(conns := p.conns[id := Received(p.conns[id])])
    case Close(id) => p.(conns := p.conns[id := p.conns[id].(phase := Ended)])
  }

  predicate Sane(p: Pipeline) {
    && p.size > 0
    && p.taken <= p.added <= |p.log|
    && p.busy <= p.conns.Keys
    && (p.busy != {} ==> p.taken > 0)
  }

  // ----- what one connection has been promised -----

  /** Where the live part of the connection begins and ends in the log. */
  function LiveFrom(c: Conn): nat {
    if c.readAt >= c.joinedAt then c.readAt else c.joinedAt
  }

  function LiveTo(c: Conn): nat {
    if c.upTo >= LiveFrom(c) then c.upTo else LiveFrom(c)
  }

  /** Everything the connection will have written once its channel is drained. */
  function Target(log: seq<Message>, c: Conn): seq<Message>
    requires LiveTo(c) <= |log| && c.readAt <= |log|
  {
    Select(log[..c.readAt], c.scope, c.lastRev)
    + if c.link.Queued? then [] else Select(log[LiveFrom(c)..LiveTo(c)], c.scope, c.lastRev)
  }

  /** The messages in the channel the stream will still write. */
  function Backlog(c: Conn): seq<Message> {
    Select(c.queue, c.scope, c.progress.maxSentRev)
  }

  ghost predicate Bounds(p: Pipeline, c: Conn, busy: bool) {
    && Admitted(c.scope)
    && c.joinedAt <= c.upTo <= p.taken
    && c.readAt <= p.added
    && (c.link.Queued? ==> c.queue == [] && !busy && c.joinedAt == c.upTo == 0)
    && (c.link.In? ==> c.upTo == if busy then p.taken - 1 else p.taken)
    && (c.link.Out? ==> !busy)
    && (c.registeredFirst ==> c.joinedAt <= c.readAt || c.progress.reset)
    && (c.registeredFirst ==> !c.link.Queued?)
    && (c.phase.Joined? ==> c.progress == Opened(c.lastRev) && c.readAt == 0 && !c.registeredFirst)
    && (c.readAt > 0 && p.log != [] ==> p.log[0].revision <= c.lastRev)
  }

  /** The channel holds messages of the log the hub has already been through, in log order. */
  ghost predicate QueueFromLog(p: Pipeline, c: Conn)
    requires c.joinedAt <= c.upTo <= |p.log|
  {
    && Ascending(Select(c.queue, c.scope, c.lastRev))
    && (forall m | m in Select(c.queue, c.scope, c.lastRev) :: m in p.log[..c.upTo])
    && (c.phase.Joined? && !c.link.Queued? ==>
          Select(c.queue, c.scope, c.lastRev) == Select(p.log[c.joinedAt..c.upTo], c.scope, c.lastRev))
  }

  /** The revision filter is the requested revision or that of an event already read or received,
      and no wanted event of the replayed history lies above it. */
  ghost predicate Threshold(p: Pipeline, c: Conn) {
    && c.lastRev <= c.progress.maxSentRev
    && (forall i | 0 <= i < c.readAt && i < |p.log| && c.scope.Wants(p.log[i]) ::
          p.log[i].revision <= c.progress.maxSentRev)
    && (c.progress.maxSentRev == c.lastRev || ReachedBy(p.log, c.progress.maxSentRev, Max(c.readAt, c.upTo)))
  }

  /** `rev` is the revision of one of the first `n` events. */
  ghost predicate ReachedBy(log: seq<Message>, rev: int, n: int) {
    exists i | 0 <= i < n && i < |log| :: log[i].revision == rev
  }

  ghost predicate ConnInv(p: Pipeline, c: Conn, busy: bool)
    requires Sane(p)
  {
    && Bounds(p, c, busy)
    && QueueFromLog(p, c)
    && (!c.phase.Joined? ==>
          && Threshold(p, c)
          && c.progress.written + Backlog(c) == Target(p.log, c))
  }

  ghost predicate LogOk(p: Pipeline) {
    && Sane(p)
    && Ascending(p.log)
    && (forall m | m in p.log :: !m.IsPing())
  }

  ghost predicate Inv(p: Pipeline) {
    && LogOk(p)
    && (forall id | id in p.conns :: ConnInv(p, p.conns[id], id in p.busy))
  }

  // ----- every step keeps the promise -----

  /** A new event leaves every earlier stretch of the log as it was. */
  lemma {:induction false} PublishKeeps(p: Pipeline, m: Message, c: Conn, busy: bool)
    requires LogOk(p) && Enabled(p, Publish(m)) && ConnInv(p, c, busy)
    ensures ConnInv(p.(log := p.log + [m]), c, busy)
  {
    var q := p.(log := p.log + [m]);
    assert q.log[..c.upTo] == p.log[..c.upTo];
    assert q.log[c.joinedAt..c.upTo] == p.log[c.joinedAt..c.upTo];
    assert QueueFromLog(q, c);
    if !c.phase.Joined? {
      PublishKeepsTarget(p.log, m, c);
      PublishKeepsThreshold(p, m, c);
    }
  }

  lemma {:induction false} PublishKeepsTarget(log: seq<Message>, m: Message, c: Conn)
    requires c.readAt <= |log| && LiveTo(c) <= |log|
    ensures Target(log + [m], c) == Target(log, c)
  {
    assert (log + [m])[..c.readAt] == log[..c.readAt];
    assert (log + [m])[LiveFrom(c)..LiveTo(c)] == log[LiveFrom(c)..LiveTo(c)];
  }

  lemma {:induction false} PublishKeepsThreshold(p: Pipeline, m: Message, c: Conn)
    requires Threshold(p, c) && c.readAt <= |p.log|
    ensures Threshold(p.(log := p.log + [m]), c)
  {
    var q := p.(log := p.log + [m]);
    assert forall i | 0 <= i < |p.log| :: q.log[i] == p.log[i];
    if c.progress.maxSentRev != c.lastRev {
      var i :| 0 <= i < Max(c.readAt, c.upTo) && i < |p.log| && p.log[i].revision == c.progress.maxSentRev;
      assert q.log[i].revision == c.progress.maxSentRev;
    }
  }

  /** An event not read and not yet received is new to the stream as soon as it is newer
      than the requested revision. */
  lemma {:induction false} UnseenIsAbove(p: Pipeline, c: Conn, i: nat)
    requires Ascending(p.log) && Threshold(p, c)
    requires Max(c.readAt, c.upTo) <= i < |p.log| && p.log[i].revision > c.lastRev
    ensures p.log[i].revision > c.progress.maxSentRev
  {
  }

  /** The ring was read: the promise is what it returned plus what the hub will send later. */
  lemma {:induction false} CompensateKeeps(p: Pipeline, c: Conn, busy: bool)
    requires LogOk(p) && ConnInv(p, c, busy) && c.phase.Joined?
    ensures ConnInv(p, Compensated(p, c), busy)
  {
    var d := Compensated(p, c);
    var log := p.log[..p.added];
    assert NonDecreasing(log);
    WantedOfSince(log, c.scope, c.lastRev);
    if Compensation(p.size, log, c.lastRev).Some? {
      HistoryServed(p, c, busy);
    } else {
      assert d.progress == Progress(c.lastRev, [], true) && d.readAt == 0;
      assert p.log[..0] == [];
      assert LiveFrom(d) == d.joinedAt && LiveTo(d) == d.upTo;
      assert Backlog(d) == Target(p.log, d);
    }
  }

  lemma {:induction false} HistoryIsSelection(p: Pipeline, c: Conn)
    requires p.size > 0 && p.added <= |p.log|
    requires Compensation(p.size, p.log[..p.added], c.lastRev).Some?
    ensures Compensated(p, c).progress.written == Select(p.log[..p.added], c.scope, c.lastRev)
  {
    var log := p.log[..p.added];
    WantedOfSince(log, c.scope, c.lastRev);
    assert log == [] ==> Since(log, c.lastRev) == [];
  }

  lemma {:induction false} HistoryServed(p: Pipeline, c: Conn, busy: bool)
    requires LogOk(p) && ConnInv(p, c, busy) && c.phase.Joined?
    requires Compensation(p.size, p.log[..p.added], c.lastRev).Some?
    ensures ConnInv(p, Compensated(p, c), busy)
  {
    var d := Compensated(p, c);
    if p.added > 0 {
      ServedMeansRecent(p, c.lastRev);
    }
    HistoryIsSelection(p, c);
    HistoryThreshold(p, c);
    NothingNewInQueue(p, d);
    assert LiveFrom(d) == LiveTo(d);
    assert p.log[LiveFrom(d)..LiveTo(d)] == [];
    assert Target(p.log, d) == d.progress.written;
  }

  /** A ring that holds something serves only clients at least as recent as its first message. */
  lemma {:induction false} ServedMeansRecent(p: Pipeline, lastRev: int)
    requires p.size > 0 && 0 < p.added <= |p.log| && Ascending(p.log)
    requires Compensation(p.size, p.log[..p.added], lastRev).Some?
    ensures p.log[0].revision <= lastRev
  {
    var kept := Retained(p.size, p.log[..p.added]);
    assert kept[0] == p.log[p.added - |kept|];
  }

  /** The last selected revision bounds everything wanted in the log. */
  lemma {:induction false} LastSelected(log: seq<Message>, scope: Scope, lastRev: int)
    requires Ascending(log)
    ensures var written := Select(log, scope, lastRev);
            var last := if written == [] then lastRev else written[|written| - 1].revision;
            && lastRev <= last
            && (forall i | 0 <= i < |log| && scope.Wants(log[i]) :: log[i].revision <= last)
            && (last == lastRev || ReachedBy(log, last, |log|))
  {
    var written := Select(log, scope, lastRev);
    SelectSound(log, scope, lastRev);
    SelectAscending(log, scope, lastRev);
    forall i | 0 <= i < |log| && scope.Wants(log[i]) && log[i].revision > lastRev
      ensures written != [] && log[i].revision <= written[|written| - 1].revision
    {
      SelectComplete(log, scope, lastRev, log[i]);
    }
    if written != [] {
      assert written[|written| - 1] in log;
    }
  }

  lemma {:induction false} HistoryThreshold(p: Pipeline, c: Conn)
    requires p.size > 0 && p.added <= |p.log| && Ascending(p.log)
    requires Compensation(p.size, p.log[..p.added], c.lastRev).Some?
    ensures Threshold(p, Compensated(p, c))
  {
    hide Ascending, Select, Compensation;
    var d, log := Compensated(p, c), p.log[..p.added];
    assert Ascending(log) by {
      PrefixAscends(p.log, p.added);
    }
    HistoryIsSelection(p, c);
    LastSelected(log, c.scope, c.lastRev);
    assert forall i | 0 <= i < |log| :: log[i] == p.log[i];
    ReachedByPrefix(p.log, p.added, d.progress.maxSentRev);
    ReachGrows(p.log, d.progress.maxSentRev, p.added, Max(d.readAt, d.upTo));
  }

  lemma {:induction false} PrefixAscends(log: seq<Message>, n: nat)
    requires n <= |log| && Ascending(log)
    ensures Ascending(log[..n])
  {
  }

  lemma {:induction false} ReachedByPrefix(log: seq<Message>, n: nat, rev: int)
    requires n <= |log|
    ensures ReachedBy(log[..n], rev, n) ==> ReachedBy(log, rev, n)
  {
    if ReachedBy(log[..n], rev, n) {
      var i :| 0 <= i < n && i < |log[..n]| && log[..n][i].revision == rev;
      assert log[i].revision == rev;
    }
  }

  /** Whatever the hub sent before the read was in the ring. */
  lemma {:induction false} NothingNewInQueue(p: Pipeline, d: Conn)
    requires d.joinedAt <= d.upTo <= |p.log| && QueueFromLog(p, d) && Threshold(p, d) && d.upTo <= d.readAt
    ensures Backlog(d) == []
  {
    forall m | m in d.queue && d.scope.Wants(m)
      ensures m.revision <= d.progress.maxSentRev
    {
      if m.revision > d.lastRev {
        SelectComplete(d.queue, d.scope, d.lastRev, m);
        var i :| 0 <= i < d.upTo && p.log[..d.upTo][i] == m;
        assert p.log[i] == m;
      }
    }
    SelectNothing(d.queue, d.scope, d.progress.maxSentRev);
  }

  // ----- the stream takes a message -----

  function Received(c: Conn): Conn
    requires c.queue != []
  {
    c.(queue := c.queue[1..], progress := Took(c.progress, c.scope, c.queue[0]))
  }

  lemma {:induction false} QueueSplits(c: Conn, rev: int)
    requires c.queue != []
    ensures Select(c.queue, c.scope, rev)
         == (if c.scope.Wants(c.queue[0]) && c.queue[0].revision > rev then [c.queue[0]] else [])
            + Select(c.queue[1..], c.scope, rev)
  {
    assert c.queue == [c.queue[0]] + c.queue[1..];
    SelectConcat([c.queue[0]], c.queue[1..], c.scope, rev);
    SelectOne(c.queue[0], c.scope, rev);
  }

  lemma {:induction false} ReceiveKeeps(p: Pipeline, c: Conn, busy: bool)
    requires LogOk(p) && ConnInv(p, c, busy) && c.phase.Live? && c.queue != []
    ensures ConnInv(p, Received(c), busy)
  {
    hide QueueFromLog, Target;
    var d, m := Received(c), c.queue[0];
    ReceiveQueue(p, c);
    TargetIgnoresQueue(p.log, c, d);
    if c.scope.Wants(m) && m.revision > c.progress.maxSentRev {
      ReceiveNew(p, c);
    } else {
      QueueSplits(c, c.progress.maxSentRev);
      assert d.progress == c.progress;
    }
  }

  lemma {:induction false} TargetIgnoresQueue(log: seq<Message>, c: Conn, d: Conn)
    requires c.readAt <= |log| && LiveTo(c) <= |log| && d == c.(queue := d.queue, progress := d.progress)
    ensures LiveTo(d) == LiveTo(c) && Target(log, d) == Target(log, c)
  {
  }

  lemma {:induction false} ReceiveQueue(p: Pipeline, c: Conn)
    requires c.joinedAt <= c.upTo <= |p.log| && QueueFromLog(p, c) && c.phase.Live? && c.queue != []
    ensures QueueFromLog(p, Received(c))
    ensures c.scope.Wants(c.queue[0]) && c.queue[0].revision > c.lastRev ==> c.queue[0] in p.log[..c.upTo]
  {
    QueueSplits(c, c.lastRev);
    var m, all, rest := c.queue[0], Select(c.queue, c.scope, c.lastRev), Select(c.queue[1..], c.scope, c.lastRev);
    if c.scope.Wants(m) && m.revision > c.lastRev {
      assert all == [m] + rest;
      assert forall i | 0 <= i < |rest| :: rest[i] == all[i + 1];
    } else {
      assert all == rest;
    }
  }

  /** Everything behind the head of the queue is newer than it. */
  lemma {:induction false} HeadIsOldest(c: Conn)
    requires Ascending(Select(c.queue, c.scope, c.lastRev)) && c.queue != []
    requires c.scope.Wants(c.queue[0]) && c.queue[0].revision > c.lastRev
    ensures forall x | x in c.queue[1..] && c.scope.Wants(x) && x.revision > c.lastRev :: x.revision > c.queue[0].revision
  {
    QueueSplits(c, c.lastRev);
    var m, all, rest := c.queue[0], Select(c.queue, c.scope, c.lastRev), Select(c.queue[1..], c.scope, c.lastRev);
    assert all == [m] + rest;
    forall x | x in c.queue[1..] && c.scope.Wants(x) && x.revision > c.lastRev
      ensures x.revision > m.revision
    {
      SelectComplete(c.queue[1..], c.scope, c.lastRev, x);
      var j :| 0 <= j < |rest| && rest[j] == x;
      assert all[0] == m && all[j + 1] == x;
    }
  }

  /** A message that passes the filter moves from the backlog to the written part. */
  lemma {:induction false} ReceiveNew(p: Pipeline, c: Conn)
    requires c.joinedAt <= c.upTo <= |p.log| && QueueFromLog(p, c) && Threshold(p, c)
    requires c.phase.Live? && c.queue != []
    requires forall m | m in p.log :: !m.IsPing()
    requires c.scope.Wants(c.queue[0]) && c.queue[0].revision > c.progress.maxSentRev
    ensures Threshold(p, Received(c))
    ensures Received(c).progress.written + Backlog(Received(c)) == c.progress.written + Backlog(c)
  {
    var d, m := Received(c), c.queue[0];
    ReceiveQueue(p, c);
    var i :| 0 <= i < c.upTo && p.log[..c.upTo][i] == m;
    assert p.log[i] == m && !m.IsPing();
    assert ReachedBy(p.log, m.revision, Max(d.readAt, d.upTo));
    HeadIsOldest(c);
    SelectRaise(d.queue, c.scope, c.progress.maxSentRev, m.revision);
    QueueSplits(c, c.progress.maxSentRev);
  }

  // ----- the hub sends -----

  lemma {:induction false} PushSplits(c: Conn, m: Message, rev: int)
    ensures Select(c.queue + [m], c.scope, rev)
         == Select(c.queue, c.scope, rev) + (if c.scope.Wants(m) && m.revision > rev then [m] else [])
  {
    SelectConcat(c.queue, [m], c.scope, rev);
    SelectOne(m, c.scope, rev);
  }

  /** Heartbeats are for nobody's scope. */
  lemma {:induction false} PingKeeps(p: Pipeline, c: Conn)
    requires LogOk(p) && ConnInv(p, c, false) && c.link.In?
    ensures ConnInv(p, Sent(c, PING), false)
  {
    if Hub.HasRoom(c.queue, c.capacity) {
      assert !c.scope.Wants(PING);
      PushSplits(c, PING, c.lastRev);
      PushSplits(c, PING, c.progress.maxSentRev);
      QueueOnly(p, c, c.queue + [PING]);
    } else {
      RemoveKeeps(p, c, false);
    }
  }

  /** The invariant sees the channel only through its wanted messages. */
  lemma {:induction false} QueueOnly(p: Pipeline, c: Conn, queue: seq<Message>)
    requires LogOk(p) && ConnInv(p, c, false) && !c.link.Queued?
    requires Select(queue, c.scope, c.lastRev) == Select(c.queue, c.scope, c.lastRev)
    requires Select(queue, c.scope, c.progress.maxSentRev) == Backlog(c)
    ensures ConnInv(p, c.(queue := queue), false)
  {
    var d := c.(queue := queue);
    assert Bounds(p, d, false) && QueueFromLog(p, d);
    assert Target(p.log, d) == Target(p.log, c);
  }

  /** The client's stretch of the log grows by the event it has been served. */
  lemma {:induction false} GrownKeeps(p: Pipeline, c: Conn)
    requires LogOk(p) && ConnInv(p, c, true) && p.busy != {}
    ensures ConnInv(p, Grown(c, p.log[c.upTo]), false)
  {
    var d := Grown(c, p.log[c.upTo]);
    ServeQueue(p, c);
    assert Bounds(p, d, false);
    if !c.phase.Joined? {
      ServeTarget(p, c);
      ReachGrows(p.log, c.progress.maxSentRev, Max(c.readAt, c.upTo), Max(d.readAt, d.upTo));
      assert Threshold(p, d);
    }
  }

  function Grown(c: Conn, m: Message): Conn {
    c.(upTo := c.upTo + 1, queue := if c.scope.Routes(m) then c.queue + [m] else c.queue)
  }

  lemma {:induction false} GrownSelects(c: Conn, m: Message, rev: int)
    ensures Select(Grown(c, m).queue, c.scope, rev)
         == Select(c.queue, c.scope, rev) + (if c.scope.Wants(m) && m.revision > rev then [m] else [])
  {
    PushSplits(c, m, rev);
  }

  /** One more event in a stretch of the log. */
  lemma {:induction false} StretchGrows(log: seq<Message>, i: nat, j: nat, scope: Scope, rev: int)
    requires i <= j < |log|
    ensures Select(log[i..j + 1], scope, rev)
         == Select(log[i..j], scope, rev) + (if scope.Wants(log[j]) && log[j].revision > rev then [log[j]] else [])
  {
    assert log[i..j + 1] == log[i..j] + [log[j]];
    SelectConcat(log[i..j], [log[j]], scope, rev);
    SelectOne(log[j], scope, rev);
  }

  lemma {:induction false} QueueGrows(log: seq<Message>, n: nat, queue: seq<Message>, more: seq<Message>)
    requires n < |log| && Ascending(log) && Ascending(queue) && (more == [] || more == [log[n]])
    requires forall m | m in queue :: m in log[..n]
    ensures Ascending(queue + more)
    ensures forall m | m in queue + more :: m in log[..n + 1]
  {
    assert log[..n + 1] == log[..n] + [log[n]];
    forall i | 0 <= i < |queue|
      ensures queue[i].revision < log[n].revision
    {
      assert queue[i] in log[..n];
    }
  }

  lemma {:induction false} ServeQueue(p: Pipeline, c: Conn)
    requires c.joinedAt <= c.upTo < |p.log| && Ascending(p.log) && QueueFromLog(p, c) && c.link.In?
    ensures QueueFromLog(p, Grown(c, p.log[c.upTo]))
  {
    hide Ascending, Select;
    var m := p.log[c.upTo];
    var more := if c.scope.Wants(m) && m.revision > c.lastRev then [m] else [];
    GrownSelects(c, m, c.lastRev);
    QueueGrows(p.log, c.upTo, Select(c.queue, c.scope, c.lastRev), more);
    StretchGrows(p.log, c.joinedAt, c.upTo, c.scope, c.lastRev);
  }

  lemma {:induction false} ReachGrows(log: seq<Message>, rev: int, m: int, n: int)
    requires m <= n
    ensures ReachedBy(log, rev, m) ==> ReachedBy(log, rev, n)
  {
  }

  lemma {:induction false} ServeTarget(p: Pipeline, c: Conn)
    requires c.joinedAt <= c.upTo < |p.log| && c.readAt <= |p.log| && Ascending(p.log) && Threshold(p, c) && c.link.In?
    requires c.progress.written + Backlog(c) == Target(p.log, c)
    ensures var d := Grown(c, p.log[c.upTo]); d.progress.written + Backlog(d) == Target(p.log, d)
  {
    var m := p.log[c.upTo];
    var d := Grown(c, m);
    GrownSelects(c, m, c.progress.maxSentRev);
    if c.upTo < c.readAt {
      assert Backlog(d) == Backlog(c);
      assert LiveTo(d) == LiveTo(c) && LiveFrom(c) == LiveFrom(d);
    } else {
      ServeTargetNew(p.log, c, m, if c.scope.Wants(m) && m.revision > c.lastRev then [m] else []);
      if m.revision > c.lastRev {
        UnseenIsAbove(p, c, c.upTo);
      }
    }
  }

  lemma {:induction false} ServeTargetNew(log: seq<Message>, c: Conn, m: Message, more: seq<Message>)
    requires c.joinedAt <= c.upTo < |log| && c.readAt <= c.upTo && m == log[c.upTo] && c.link.In?
    requires more == if c.scope.Wants(m) && m.revision > c.lastRev then [m] else []
    requires c.progress.written + Backlog(c) == Target(log, c)
    ensures c.progress.written + (Backlog(c) + more) == Target(log, Grown(c, m))
  {
    var d := Grown(c, m);
    assert LiveFrom(d) == LiveFrom(c) && LiveTo(d) == c.upTo + 1 && LiveTo(c) == c.upTo;
    StretchGrows(log, LiveFrom(c), c.upTo, c.scope, c.lastRev);
    Reassociate(c.progress.written, Backlog(c), more);
    Reassociate(Select(log[..c.readAt], c.scope, c.lastRev), Select(log[LiveFrom(c)..c.upTo], c.scope, c.lastRev), more);
  }

  lemma {:induction false} Reassociate(a: seq<Message>, b: seq<Message>, c: seq<Message>)
    ensures a + (b + c) == a + b + c
  {
  }

  /** Taking the Register opens an empty stretch at the present. */
  lemma {:induction false} RegisterKeeps(p: Pipeline, c: Conn)
    requires LogOk(p) && ConnInv(p, c, false) && c.link.Queued? && p.busy == {}
    ensures ConnInv(p, c.(link := In, joinedAt := p.taken, upTo := p.taken), false)
  {
    var d := c.(link := In, joinedAt := p.taken, upTo := p.taken);
    assert p.log[d.joinedAt..d.upTo] == [];
    assert p.log[LiveFrom(d)..LiveTo(d)] == [];
  }

  lemma {:induction false} CloseKeeps(p: Pipeline, c: Conn, busy: bool)
    requires LogOk(p) && ConnInv(p, c, busy) && c.phase.Live?
    ensures ConnInv(p, c.(phase := Ended), busy)
  {
    assert Target(p.log, c.(phase := Ended)) == Target(p.log, c);
  }

  lemma {:induction false} RemoveKeeps(p: Pipeline, c: Conn, busy: bool)
    requires LogOk(p) && ConnInv(p, c, busy) && c.link.In?
    ensures ConnInv(p, c.(link := Out), false)
  {
    var d := c.(link := Out);
    assert QueueFromLog(p, d);
    if !c.phase.Joined? {
      TargetIgnoresLink(p.log, c, d);
      assert Threshold(p, d);
      assert Backlog(d) == Backlog(c);
    }
  }

  lemma {:induction false} TargetIgnoresLink(log: seq<Message>, c: Conn, d: Conn)
    requires c.readAt <= |log| && LiveTo(c) <= |log| && c.link.In? && d == c.(link := Out)
    ensures LiveTo(d) == LiveTo(c) && Target(log, d) == Target(log, c)
  {
  }

  /** A step that touches one connection only. */
  lemma {:induction false} OneConnChanges(p: Pipeline, id: nat, d: Conn, busy: set<nat>)
    requires Inv(p) && id in p.conns
    requires busy == p.busy || busy == p.busy - {id}
    requires ConnInv(p, d, id in busy)
    ensures Inv(p.(busy := busy, conns := p.conns[id := d]))
  {
    hide ConnInv;
    var q := p.(busy := busy, conns := p.conns[id := d]);
    forall other | other in q.conns
      ensures ConnInv(q, q.conns[other], other in q.busy)
    {
      if other != id {
        assert ConnInv(p, p.conns[other], other in p.busy);
      }
      ConnInvIsLocal(p, q, q.conns[other], other in q.busy);
    }
  }

  /** The promise to one connection does not look at the others. */
  lemma {:induction false} ConnInvIsLocal(p: Pipeline, q: Pipeline, c: Conn, busy: bool)
    requires Sane(p) && Sane(q) && ConnInv(p, c, busy) && q == p.(busy := q.busy, conns := q.conns)
    ensures ConnInv(q, c, busy)
  {
  }

  lemma {:induction false} StepKeepsInv(p: Pipeline, s: Step)
    requires Inv(p) && Enabled(p, s)
    ensures Inv(Next(p, s))
  {
    match s {
      case Publish(m) => PublishKeepsInv(p, m);
      case Buffer => BufferKeepsInv(p);
      case TakeBroadcast => TakeKeepsInv(p);
      case SendTo(id) => SendKeepsInv(p, id);
      case Ping(id) => PingKeepsInv(p, id);
      case HubRegister(_) => RegistryKeepsInv(p, s);
      case HubUnregister(_) => RegistryKeepsInv(p, s);
      case Connect(id, _, _, _) => ConnectKeeps(p, Next(p, s), id);
      case Compensate(_) => StreamKeepsInv(p, s);
      case Receive(_) => StreamKeepsInv(p, s);
      case Close(id) => CloseKeepsInv(p, id);
    }
  }

  /** A send either costs the client its place or extends its stretch of the log. */
  lemma {:induction false} SendIs(p: Pipeline, id: nat)
    requires Sane(p) && Enabled(p, SendTo(id))
    ensures var c, m := p.conns[id], p.log[p.taken - 1];
            Next(p, SendTo(id))
            == Finished(p, id,
                        if c.scope.Routes(m) && !Hub.HasRoom(c.queue, c.capacity) then c.(link := Out) else Grown(c, m))
  {
  }

  lemma {:induction false} SendKeepsInv(p: Pipeline, id: nat)
    requires Inv(p) && Enabled(p, SendTo(id))
    ensures Inv(Next(p, SendTo(id)))
  {
    hide ConnInv, Finished, Next, Grown;
    SendIs(p, id);
    if p.conns[id].scope.Routes(p.log[p.taken - 1]) && !Hub.HasRoom(p.conns[id].queue, p.conns[id].capacity) {
      DropKeepsInv(p, id);
    } else {
      GrowKeepsInv(p, id);
    }
  }

  /** The hub is done with one client of the broadcast in hand. */
  function Finished(p: Pipeline, id: nat, c: Conn): Pipeline {
    p.(busy := p.busy - {id}, conns := p.conns[id := c])
  }

  lemma {:induction false} DropKeepsInv(p: Pipeline, id: nat)
    requires Inv(p) && id in p.busy
    ensures Inv(Finished(p, id, p.conns[id].(link := Out)))
  {
    RemoveKeeps(p, p.conns[id], true);
    OneConnChanges(p, id, p.conns[id].(link := Out), p.busy - {id});
  }

  lemma {:induction false} GrowKeepsInv(p: Pipeline, id: nat)
    requires Inv(p) && id in p.busy
    ensures Inv(Finished(p, id, Grown(p.conns[id], p.log[p.taken - 1])))
  {
    hide Grown, QueueFromLog, Threshold, Target, Backlog;
    var c := p.conns[id];
    assert c.upTo == p.taken - 1;
    GrownKeeps(p, c);
    OneConnChanges(p, id, Grown(c, p.log[c.upTo]), p.busy - {id});
  }

  lemma {:induction false} PingKeepsInv(p: Pipeline, id: nat)
    requires Inv(p) && Enabled(p, Ping(id))
    ensures Inv(Next(p, Ping(id)))
  {
    PingKeeps(p, p.conns[id]);
    OneConnChanges(p, id, Sent(p.conns[id], PING), p.busy);
  }

  lemma {:induction false} StreamKeepsInv(p: Pipeline, s: Step)
    requires Inv(p) && Enabled(p, s) && (s.Compensate? || s.Receive?)
    ensures Inv(Next(p, s))
  {
    var c := p.conns[s.id];
    assert ConnInv(p, c, s.id in p.busy);
    if s.Compensate? {
      CompensateKeeps(p, c, s.id in p.busy);
      OneConnChanges(p, s.id, Compensated(p, c), p.busy);
    } else {
      ReceiveKeeps(p, c, s.id in p.busy);
      OneConnChanges(p, s.id, Received(c), p.busy);
    }
  }

  lemma {:induction false} PublishKeepsInv(p: Pipeline, m: Message)
    requires Inv(p) && Enabled(p, Publish(m))
    ensures Inv(Next(p, Publish(m)))
  {
    var q := Next(p, Publish(m));
    forall id | id in q.conns
      ensures ConnInv(q, q.conns[id], id in q.busy)
    {
      PublishKeeps(p, m, p.conns[id], id in p.busy);
    }
  }

  lemma {:induction false} BufferKeepsInv(p: Pipeline)
    requires Inv(p) && Enabled(p, Buffer)
    ensures Inv(Next(p, Buffer))
  {
    assert forall id | id in p.conns :: ConnInv(p, p.conns[id], id in p.busy);
  }

  lemma {:induction false} TakeKeepsInv(p: Pipeline)
    requires Inv(p) && Enabled(p, TakeBroadcast)
    ensures Inv(Next(p, TakeBroadcast))
  {
    assert forall id | id in p.conns :: ConnInv(p, p.conns[id], false);
  }

  lemma {:induction false} RegistryKeepsInv(p: Pipeline, s: Step)
    requires Inv(p) && Enabled(p, s) && (s.HubRegister? || s.HubUnregister?)
    ensures Inv(Next(p, s))
  {
    var id := s.id;
    assert ConnInv(p, p.conns[id], false);
    if s.HubRegister? {
      RegisterKeeps(p, p.conns[id]);
      OneConnChanges(p, id, p.conns[id].(link := In, joinedAt := p.taken, upTo := p.taken), p.busy);
    } else if p.conns[id].link == In {
      RemoveKeeps(p, p.conns[id], false);
      OneConnChanges(p, id, p.conns[id].(link := Out), p.busy);
    }
  }

  lemma {:induction false} CloseKeepsInv(p: Pipeline, id: nat)
    requires Inv(p) && Enabled(p, Close(id))
    ensures Inv(Next(p, Close(id)))
  {
    var c := p.conns[id];
    CloseKeeps(p, c, id in p.busy);
    OneConnChanges(p, id, c.(phase := Ended), p.busy);
  }

  lemma {:induction false} ConnectKeeps(p: Pipeline, q: Pipeline, id: nat)
    requires Inv(p) && id !in p.conns && id in q.conns
    requires q == p.(conns := p.conns[id := q.conns[id]])
    requires var c := q.conns[id];
             Admitted(c.scope)
             && c == Conn(c.scope, c.lastRev, c.capacity, Queued, Joined, [], Opened(c.lastRev), 0, 0, 0, false)
    ensures Inv(q)
  {
    forall other | other in q.conns
      ensures ConnInv(q, q.conns[other], other in q.busy)
    {
      if other != id {
        assert ConnInv(p, p.conns[other], other in p.busy);
      }
    }
  }

  // ----- runs -----

  function Initial(size: nat): Pipeline {
    Pipeline([], size, 0, 0, {}, map[])
  }

  /** The steps can be taken in this order. */
  predicate Runs(p: Pipeline, steps: seq<Step>)
    decreases |steps|
  {
    steps == [] || (Sane(p) && Enabled(p, steps[0]) && Runs(Next(p, steps[0]), steps[1..]))
  }

  function Exec(p: Pipeline, steps: seq<Step>): Pipeline
    requires Runs(p, steps)
    decreases |steps|
  {
    if steps == [] then p else Exec(Next(p, steps[0]), steps[1..])
  }

  lemma {:induction false} RunKeepsInv(p: Pipeline, steps: seq<Step>)
    requires Inv(p) && Runs(p, steps)
    ensures Inv(Exec(p, steps))
    decreases |steps|
  {
    if steps != [] {
      StepKeepsInv(p, steps[0]);
      RunKeepsInv(Next(p, steps[0]), steps[1..]);
    }
  }

  // ----- what a connection has written -----

  lemma {:induction false} TargetIsOneSelection(log: seq<Message>, c: Conn)
    requires LiveTo(c) <= |log| && c.readAt <= |log|
    ensures Target(log, c)
         == Select(log[..c.readAt] + if c.link.Queued? then [] else log[LiveFrom(c)..LiveTo(c)], c.scope, c.lastRev)
  {
    SelectConcat(log[..c.readAt], if c.link.Queued? then [] else log[LiveFrom(c)..LiveTo(c)], c.scope, c.lastRev);
  }

  /** On every run and every connection, whatever the interleaving: no message is written twice
      or out of order, and each is a wanted event newer than the requested revision. */
  lemma {:induction false} NoDuplicates(size: nat, steps: seq<Step>, id: nat)
    requires size > 0 && Runs(Initial(size), steps)
    requires id in Exec(Initial(size), steps).conns
    ensures var p := Exec(Initial(size), steps);
            var c := p.conns[id];
            && Ascending(c.progress.written)
            && (forall m | m in c.progress.written ::
                  m in p.log && c.scope.Wants(m) && m.revision > c.lastRev)
  {
    RunKeepsInv(Initial(size), steps);
    WrittenIsSound(Exec(Initial(size), steps), id);
  }

  lemma {:induction false} WrittenIsSound(p: Pipeline, id: nat)
    requires Inv(p) && id in p.conns
    ensures var c := p.conns[id];
            && Ascending(c.progress.written)
            && (forall m | m in c.progress.written ::
                  m in p.log && c.scope.Wants(m) && m.revision > c.lastRev)
  {
    var c := p.conns[id];
    assert ConnInv(p, c, id in p.busy);
    if !c.phase.Joined? {
      TargetIsSound(p.log, c);
      PrefixOf(c.progress.written, Backlog(c), Target(p.log, c));
    }
  }

  lemma {:induction false} PartsAscend(log: seq<Message>, i: nat, j: nat, k: nat)
    requires Ascending(log) && i <= j <= k <= |log|
    ensures Ascending(log[..i] + log[j..k])
    ensures forall m | m in log[..i] + log[j..k] :: m in log
  {
  }

  lemma {:induction false} TargetIsSound(log: seq<Message>, c: Conn)
    requires LiveTo(c) <= |log| && c.readAt <= |log| && Ascending(log)
    ensures Ascending(Target(log, c))
    ensures forall m | m in Target(log, c) :: m in log && c.scope.Wants(m) && m.revision > c.lastRev
  {
    var part := log[..c.readAt] + if c.link.Queued? then [] else log[LiveFrom(c)..LiveTo(c)];
    PartsAscend(log, c.readAt, LiveFrom(c), LiveTo(c));
    PartsAscend(log, c.readAt, c.readAt, c.readAt);
    assert log[c.readAt..c.readAt] == [];
    hide Ascending, Target;
    TargetIsOneSelection(log, c);
    SelectAscending(part, c.scope, c.lastRev);
    SelectSound(part, c.scope, c.lastRev);
  }

  lemma {:induction false} PrefixOf(a: seq<Message>, b: seq<Message>, whole: seq<Message>)
    requires a + b == whole && Ascending(whole)
    ensures a == whole[..|a|] && Ascending(a)
    ensures forall m | m in a :: m in whole
  {
    assert forall i | 0 <= i < |a| :: a[i] == whole[i];
  }

  /** The stretch of the log the connection never sees: read too early, registered too late. */
  function Missed(log: seq<Message>, c: Conn): seq<Message>
    requires LiveFrom(c) <= |log|
  {
    Select(log[c.readAt..LiveFrom(c)], c.scope, c.lastRev)
  }

  /** What a served and registered connection writes, and exactly what it misses. */
  lemma {:induction false} DeliveryIsExact(p: Pipeline, id: nat)
    requires Inv(p) && id in p.conns && !p.conns[id].phase.Joined? && !p.conns[id].link.Queued?
    ensures var c := p.conns[id];
            && c.readAt <= |p.log| && LiveTo(c) <= |p.log|
            && c.progress.written + Backlog(c) == Target(p.log, c)
            && (Target(p.log, c) == Select(p.log[..LiveTo(c)], c.scope, c.lastRev) <==> Missed(p.log, c) == [])
            && (Missed(p.log, c) == [] ==> c.progress.written <= Select(p.log, c.scope, c.lastRev))
  {
    var c := p.conns[id];
    assert ConnInv(p, c, id in p.busy);
    SelectExtends(p.log, c.readAt, LiveFrom(c), c.scope, c.lastRev);
    SelectExtends(p.log, LiveFrom(c), LiveTo(c), c.scope, c.lastRev);
    SelectExtends(p.log, LiveTo(c), |p.log|, c.scope, c.lastRev);
    assert p.log[..|p.log|] == p.log;
    var early := Select(p.log[..c.readAt], c.scope, c.lastRev);
    var late := Select(p.log[LiveFrom(c)..LiveTo(c)], c.scope, c.lastRev);
    assert Select(p.log[..LiveTo(c)], c.scope, c.lastRev) == early + Missed(p.log, c) + late;
    if Missed(p.log, c) == [] {
      assert early + [] == early;
    } else {
      assert |early + late| < |early + Missed(p.log, c) + late|;
    }
  }

  lemma {:induction false} ReadIsInLog(p: Pipeline, id: nat)
    requires Inv(p) && id in p.conns
    ensures p.conns[id].readAt <= LiveFrom(p.conns[id]) <= LiveTo(p.conns[id])
    ensures p.conns[id].readAt <= |p.log|
  {
    hide QueueFromLog, Threshold, Target, Backlog;
    assert Bounds(p, p.conns[id], id in p.busy);
  }

  /** The delivery guarantee: when the hub took the Register before the compensation read and that
      read was served, the connection has written a prefix of the wanted events newer than the
      requested revision; once its channel is drained it has written all of those up to where the hub
      got with it, which for a client still in the hub is everything the hub has broadcast. A client
      dropped in mid-run is no exception. */
  lemma {:induction false} NoGaps(size: nat, steps: seq<Step>, id: nat)
    requires size > 0 && Runs(Initial(size), steps)
    requires id in Exec(Initial(size), steps).conns
    requires var c := Exec(Initial(size), steps).conns[id]; c.registeredFirst && !c.progress.reset
    ensures var p := Exec(Initial(size), steps);
            var c := p.conns[id];
            && LiveTo(c) <= |p.log|
            && c.progress.written <= Select(p.log, c.scope, c.lastRev)
            && (Backlog(c) == [] ==> c.progress.written == Select(p.log[..LiveTo(c)], c.scope, c.lastRev))
            && (c.link.In? && id !in p.busy ==> LiveTo(c) >= p.taken)
  {
    RunKeepsInv(Initial(size), steps);
    var p := Exec(Initial(size), steps);
    var c := p.conns[id];
    assert ConnInv(p, c, id in p.busy);
    assert LiveFrom(c) == c.readAt && p.log[c.readAt..LiveFrom(c)] == [];
    DeliveryIsExact(p, id);
  }

  // ----- a server that has been restarted -----

  /** `before` are the events etcd had when the server loaded its cache; its ring starts empty. A
      connection writes everything wanted and newer of both parts exactly when it misses nothing of
      the second and there was nothing for it in the first. */
  lemma {:induction false} DeliveryAfterRestart(p: Pipeline, id: nat, before: seq<Message>)
    requires Inv(p) && id in p.conns && !p.conns[id].phase.Joined? && !p.conns[id].link.Queued?
    ensures var c := p.conns[id];
            && LiveTo(c) <= |p.log|
            && (c.progress.written + Backlog(c) == Select(before + p.log[..LiveTo(c)], c.scope, c.lastRev)
                <==> Missed(p.log, c) == [] && Select(before, c.scope, c.lastRev) == [])
  {
    var c := p.conns[id];
    DeliveryIsExact(p, id);
    SelectConcat(before, p.log[..LiveTo(c)], c.scope, c.lastRev);
    TargetLacksMissed(p.log, c);
    var forgotten, rest := Select(before, c.scope, c.lastRev), Select(p.log[..LiveTo(c)], c.scope, c.lastRev);
    assert [] + rest == rest;
    assert |forgotten + rest| == |forgotten| + |rest|;
  }

  lemma {:induction false} TargetLacksMissed(log: seq<Message>, c: Conn)
    requires c.readAt <= |log| && LiveTo(c) <= |log| && !c.link.Queued?
    ensures |Target(log, c)| + |Missed(log, c)| == |Select(log[..LiveTo(c)], c.scope, c.lastRev)|
  {
    SelectExtends(log, c.readAt, LiveFrom(c), c.scope, c.lastRev);
    SelectExtends(log, LiveFrom(c), LiveTo(c), c.scope, c.lastRev);
  }

  /** A connection served by a ring that already held something, or by a client that had seen the
      last event before the restart, finds nothing for it before the restart. */
  lemma {:induction false} NothingForgotten(p: Pipeline, id: nat, before: seq<Message>)
    requires Inv(p) && id in p.conns && Ascending(before + p.log)
    requires p.conns[id].readAt > 0 || before == [] || before[|before| - 1].revision <= p.conns[id].lastRev
    ensures Select(before, p.conns[id].scope, p.conns[id].lastRev) == []
  {
    var c := p.conns[id];
    if c.readAt > 0 {
      RecentRead(p, id);
    }
    hide Inv;
    EarlierIsOlder(before, p.log, c.lastRev);
    SelectNothing(before, c.scope, c.lastRev);
  }

  lemma {:induction false} RecentRead(p: Pipeline, id: nat)
    requires Inv(p) && id in p.conns && p.conns[id].readAt > 0
    ensures p.log != [] && p.log[0].revision <= p.conns[id].lastRev
  {
    hide QueueFromLog, Threshold, Target, Backlog;
    assert Bounds(p, p.conns[id], id in p.busy);
  }

  lemma {:induction false} EarlierIsOlder(before: seq<Message>, since: seq<Message>, rev: int)
    requires Ascending(before + since)
    requires before == [] || before[|before| - 1].revision <= rev || (since != [] && since[0].revision <= rev)
    ensures forall m | m in before :: m.revision <= rev
  {
    var whole := before + since;
    forall i | 0 <= i < |before|
      ensures before[i].revision <= rev
    {
      assert whole[i] == before[i] && whole[|before| - 1] == before[|before| - 1];
      assert since != [] ==> whole[|before|] == since[0];
    }
  }

  /** The delivery guarantee across a restart. */
  lemma {:induction false} NoGapsAfterRestart(size: nat, steps: seq<Step>, id: nat, before: seq<Message>)
    requires size > 0 && Runs(Initial(size), steps)
    requires id in Exec(Initial(size), steps).conns && Ascending(before + Exec(Initial(size), steps).log)
    requires var c := Exec(Initial(size), steps).conns[id];
             && c.registeredFirst && !c.progress.reset
             && (c.readAt > 0 || before == [] || before[|before| - 1].revision <= c.lastRev)
    ensures var p := Exec(Initial(size), steps);
            var c := p.conns[id];
            && LiveTo(c) <= |p.log|
            && c.progress.written <= Select(before + p.log, c.scope, c.lastRev)
            && (Backlog(c) == [] ==>
                  c.progress.written == Select(before + p.log[..LiveTo(c)], c.scope, c.lastRev))
            && (c.link.In? && id !in p.busy ==> LiveTo(c) >= p.taken)
  {
    NoGaps(size, steps, id);
    RunKeepsInv(Initial(size), steps);
    var p := Exec(Initial(size), steps);
    var c := p.conns[id];
    NothingForgotten(p, id, before);
    SelectConcat(before, p.log, c.scope, c.lastRev);
    SelectConcat(before, p.log[..LiveTo(c)], c.scope, c.lastRev);
    assert [] + Select(p.log, c.scope, c.lastRev) == Select(p.log, c.scope, c.lastRev);
    assert [] + Select(p.log[..LiveTo(c)], c.scope, c.lastRev) == Select(p.log[..LiveTo(c)], c.scope, c.lastRev);
  }

  /** A client connects, its stream reads the ring, an event passes through the hub, and only then
      does the hub take the Register. */
  function LateRegister(m: Message, scope: Scope): seq<Step> {
    [Connect(0, scope, 0, 128)] + ([Compensate(0)] + [Publish(m), Buffer, TakeBroadcast, HubRegister(0)])
  }

  function TooLate(scope: Scope): Conn {
    Conn(scope, 0, 128, In, Live, [], Progress(0, [], false), 1, 1, 0, false)
  }

  /** Enqueuing a client is not registering it: an event that passes through the hub between the
      compensation read and the Register is never delivered, on a connection that stays open. */
  lemma {:induction false} RegisteredTooLate(m: Message)
    requires !m.IsPing() && m.revision > 0 && m.env != ""
    ensures var scope := Scope(m.env, {m.namespace});
            && Runs(Initial(1000), LateRegister(m, scope))
            && Exec(Initial(1000), LateRegister(m, scope)) == Pipeline([m], 1000, 1, 1, {}, map[0 := TooLate(scope)])
            && Select([m], scope, 0) == [m]
  {
    var scope := Scope(m.env, {m.namespace});
    var queued := Conn(scope, 0, 128, Queued, Live, [], Progress(0, [], false), 0, 0, 0, false);
    var steps := [Publish(m), Buffer, TakeBroadcast, HubRegister(0)];
    PassingBy(m, queued, steps);
    var joined := Conn(scope, 0, 128, Queued, Joined, [], Opened(0), 0, 0, 0, false);
    var p := Pipeline([], 1000, 0, 0, {}, map[0 := joined]);
    assert p.log[..0] == [] && Compensated(p, joined) == queued;
    assert Next(p, Compensate(0)) == Pipeline([], 1000, 0, 0, {}, map[0 := queued]);
    Then(p, Compensate(0), steps);
    assert Next(Initial(1000), Connect(0, scope, 0, 128)) == p;
    Then(Initial(1000), Connect(0, scope, 0, 128), [Compensate(0)] + steps);
    SelectOne(m, scope, 0);
  }

  function OneMore(m: Message): seq<Step> {
    [Publish(m)] + ([Buffer] + ([TakeBroadcast] + ([SendTo(0)] + [Receive(0)])))
  }

  /** The next event arrives as if nothing had happened. */
  lemma {:induction false} OneMoreArrives(m1: Message, m2: Message)
    requires !m2.IsPing() && 0 < m1.revision < m2.revision && m1.env == m2.env && m1.namespace == m2.namespace
    ensures var c := TooLate(Scope(m1.env, {m1.namespace}));
            var p := Pipeline([m1], 1000, 1, 1, {}, map[0 := c]);
            && Runs(p, OneMore(m2))
            && Exec(p, OneMore(m2))
               == Pipeline([m1] + [m2], 1000, 2, 2, {},
                           map[0 := c.(upTo := 2, progress := Progress(m2.revision, [m2], false))])
  {
    var c := TooLate(Scope(m1.env, {m1.namespace}));
    var log := [m1] + [m2];
    var sent := c.(queue := [m2], upTo := 2);
    SendTaken(log, c, sent, m2);
    assert Next(Pipeline(log, 1000, 2, 1, {}, map[0 := c]), TakeBroadcast) == Pipeline(log, 1000, 2, 2, {0}, map[0 := c]);
    hide Next, Exec, Runs;
    AddAndTake(log, m1, m2, c);
    Then(Pipeline(log, 1000, 2, 1, {}, map[0 := c]), TakeBroadcast, [SendTo(0)] + [Receive(0)]);
    Then(Pipeline(log, 1000, 1, 1, {}, map[0 := c]), Buffer, [TakeBroadcast] + ([SendTo(0)] + [Receive(0)]));
    Then(Pipeline([m1], 1000, 1, 1, {}, map[0 := c]), Publish(m2),
         [Buffer] + ([TakeBroadcast] + ([SendTo(0)] + [Receive(0)])));
  }

  lemma {:induction false} AddAndTake(log: seq<Message>, m1: Message, m2: Message, c: Conn)
    requires log == [m1] + [m2] && !m2.IsPing() && m1.revision < m2.revision
    ensures var p, q := Pipeline([m1], 1000, 1, 1, {}, map[0 := c]), Pipeline(log, 1000, 1, 1, {}, map[0 := c]);
            && Enabled(p, Publish(m2)) && Next(p, Publish(m2)) == q
            && Enabled(q, Buffer) && Next(q, Buffer) == Pipeline(log, 1000, 2, 1, {}, map[0 := c])
  {
  }

  lemma {:induction false} SendTaken(log: seq<Message>, c: Conn, sent: Conn, m: Message)
    requires |log| == 2 && log[1] == m && !m.IsPing() && m.revision > 0
    requires c == TooLate(c.scope) && c.scope.Wants(m) && sent == c.(queue := [m], upTo := 2)
    ensures var p := Pipeline(log, 1000, 2, 2, {0}, map[0 := c]);
            && Runs(p, [SendTo(0)] + [Receive(0)])
            && Exec(p, [SendTo(0)] + [Receive(0)])
               == Pipeline(log, 1000, 2, 2, {}, map[0 := sent.(queue := [], progress := Progress(m.revision, [m], false))])
  {
    var p, q := Pipeline(log, 1000, 2, 2, {0}, map[0 := c]), Pipeline(log, 1000, 2, 2, {}, map[0 := sent]);
    assert [] + [m] == [m] && [m][1..] == [];
    assert Next(p, SendTo(0)) == q;
    Then(q, Receive(0), []);
    Then(p, SendTo(0), [Receive(0)]);
  }

  lemma {:induction false} PassingBy(m: Message, c: Conn, steps: seq<Step>)
    requires !m.IsPing() && c.link.Queued?
    requires steps == [Publish(m), Buffer, TakeBroadcast, HubRegister(0)]
    ensures var p := Pipeline([], 1000, 0, 0, {}, map[0 := c]);
            && Runs(p, steps)
            && Exec(p, steps) == Pipeline([m], 1000, 1, 1, {}, map[0 := c.(link := In, joinedAt := 1, upTo := 1)])
  {
    Then(Pipeline([m], 1000, 1, 1, {}, map[0 := c]), HubRegister(0), []);
    Then(Pipeline([m], 1000, 1, 0, {}, map[0 := c]), TakeBroadcast, [HubRegister(0)]);
    Then(Pipeline([m], 1000, 0, 0, {}, map[0 := c]), Buffer, [TakeBroadcast, HubRegister(0)]);
    Then(Pipeline([], 1000, 0, 0, {}, map[0 := c]), Publish(m), [Buffer, TakeBroadcast, HubRegister(0)]);
  }

  lemma {:induction false} Then(p: Pipeline, s: Step, rest: seq<Step>)
    requires Sane(p) && Enabled(p, s) && Runs(Next(p, s), rest)
    ensures Runs(p, [s] + rest) && Exec(p, [s] + rest) == Exec(Next(p, s), rest)
  {
    assert ([s] + rest)[1..] == rest;
  }

  // ----- one broadcast of the hub -----

  /** The hub's sends of one broadcast, in the order its maps yield the clients. */
  function Sends(ids: seq<nat>): seq<Step> {
    if ids == [] then [] else [SendTo(ids[0])] + Sends(ids[1..])
  }

  ghost predicate Distinct(ids: seq<nat>) {
    forall i, j | 0 <= i < j < |ids| :: ids[i] != ids[j]
  }

  /** The sends can be made in any order, and each client comes out as if it were the only one. */
  lemma {:induction false} SendsServe(p: Pipeline, ids: seq<nat>)
    requires Sane(p) && Distinct(ids) && forall id | id in ids :: id in p.busy
    ensures Runs(p, Sends(ids))
    ensures var q := Exec(p, Sends(ids));
            && q == p.(conns := q.conns, busy := q.busy) && q.conns.Keys == p.conns.Keys
            && (forall id | id in p.conns ::
                  q.conns[id] == if id in ids then Served(p.conns[id], p.log[p.taken - 1]) else p.conns[id])
            && q.busy == set id | id in p.busy && id !in ids
    decreases |ids|
  {
    if ids != [] {
      hide Served, Distinct;
      var p1, rest := Next(p, SendTo(ids[0])), ids[1..];
      RestIsDistinct(ids);
      SendsServe(p1, rest);
      Then(p, SendTo(ids[0]), Sends(rest));
    }
  }

  lemma {:induction false} RestIsDistinct(ids: seq<nat>)
    requires ids != [] && Distinct(ids)
    ensures Distinct(ids[1..]) && ids[0] !in ids[1..]
    ensures forall id :: id in ids <==> id == ids[0] || id in ids[1..]
  {
    assert ids == [ids[0]] + ids[1..];
  }

  /** The connections and the plain hub's world describe the same clients. */
  ghost predicate SameClients(conns: map<nat, Conn>, w: Hub.World, handle: nat -> Hub.Client) {
    && (forall i, j | i in conns && j in conns && handle(i) == handle(j) :: i == j)
    && (forall id | id in conns ::
          && handle(id).scope == conns[id].scope && handle(id).capacity == conns[id].capacity
          && (handle(id) in w.clients <==> conns[id].link == In)
          && handle(id) in w.queues && w.queues[handle(id)] == conns[id].queue)
  }

  /** The sends of one broadcast, in whatever order, do to the connections what the plain hub's
      broadcast does to its clients, and with it the sharded hub's. */
  lemma {:induction false} SendsAreBroadcast(p: Pipeline, ids: seq<nat>, w: Hub.World, handle: nat -> Hub.Client)
    requires Sane(p) && p.taken > 0 && Distinct(ids)
    requires forall id :: id in ids <==> id in p.busy
    requires forall id | id in p.conns :: id in p.busy <==> p.conns[id].link == In
    requires SameClients(p.conns, w, handle)
    ensures Runs(p, Sends(ids)) && Exec(p, Sends(ids)).busy == {}
    ensures SameClients(Exec(p, Sends(ids)).conns, Hub.After(w, Hub.Broadcast(p.log[p.taken - 1])), handle)
  {
    SendsServe(p, ids);
    var q, m := Exec(p, Sends(ids)), p.log[p.taken - 1];
    var w' := Hub.Sent(w, Hub.Receivers(w.clients, m), m);
    forall id | id in p.conns
      ensures handle(id) in w'.clients <==> q.conns[id].link == In
      ensures w'.queues[handle(id)] == q.conns[id].queue
    {
      assert handle(id) in Hub.Receivers(w.clients, m) <==> id in ids && p.conns[id].scope.Routes(m);
    }
  }
}
