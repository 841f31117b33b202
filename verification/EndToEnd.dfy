/** From MySQL to the SDK: the event log the synchronisation produces, the stream that carries it, and
    what the client ends up showing. */
module EndToEnd {
  import opened Model
  import opened EventLog
  import opened FeatureCache
  import opened FeatureWatcher
  import opened FeatureKey
  import opened SdkClient
  import opened ServerSnapshot
  import opened ClientStream
  import FeatureStore
  import StreamHandler
  import Etcd
  import Cas = CasProtocol
  import Sync = SyncSystem
  import Pipe = WatchPipeline
  import Client = ClientSystem

  // ----- one connection and its client -----

  /** Whatever the interleaving of watcher, hub and stream, and however long before the server was
      restarted: `before` are the events etcd had when this server loaded its cache. A client that
      agrees with its scope's events at the revision it connects with agrees with them after
      everything the connection has written, provided the hub took the Register before the ring was
      read, the read was served, and the ring held something or the client had seen the last event
      before the restart. When the connection has been through the whole log the client shows all. */
  lemma {:induction false} StreamKeepsAgreement(size: nat, steps: seq<Pipe.Step>, id: nat, before: seq<Message>,
        mem: Memory)
    requires size > 0 && Pipe.Runs(Pipe.Initial(size), steps) && id in Pipe.Exec(Pipe.Initial(size), steps).conns
    requires var p := Pipe.Exec(Pipe.Initial(size), steps);
             var c := p.conns[id];
             && Ascending(before + p.log)
             && c.registeredFirst && !c.progress.reset
             && (c.readAt > 0 || before == [] || before[|before| - 1].revision <= c.lastRev)
             && mem.lastRev == c.lastRev && Agrees(mem, Wanted(before + p.log, c.scope))
    ensures var p := Pipe.Exec(Pipe.Initial(size), steps);
            var c := p.conns[id];
            var mem' := HandledAll(mem, c.progress.written);
            && Agrees(mem', Wanted(before + p.log, c.scope))
            && (Pipe.Backlog(c) == [] && Pipe.LiveTo(c) == |p.log| ==>
                  Observed(mem'.features) == Replay(map[], Wanted(before + p.log, c.scope)))
  {
    hide Agrees;
    Pipe.NoGapsAfterRestart(size, steps, id, before);
    var p := Pipe.Exec(Pipe.Initial(size), steps);
    assert p.log[..|p.log|] == p.log;
    PrefixKeepsAgreement(mem, before + p.log, p.conns[id].scope, p.conns[id].progress.written);
  }

  /** A client of the client model that is caught up agrees with its log, whatever it has been through:
      it may then connect under the promise above. */
  lemma {:induction false} CaughtUpClientAgrees(steps: seq<Client.Step>)
    requires Client.Runs(Client.Initial(), steps) && Client.Exec(Client.Initial(), steps).client.Some?
    ensures var p := Client.Exec(Client.Initial(), steps);
            var c := p.client.value;
            && c.track.base <= |p.log| && c.track.from <= c.track.at <= |p.log|
            && (forall i | i in c.track.skipped :: c.track.from <= i < c.track.at)
            && (Client.CaughtUp(p.log, c.track) ==> Agrees(c.mem, p.log))
  {
    Client.ClientFollowsLog(steps);
  }

  // ----- every connection is a walk of the client model -----

  /** The scope's events newer than the connection's revision, as the connection meets them: those
      from before the restart, those of the ring, those passed over before the hub took the Register,
      those of the channel, and those not yet broadcast. */
  lemma {:induction false} FivePieces(before: seq<Message>, log: seq<Message>, c: Pipe.Conn)
    requires c.readAt <= |log| && Pipe.LiveTo(c) <= |log| && !c.link.Queued?
    ensures Select(before + log, c.scope, c.lastRev)
         == Select(before, c.scope, c.lastRev) + Select(log[..c.readAt], c.scope, c.lastRev) + Pipe.Missed(log, c)
            + Select(log[Pipe.LiveFrom(c)..Pipe.LiveTo(c)], c.scope, c.lastRev)
            + Select(log[Pipe.LiveTo(c)..], c.scope, c.lastRev)
    ensures Pipe.Target(log, c)
         == Select(log[..c.readAt], c.scope, c.lastRev)
            + Select(log[Pipe.LiveFrom(c)..Pipe.LiveTo(c)], c.scope, c.lastRev)
  {
    SelectConcat(before, log, c.scope, c.lastRev);
    SelectExtends(log, c.readAt, Pipe.LiveFrom(c), c.scope, c.lastRev);
    SelectExtends(log, Pipe.LiveFrom(c), Pipe.LiveTo(c), c.scope, c.lastRev);
    SelectExtends(log, Pipe.LiveTo(c), |log|, c.scope, c.lastRev);
    assert log[..|log|] == log;
    RegroupPieces(Select(before, c.scope, c.lastRev), Select(log[..c.readAt], c.scope, c.lastRev), Pipe.Missed(log, c),
                  Select(log[Pipe.LiveFrom(c)..Pipe.LiveTo(c)], c.scope, c.lastRev),
                  Select(log[Pipe.LiveTo(c)..], c.scope, c.lastRev));
  }

  /** Every connection that was served and registered, whatever it missed, does to its client what a
      walk of the client model does: it passes over exactly the events from before the restart and
      those that went by before the Register was taken. */
  lemma {:induction false} ConnectionIsWalk(pipe: Pipe.Pipeline, id: nat, before: seq<Message>, p: Client.System)
    returns (walk: seq<Client.Step>)
    requires Pipe.Inv(pipe) && id in pipe.conns && Ascending(before + pipe.log)
    requires !pipe.conns[id].phase.Joined? && !pipe.conns[id].link.Queued?
    requires Client.Inv(p) && p.client.Some? && p.client.value.conn.None?
    requires p.log == Wanted(before + pipe.log, pipe.conns[id].scope) && p.cached == |p.log|
    requires p.client.value.mem.lastRev == pipe.conns[id].lastRev
    ensures Client.Runs(p, walk) && Client.Exec(p, walk).client.Some?
    ensures Client.Exec(p, walk).client.value.mem == HandledAll(p.client.value.mem, pipe.conns[id].progress.written)
    ensures var c := pipe.conns[id];
            var forgotten, early := |Select(before, c.scope, c.lastRev)|, |Select(pipe.log[..c.readAt], c.scope, c.lastRev)|;
            var n := |c.progress.written|;
            walk == if n <= early then Walk(forgotten, n, 0, 0)
                    else Walk(forgotten, early, |Pipe.Missed(pipe.log, c)|, n - early)
  {
    hide *;
    var c := pipe.conns[id];
    ConnectionPieces(pipe, id, before, p);
    walk := WrittenIsWalk(p, Select(before, c.scope, c.lastRev), Select(pipe.log[..c.readAt], c.scope, c.lastRev),
                          Pipe.Missed(pipe.log, c),
                          Select(pipe.log[Pipe.LiveFrom(c)..Pipe.LiveTo(c)], c.scope, c.lastRev),
                          c.progress.written, Pipe.Backlog(c));
  }

  ghost predicate Leaves(p: Client.System, mem: Memory) {
    p.client.Some? && p.client.value.mem == mem
  }

  /** The refetch, if the server can give this answer now, leaves the client with this memory. */
  ghost predicate RefetchLeaves(p: Client.System, r: Response, position: nat, mem: Memory) {
    Client.Enabled(p, Client.Refetch(r, position)) ==> Leaves(Client.Next(p, Client.Refetch(r, position)), mem)
  }

  /** The client's watch loop on such a connection, pings and garbage among its messages, is that walk; and
      a reset is the walk and then a refetch. */
  lemma {:induction false} WatchIsWalk(pipe: Pipe.Pipeline, id: nat, before: seq<Message>, p: Client.System,
        events: seq<StreamEvent>, response: Option<Response>, position: nat)
    returns (walk: seq<Client.Step>)
    requires Pipe.Inv(pipe) && id in pipe.conns && Ascending(before + pipe.log)
    requires !pipe.conns[id].phase.Joined? && !pipe.conns[id].link.Queued?
    requires Client.Inv(p) && p.client.Some? && p.client.value.conn.None?
    requires p.log == Wanted(before + pipe.log, pipe.conns[id].scope) && p.cached == |p.log|
    requires p.client.value.mem.lastRev == pipe.conns[id].lastRev
    requires Updates(events) == pipe.conns[id].progress.written
    ensures Client.Runs(p, walk)
    ensures var mem := Consumed(p.client.value.mem, events, response);
            if Reset in events && response.Some? then RefetchLeaves(Client.Exec(p, walk), response.value, position, mem)
            else Leaves(Client.Exec(p, walk), mem)
  {
    hide Client.Runs, Client.Exec, Client.Inv, Pipe.Inv, Wanted, Ascending, HandledAll, Consumed, Updates, Fetched;
    walk := ConnectionIsWalk(pipe, id, before, p);
    ConsumedIsHandled(p.client.value.mem, events, response);
  }

  lemma {:induction false} ConnectionPieces(pipe: Pipe.Pipeline, id: nat, before: seq<Message>, p: Client.System)
    requires Pipe.Inv(pipe) && id in pipe.conns && Ascending(before + pipe.log)
    requires !pipe.conns[id].phase.Joined? && !pipe.conns[id].link.Queued?
    requires Client.Inv(p) && p.client.Some?
    requires p.log == Wanted(before + pipe.log, pipe.conns[id].scope)
    requires p.client.value.mem.lastRev == pipe.conns[id].lastRev
    ensures var c := pipe.conns[id];
            && c.readAt <= |pipe.log| && Pipe.LiveFrom(c) <= Pipe.LiveTo(c) <= |pipe.log|
            && var forgotten := Select(before, c.scope, c.lastRev);
               var early := Select(pipe.log[..c.readAt], c.scope, c.lastRev);
               var missed := Pipe.Missed(pipe.log, c);
               var live := Select(pipe.log[Pipe.LiveFrom(c)..Pipe.LiveTo(c)], c.scope, c.lastRev);
               && c.progress.written + Pipe.Backlog(c) == early + live
               && var i := p.client.value.track.at + |forgotten|;
                  var j := i + |early| + |missed|;
                  && j + |live| <= |p.log| && p.log[i..i + |early|] == early && p.log[j..j + |live|] == live
  {
    hide *;
    var c := pipe.conns[id];
    Pipe.DeliveryIsExact(pipe, id);
    Pipe.ReadIsInLog(pipe, id);
    AtIsPosition(p);
    PiecesInOrder(before, pipe.log, c, p.log);
  }

  lemma {:induction false} PiecesInOrder(before: seq<Message>, log: seq<Message>, c: Pipe.Conn, own: seq<Message>)
    requires Ascending(before + log) && own == Wanted(before + log, c.scope)
    requires c.readAt <= |log| && Pipe.LiveTo(c) <= |log| && !c.link.Queued?
    ensures var early := Select(log[..c.readAt], c.scope, c.lastRev);
            var missed := Pipe.Missed(log, c);
            var live := Select(log[Pipe.LiveFrom(c)..Pipe.LiveTo(c)], c.scope, c.lastRev);
            && Pipe.Target(log, c) == early + live
            && var i := Client.Position(own, c.lastRev) + |Select(before, c.scope, c.lastRev)|;
               var j := i + |early| + |missed|;
               && j + |live| <= |own| && own[i..i + |early|] == early && own[j..j + |live|] == live
  {
    hide Select, Wanted, Pipe.Target, Pipe.Missed, Client.Position, Ascending;
    FivePieces(before, log, c);
    SelectIsSuffix(before + log, c.scope, c.lastRev);
    PieceAt(own, Client.Position(own, c.lastRev), Select(before, c.scope, c.lastRev),
            Select(log[..c.readAt], c.scope, c.lastRev), Pipe.Missed(log, c),
            Select(log[Pipe.LiveFrom(c)..Pipe.LiveTo(c)], c.scope, c.lastRev),
            Select(log[Pipe.LiveTo(c)..], c.scope, c.lastRev));
  }

  // ----- an event missed for good -----

  /** A new client, a late registration, and one more event: the client takes the second event for
      granted, never sees the first, and disagrees with the log it has been through. */
  lemma {:induction false} MissedEventMisleads(m1: Message, m2: Message)
    requires !m1.IsPing() && !m2.IsPing() && m1.action == Put && m2.action == Put && 0 < m1.revision < m2.revision
    requires m1.env == m2.env != "" && m1.namespace == m2.namespace && m1.key != m2.key
    ensures var scope := Scope(m1.env, {m1.namespace});
            && Pipe.Runs(Pipe.Initial(1000), Pipe.LateRegister(m1, scope))
            && var p := Pipe.Exec(Pipe.Initial(1000), Pipe.LateRegister(m1, scope));
               && Pipe.Runs(p, Pipe.OneMore(m2))
               && var q := Pipe.Exec(p, Pipe.OneMore(m2));
                  && q.log == [m1, m2] && 0 in q.conns && Pipe.Backlog(q.conns[0]) == []
                  && Agrees(FRESH, Wanted(q.log, scope))
                  && !Agrees(HandledAll(FRESH, q.conns[0].progress.written), Wanted(q.log, scope))
  {
    var scope := Scope(m1.env, {m1.namespace});
    Pipe.RegisteredTooLate(m1);
    Pipe.OneMoreArrives(m1, m2);
    assert [m1, m2][..1] == [m1] && [m1][..0] == [] && [m2][..0] == [];
    assert Wanted([m1], scope) == [m1] && Wanted([m1, m2], scope) == [m1, m2];
    TwoPositions(m1, m2);
    assert HandledAll(FRESH, [m2]) == Handled(FRESH, m2);
    assert Replay(map[], [m1]) == map[m1.key := m1.Content()];
    assert m1.key in Replay(map[], [m1, m2]);
    assert m1.key !in Observed(Handled(FRESH, m2).features);
  }

  // ----- from MySQL to the client -----

  /** In every run, saves racing or lost, the announced log is a put-only log with ascending
      revisions, in which the versions of each feature ascend. */
  lemma {:induction false} EtcdLogIsOrderly(seeds: map<FeatureId, FeatureStore.Master>, steps: seq<Sync.Step>)
    requires Sync.Runs(Sync.Initial(seeds), steps)
    ensures var log := Announced(Events(Sync.Exec(Sync.Initial(seeds), steps).cas.store.log));
            && Ascending(log) && PutOnly(log)
            && (forall i, j | 0 <= i < j < |log| && log[i].Id() == log[j].Id() :: log[i].version < log[j].version)
  {
    hide *;
    Sync.Reachable(seeds, steps);
    var p := Sync.Exec(Sync.Initial(seeds), steps);
    StoreLogIsOrderly(p.db, p.cas.store);
  }

  lemma {:induction false} StoreLogIsOrderly(db: FeatureStore.Db, store: Etcd.Store)
    requires Sync.EventsOk(db, store)
    ensures var log := Announced(Events(store.log));
            && Ascending(log) && PutOnly(log)
            && (forall i, j | 0 <= i < j < |log| && log[i].Id() == log[j].Id() :: log[i].version < log[j].version)
  {
    AnnouncedOfWrites(store.log);
    hide Announced, Events;
    var log := Announced(Events(store.log));
    forall i, j | 0 <= i < j < |log| && log[i].Id() == log[j].Id()
      ensures log[i].version < log[j].version
    {
      assert store.log[i].key == store.log[j].key;
    }
  }

  /** What etcd lists, in whatever order, is a load of everything it ever wrote; and where every
      feature owns its key the writes meet the assumptions of the snapshot. */
  lemma {:induction false} ListingIsLoad(db: FeatureStore.Db, store: Etcd.Store, kvs: seq<Kv>)
    requires Sync.EventsOk(db, store)
    requires forall kv :: kv in kvs ==> kv.payload.Some? && Etcd.Read(store, kv.fullKey) == Some(Etcd.Entry(kv.payload, kv.modRevision))
    requires forall key | key in store.data :: HasKey(kvs, key)
    ensures LoadedFrom(kvs, store.log)
    ensures (forall w | w in store.log :: OwnsKey(w.flag.Id())) ==> WritesOk(store.log)
  {
    forall kv | kv in kvs
      ensures Cas.LastWrite(store.log, kv.fullKey, None) == Some(Etcd.Entry(kv.payload, kv.modRevision))
    {
      assert Etcd.Read(store, kv.fullKey) == Cas.LastWrite(store.log, kv.fullKey, Etcd.Read(Sync.EMPTY_STORE, kv.fullKey));
    }
    forall w | w in store.log
      ensures HasKey(kvs, w.key)
    {
      var i :| 0 <= i < |store.log| && store.log[i] == w;
      LastOfIsLast(store.log, i);
      assert Etcd.Read(store, w.key) == Cas.LastWrite(store.log, w.key, Etcd.Read(Sync.EMPTY_STORE, w.key));
    }
  }

  /** Nobody else in the scope uses the short key. */
  ghost predicate AloneInScope(writes: seq<Etcd.Write>, scope: Scope, id: FeatureId) {
    forall w | w in writes && w.flag.key == id.key && Covers(scope, w.flag) :: w.flag.Id() == id
  }

  /** The last message about a feature is the entry etcd holds for it. */
  lemma {:induction false} LastMessageIsLastWrite(writes: seq<Etcd.Write>, scope: Scope, id: FeatureId)
    requires OwnsKey(id) && id.env == scope.env && id.namespace in scope.namespaces && AloneInScope(writes, scope, id)
    requires forall w | w in writes :: w.key == BuildFeatureKey(w.flag.Id())
    ensures LastIn(writes, scope, id.key) == LastOf(writes, BuildFeatureKey(id))
  {
    hide BuildFeatureKey;
    var i, j := LastIn(writes, scope, id.key), LastOf(writes, BuildFeatureKey(id));
    if i >= 0 {
      assert writes[i] in writes;
      LastOfIsLast(writes, i);
    }
    if j >= 0 {
      assert writes[j] in writes;
      LastInIsLast(writes, scope, j);
    }
  }

  /** What a client shows that has replayed every announced event of its scope: for each feature
      that owns its etcd key and its short key, exactly etcd's entry. */
  lemma {:induction false} ReplayShowsEtcd(p: Sync.System, scope: Scope, id: FeatureId)
    requires Sync.EventsOk(p.db, p.cas.store)
    requires OwnsKey(id) && id.env == scope.env && id.namespace in scope.namespaces
    requires AloneInScope(p.cas.store.log, scope, id)
    ensures Lookup(Replay(map[], Wanted(Announced(Events(p.cas.store.log)), scope)), id.key)
         == match Etcd.Read(p.cas.store, BuildFeatureKey(id))
            case None => None
            case Some(e) => if e.payload.Some? then Some(e.payload.value.Content()) else None
  {
    var store := p.cas.store;
    LastMessageIsLastWrite(store.log, scope, id);
    LastChangeIsLastIn(store.log, scope, id.key);
    ReplayIsLastChange(map[], Wanted(Announced(Events(store.log)), scope), id.key);
    assert Etcd.Read(store, BuildFeatureKey(id)) == Cas.LastWrite(store.log, BuildFeatureKey(id), None);
  }

  /** The row `task` announces the current version of a feature of the scope, and is completed; the
      rows at that version agree with the master, and the feature owns its etcd key and, within the
      scope, its short key. */
  ghost predicate Settled(seeds: map<FeatureId, FeatureStore.Master>, sync: seq<Sync.Step>, task: nat, scope: Scope)
    requires Sync.Runs(Sync.Initial(seeds), sync)
  {
    var p := Sync.Exec(Sync.Initial(seeds), sync);
    && task < |p.db.tasks| && p.db.tasks[task].status == FeatureStore.Completed
    && p.db.tasks[task].payload.Some?
    && var f := p.db.tasks[task].payload.value;
       && f.version >= FeatureStore.VersionOf(FeatureStore.Current(p.db, f.Id()))
       && Covers(scope, f)
       && Sync.CurrentRowsAgree(p.db, f.Id())
       && OwnsKey(f.Id()) && AloneInScope(p.cas.store.log, scope, f.Id())
  }

  /** Convergence: MySQL, the outbox, etcd, the watch, the hub, the stream and the client together,
      with a server that loaded etcd after its first `k` writes. When the row of a feature's current
      version is marked Completed, and a client that agreed with the log when it connected has been
      through the whole announced log, it shows the feature's value, type and version as MySQL holds
      them. */
  lemma {:induction false} ClientShowsMaster(seeds: map<FeatureId, FeatureStore.Master>, sync: seq<Sync.Step>,
        task: nat, k: nat, size: nat, pipe: seq<Pipe.Step>, conn: nat, mem: Memory)
    requires Sync.Runs(Sync.Initial(seeds), sync)
    requires size > 0 && Pipe.Runs(Pipe.Initial(size), pipe) && conn in Pipe.Exec(Pipe.Initial(size), pipe).conns
    requires var log := Announced(Events(Sync.Exec(Sync.Initial(seeds), sync).cas.store.log));
             var q := Pipe.Exec(Pipe.Initial(size), pipe);
             var c := q.conns[conn];
             && k <= |log| && q.log == log[k..]
             && c.registeredFirst && !c.progress.reset && Pipe.Backlog(c) == [] && Pipe.LiveTo(c) == |q.log|
             && (c.readAt > 0 || k == 0 || log[k - 1].revision <= c.lastRev)
             && mem.lastRev == c.lastRev && Agrees(mem, Wanted(log, c.scope))
             && Settled(seeds, sync, task, c.scope)
    ensures var p := Sync.Exec(Sync.Initial(seeds), sync);
            var c := Pipe.Exec(Pipe.Initial(size), pipe).conns[conn];
            var f := p.db.tasks[task].payload.value;
            && f.Id() in p.db.masters
            && Lookup(Observed(HandledAll(mem, c.progress.written).features), f.key)
               == Some(Sync.ContentOf(p.db.masters[f.Id()]))
  {
    hide *;
    var log := Announced(Events(Sync.Exec(Sync.Initial(seeds), sync).cas.store.log));
    assert log[..k] + log[k..] == log;
    EtcdLogIsOrderly(seeds, sync);
    StreamKeepsAgreement(size, pipe, conn, log[..k], mem);
    MasterIsReplayed(seeds, sync, task, Pipe.Exec(Pipe.Initial(size), pipe).conns[conn].scope);
  }

  lemma {:induction false} MasterIsReplayed(seeds: map<FeatureId, FeatureStore.Master>, sync: seq<Sync.Step>,
        task: nat, scope: Scope)
    requires Sync.Runs(Sync.Initial(seeds), sync) && Settled(seeds, sync, task, scope)
    ensures var p := Sync.Exec(Sync.Initial(seeds), sync);
            var f := p.db.tasks[task].payload.value;
            && f.Id() in p.db.masters
            && Lookup(Replay(map[], Wanted(Announced(Events(p.cas.store.log)), scope)), f.key)
               == Some(Sync.ContentOf(p.db.masters[f.Id()]))
  {
    hide Announced, Events, Wanted, Replay, Sync.EventsOk, Sync.Inv;
    Sync.CompletedMeansInSync(seeds, sync, task);
    Sync.Reachable(seeds, sync);
    var p := Sync.Exec(Sync.Initial(seeds), sync);
    ReplayShowsEtcd(p, scope, p.db.tasks[task].payload.value.Id());
  }

  // ----- a client that is never served -----

  /** The client shows the feature of the row as MySQL holds it. */
  ghost predicate ShowsMaster(db: FeatureStore.Db, task: nat, q: Client.System)
    requires task < |db.tasks| && db.tasks[task].payload.Some?
  {
    var f := db.tasks[task].payload.value;
    && f.Id() in db.masters && q.client.Some?
    && Lookup(Observed(q.client.value.mem.features), f.key) == Some(Sync.ContentOf(db.masters[f.Id()]))
  }

  /** Convergence over the snapshot: a client whose every connection is reset, as is every client that
      fetches after the first put a server has announced, has no stream to follow. Whatever it has been
      through, and however often it is reset, fetches, reconnects and saves, while its last fetch is of
      the whole announced log it shows the value, type and version of a settled feature as MySQL holds
      them. */
  lemma {:induction false} FetchShowsMaster(seeds: map<FeatureId, FeatureStore.Master>, sync: seq<Sync.Step>,
        task: nat, scope: Scope, steps: seq<Client.Step>, s: Client.Step, rest: seq<Client.Step>)
    requires Sync.Runs(Sync.Initial(seeds), sync) && Settled(seeds, sync, task, scope)
    requires Client.Runs(Client.Initial(), steps)
    requires var p := Client.Exec(Client.Initial(), steps);
             && Client.Enabled(p, s) && (s.StartFetched? || s.Refetch?)
             && Client.Runs(Client.Next(p, s), rest) && (forall x | x in rest :: Client.Undelivered(x))
             && var q := Client.Exec(Client.Next(p, s), rest);
                && q.log == Wanted(Announced(Events(Sync.Exec(Sync.Initial(seeds), sync).cas.store.log)), scope)
                && Client.LastFetch(s.position, rest) == |q.log|
    ensures ShowsMaster(Sync.Exec(Sync.Initial(seeds), sync).db, task,
                        Client.Exec(Client.Next(Client.Exec(Client.Initial(), steps), s), rest))
  {
    hide Sync.Runs, Sync.Exec, Client.Runs, Client.Exec, Client.Next, Client.Enabled, Client.Inv, Client.Undelivered,
      Client.NothingComesBack, Client.LastFetch, Wanted, Announced, Events, Replay, Puts, Observed, Settled, Ascending;
    var p := Client.Exec(Client.Initial(), steps);
    var q := Client.Exec(Client.Next(p, s), rest);
    Client.RunKeepsInv(Client.Initial(), steps);
    Client.FetchShowsLog(p, s, rest);
    assert q.log[..|q.log|] == q.log;
    EtcdLogIsOrderly(seeds, sync);
    OwnPutsOfPuts(Announced(Events(Sync.Exec(Sync.Initial(seeds), sync).cas.store.log)), scope);
    MasterIsReplayed(seeds, sync, task, scope);
  }

  lemma {:induction false} OwnPutsOfPuts(log: seq<Message>, scope: Scope)
    requires PutOnly(log)
    ensures Puts(Wanted(log, scope)) == Wanted(log, scope)
  {
    WantedSound(log, scope);
    PutsOfPuts(Wanted(log, scope));
  }

  /** The answer of a server that loaded etcd after its first `k` writes and has all later ones in its
      cache, in the case in which its snapshot is the log's: nothing of the scope is shadowed, and no
      key not rewritten since was loaded out of order. */
  ghost predicate Answers(writes: seq<Etcd.Write>, k: nat, scope: Scope, kvs: seq<Kv>, rev0: int, r: Response)
    requires k <= |writes|
  {
    var events := Events(writes[k..]);
    && LoadedFrom(kvs, writes[..k]) && History(kvs, events, rev0)
    && NotShadowed(KvFlags(kvs) + EventFlags(events), scope) && LoadedIsLatest(kvs, writes[..k], events, scope)
    && r.revision == AfterEvents(AfterLoad(kvs), events).stamp
    && Merge(map[], r.data) == VisibleData(AfterEvents(AfterLoad(kvs), events).data, scope)
  }

  function FetchOf(p: Client.System, r: Response): Client.Step {
    if p.client.Some? then Client.Refetch(r, |p.log|) else Client.StartFetched(r, |p.log|)
  }

  /** Such an answer is one the client model takes; and the client that takes it, at its start or after
      a reset, shows a settled feature as MySQL holds it. */
  lemma {:induction false} ServerFetchShowsMaster(seeds: map<FeatureId, FeatureStore.Master>, sync: seq<Sync.Step>,
        task: nat, scope: Scope, steps: seq<Client.Step>, k: nat, kvs: seq<Kv>, rev0: int, r: Response)
    requires Sync.Runs(Sync.Initial(seeds), sync) && Settled(seeds, sync, task, scope)
    requires Client.Runs(Client.Initial(), steps) && StreamHandler.Admitted(scope)
    requires var writes := Sync.Exec(Sync.Initial(seeds), sync).cas.store.log;
             var p := Client.Exec(Client.Initial(), steps);
             && p.log == Wanted(Announced(Events(writes)), scope) && p.cached == |p.log|
             && k <= |writes| && Seen(rev0, Events(writes[k..])) <= p.head && Answers(writes, k, scope, kvs, rev0, r)
    ensures var p := Client.Exec(Client.Initial(), steps);
            && Client.Enabled(p, FetchOf(p, r))
            && ShowsMaster(Sync.Exec(Sync.Initial(seeds), sync).db, task, Client.Next(p, FetchOf(p, r)))
  {
    hide Sync.Runs, Sync.Exec, Client.Runs, Client.Next, Client.Inv, Client.Undelivered, Client.Served, Client.Enabled,
      Wanted, Announced, Events, Replay, Observed, Settled, Answers, ShowsMaster;
    var writes := Sync.Exec(Sync.Initial(seeds), sync).cas.store.log;
    var p := Client.Exec(Client.Initial(), steps);
    AnswerIsServed(p, writes, k, scope, kvs, rev0, r);
    Client.RunKeepsInv(Client.Initial(), steps);
    FetchIsEnabled(p, r);
    NoSteps(Client.Next(p, FetchOf(p, r)));
    FetchShowsMaster(seeds, sync, task, scope, steps, FetchOf(p, r), []);
  }

  lemma {:induction false} NoSteps(p: Client.System)
    ensures Client.Runs(p, []) && Client.Exec(p, []) == p
  {
  }

  lemma {:induction false} FetchIsEnabled(p: Client.System, r: Response)
    requires Client.Inv(p) && p.cached == |p.log| && Client.Served(p, r, |p.log|)
    ensures Client.Enabled(p, FetchOf(p, r)) && Client.Next(p, FetchOf(p, r)).log == p.log
  {
    hide Client.Served;
  }

  lemma {:induction false} EventsInTwo(writes: seq<Etcd.Write>, k: nat)
    requires k <= |writes|
    ensures Announced(Events(writes)) == Announced(Events(writes[..k])) + Announced(Events(writes[k..]))
    ensures forall e | e in Events(writes[k..]) :: e.PutEvent?
  {
    assert Events(writes) == Events(writes[..k]) + Events(writes[k..]);
    AnnouncedConcat(Events(writes[..k]), Events(writes[k..]));
  }

  lemma {:induction false} AnswerIsServed(p: Client.System, writes: seq<Etcd.Write>, k: nat, scope: Scope,
        kvs: seq<Kv>, rev0: int, r: Response)
    requires StreamHandler.Admitted(scope) && k <= |writes| && Answers(writes, k, scope, kvs, rev0, r)
    requires p.log == Wanted(Announced(Events(writes)), scope) && p.cached == |p.log|
    requires Seen(rev0, Events(writes[k..])) <= p.head
    ensures Client.Served(p, r, |p.log|)
  {
    hide Wanted, Announced, Events, EventFlags, KvFlags, AfterLoad, AfterEvents, VisibleData, Merge, NotShadowed,
      LoadedIsLatest, LoadedFrom, History, Client.Served;
    EventsInTwo(writes, k);
    var events := Events(writes[k..]);
    assert events[..|events|] == events;
    ServerServes(p, kvs, writes[..k], events, rev0, |events|, scope, r.data);
  }
}
