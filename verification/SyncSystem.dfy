/** MySQL, etcd and the three actors that push changes from one to the other: the goroutine
    started by SaveFeature, the outbox worker and the reconciler. Their calls interleave freely,
    fail and crash at any point. */
module SyncSystem {
  import opened Model
  import opened FeatureKey
  import opened FeatureStore
  import Etcd
  import Cas = CasProtocol
  import OutboxWorker

  /** Who made a call, and what it will write to the outbox row when the call returns. */
  datatype Origin =
    | Goroutine(task: nat)
    | Worker(task: nat, retryCount: nat)
    | Reconciler

  datatype System = System(db: Db, cas: Cas.System, origins: map<nat, Origin>)

  datatype Step =
    | Save(read: Option<Master>, flag: Flag, operator: string, saved: bool)
    | Spawn(id: nat, task: nat)                    // the goroutine of a committed save
    | Fetch(id: nat, task: nat, retryCount: nat)   // the worker turns to a task it fetched some time ago
    | Inspect(id: nat, flag: Flag)                 // the reconciler turns to a row it read some time ago
    | Get(id: nat, fault: Etcd.Fault)
    | Txn(id: nat, fault: Etcd.Fault)
    | Mark(id: nat, written: bool)                 // the status update after the call
    | Crash(id: nat)

  function KeyOf(flag: Flag): string {
    BuildFeatureKey(flag.Id())
  }

  /** Every content any save has committed, feature by feature. */
  function History(tasks: seq<Task>): set<(FeatureId, Setting)> {
    if tasks == [] then {}
    else
      var rest, t := History(tasks[..|tasks| - 1]), tasks[|tasks| - 1];
      if t.payload.Some? then rest + {(t.payload.value.Id(), t.payload.value.Content())} else rest
  }

  /** The contents the database was set up with. */
  function Seeded(seeds: map<FeatureId, Master>): set<(FeatureId, Setting)> {
    set id | id in seeds :: (id, ContentOf(seeds[id]))
  }

  function ContentOf(m: Master): Setting {
    Setting(m.value, m.kind, m.version)
  }

  /** MySQL has held this content of this feature: some save has committed it, or it is a seed. */
  predicate Committed(db: Db, flag: Flag) {
    (flag.Id(), flag.Content()) in Seeded(db.seeds) + History(db.tasks)
  }

  predicate ReadyForMark(p: System, id: nat) {
    id in p.cas.calls && id in p.origins && p.cas.calls[id].Done?
  }

  ghost predicate Enabled(p: System, s: Step) {
    match s
    case Save(_, _, _, _) => true
    case Spawn(id, task) =>
      id !in p.cas.calls && task < |p.db.tasks| && p.db.tasks[task].payload.Some?
    case Fetch(id, task, _) =>
      id !in p.cas.calls && task < |p.db.tasks| && p.db.tasks[task].payload.Some?
    case Inspect(id, flag) =>
      // GetFeature fails for an absent key; for a present one it leaves Version at 0
      id !in p.cas.calls && Committed(p.db, flag) && KeyOf(flag) in p.cas.store.data && 0 < flag.version
    case Get(id, fault) => Cas.Enabled(p.cas, Cas.Get(id, fault))
    case Txn(id, fault) => Cas.Enabled(p.cas, Cas.Txn(id, fault))
    case Mark(id, _) => ReadyForMark(p, id)
    case Crash(id) => id in p.cas.calls
  }

  function Begun(p: System, id: nat, flag: Flag, origin: Origin): System
    requires id !in p.cas.calls
  {
    p.(cas := Cas.Next(p.cas, Cas.Begin(id, KeyOf(flag), flag)), origins := p.origins[id := origin])
  }

  /** The unconditional update of an outbox row. */
  function SetStatus(db: Db, task: nat, status: Status, retryCount: nat): Db {
    if task < |db.tasks| then
      db.(tasks := db.tasks[task := db.tasks[task].(status := status, retryCount := retryCount)])
    else db
  }

  /** What the actor writes about its task: the goroutine only reports success and resets the
      count, the worker also counts failures. */
  function Report(db: Db, origin: Origin, success: bool): Db {
    match origin
    case Goroutine(task) => if success then SetStatus(db, task, Completed, 0) else db
    case Worker(task, retryCount) =>
      if success then SetStatus(db, task, Completed, retryCount)
      else SetStatus(db, task, if retryCount + 1 >= OutboxWorker.MAX_ATTEMPTS then Failed else Pending, retryCount + 1)
    case Reconciler => db
  }

  function Ended(p: System, id: nat): System
    requires id in p.cas.calls
  {
    p.(cas := Cas.Next(p.cas, Cas.Forget(id)), origins := p.origins - {id})
  }

  ghost function Next(p: System, s: Step): System
    requires Enabled(p, s)
  {
    match s
    case Save(read, flag, operator, saved) => p.(db := Commit(p.db, read, flag, operator, saved))
    case Spawn(id, task) => Begun(p, id, p.db.tasks[task].payload.value, Goroutine(task))
    case Fetch(id, task, retryCount) => Begun(p, id, p.db.tasks[task].payload.value, Worker(task, retryCount))
    case Inspect(id, flag) => Begun(p, id, flag, Reconciler)
    case Get(id, fault) => p.(cas := Cas.Next(p.cas, Cas.Get(id, fault)))
    case Txn(id, fault) => p.(cas := Cas.Next(p.cas, Cas.Txn(id, fault)))
    case Mark(id, written) =>
      Ended(if written then p.(db := Report(p.db, p.origins[id], p.cas.calls[id].result.Ok?)) else p, id)
    case Crash(id) => Ended(p, id)
  }

  // ----- the invariant -----

  /** Every outbox row can be read back. */
  ghost predicate DbOk(db: Db) {
    forall t | t in db.tasks :: t.payload.Some?
  }

  /** etcd holds committed content only, each under its own key. */
  ghost predicate EtcdOk(db: Db, store: Etcd.Store) {
    forall key | key in store.data ::
      && store.data[key].payload.Some?
      && Committed(db, store.data[key].payload.value)
      && key == KeyOf(store.data[key].payload.value)
  }

  ghost predicate CallOk(db: Db, c: Etcd.Call, origin: Origin) {
    && c.key == KeyOf(c.flag)
    && Committed(db, c.flag)
    && (!origin.Reconciler? ==> origin.task < |db.tasks| && db.tasks[origin.task].payload == Some(c.flag))
  }

  ghost predicate CallsOk(p: System) {
    && p.origins.Keys == p.cas.calls.Keys
    && forall id | id in p.cas.calls :: CallOk(p.db, p.cas.calls[id], p.origins[id])
  }

  /** A task is marked Completed only when etcd has caught up with it. */
  ghost predicate CompletedOk(db: Db, store: Etcd.Store) {
    forall i | 0 <= i < |db.tasks| && db.tasks[i].status == Completed ::
      db.tasks[i].payload.Some? &&
      Etcd.AtLeast(store, KeyOf(db.tasks[i].payload.value), db.tasks[i].payload.value.version)
  }

  ghost predicate Inv(p: System) {
    && DbOk(p.db)
    && Cas.Inv(p.cas)
    && EtcdOk(p.db, p.cas.store)
    && CallsOk(p)
    && CompletedOk(p.db, p.cas.store)
  }

  /** A save of this feature is serialised with its other saves, and its Save takes effect. */
  predicate Orderly(p: System, s: Step, id: FeatureId) {
    s.Save? && s.flag.Id() == id ==> s.saved && UpToDate(p.db, s.read, id)
  }

  // ----- steps on the database -----

  lemma {:induction false} SaveKeepsCommitted(db: Db, s: Step)
    requires s.Save?
    ensures History(db.tasks) <= History(Commit(db, s.read, s.flag, s.operator, s.saved).tasks)
  {
    var db' := Commit(db, s.read, s.flag, s.operator, s.saved);
    assert db'.tasks[..|db'.tasks| - 1] == db.tasks;
  }

  lemma {:induction false} SaveKeepsInv(p: System, s: Step)
    requires Inv(p) && s.Save?
    ensures Inv(Next(p, s))
  {
    var q := Next(p, s);
    SaveKeepsCommitted(p.db, s);
    forall id | id in p.cas.calls
      ensures CallOk(q.db, p.cas.calls[id], p.origins[id])
    {
      assert CallOk(p.db, p.cas.calls[id], p.origins[id]);
    }
  }

  lemma {:induction false} SetStatusKeeps(db: Db, task: nat, status: Status, retryCount: nat)
    requires DbOk(db)
    ensures var db' := SetStatus(db, task, status, retryCount);
            && DbOk(db')
            && db'.seeds == db.seeds
            && History(db'.tasks) == History(db.tasks)
            && |db'.tasks| == |db.tasks|
            && (forall i | 0 <= i < |db.tasks| :: db'.tasks[i].payload == db.tasks[i].payload)
  {
    var db' := SetStatus(db, task, status, retryCount);
    HistoryIgnoresStatus(db.tasks, db'.tasks);
    assert forall i | 0 <= i < |db'.tasks| :: db.tasks[i] in db.tasks;
  }

  lemma {:induction false} SetStatusKeepsTrail(db: Db, task: nat, status: Status, retryCount: nat, id: FeatureId)
    requires Trail(db, id)
    ensures Trail(SetStatus(db, task, status, retryCount), id)
  {
    hide Ledger;
    FlagsOfIgnoresStatus(db.tasks, SetStatus(db, task, status, retryCount).tasks, id);
  }

  lemma {:induction false} FlagsOfIgnoresStatus(before: seq<Task>, after: seq<Task>, id: FeatureId)
    requires |before| == |after| && forall i | 0 <= i < |before| :: before[i].payload == after[i].payload
    ensures FlagsOf(before, id) == FlagsOf(after, id)
  {
    if before != [] {
      FlagsOfIgnoresStatus(before[..|before| - 1], after[..|after| - 1], id);
    }
  }

  lemma {:induction false} HistoryIgnoresStatus(before: seq<Task>, after: seq<Task>)
    requires |before| == |after| && forall i | 0 <= i < |before| :: before[i].payload == after[i].payload
    ensures History(before) == History(after)
  {
    if before != [] {
      HistoryIgnoresStatus(before[..|before| - 1], after[..|after| - 1]);
    }
  }

  lemma {:induction false} StatusKeepsCalls(p: System, task: nat, status: Status, retryCount: nat)
    requires DbOk(p.db) && CallsOk(p)
    ensures CallsOk(p.(db := SetStatus(p.db, task, status, retryCount)))
  {
    SetStatusKeeps(p.db, task, status, retryCount);
    var db' := SetStatus(p.db, task, status, retryCount);
    forall c | c in p.cas.calls
      ensures CallOk(db', p.cas.calls[c], p.origins[c])
    {
      assert CallOk(p.db, p.cas.calls[c], p.origins[c]);
    }
  }

  lemma {:induction false} StatusKeepsEtcd(db: Db, store: Etcd.Store, task: nat, status: Status, retryCount: nat)
    requires DbOk(db) && EtcdOk(db, store)
    ensures EtcdOk(SetStatus(db, task, status, retryCount), store)
  {
    SetStatusKeeps(db, task, status, retryCount);
  }

  /** A row may be set to Completed when etcd has caught up with it; any other status is free. */
  lemma {:induction false} StatusKeepsCompleted(db: Db, store: Etcd.Store, task: nat, status: Status, retryCount: nat)
    requires task < |db.tasks| && db.tasks[task].payload.Some? && CompletedOk(db, store)
    requires status == Completed ==>
               Etcd.AtLeast(store, KeyOf(db.tasks[task].payload.value), db.tasks[task].payload.value.version)
    ensures CompletedOk(SetStatus(db, task, status, retryCount), store)
  {
  }

  lemma {:induction false} StatusKeepsInv(p: System, task: nat, status: Status, retryCount: nat)
    requires Inv(p) && task < |p.db.tasks| && p.db.tasks[task].payload.Some?
    requires status == Completed ==>
               Etcd.AtLeast(p.cas.store, KeyOf(p.db.tasks[task].payload.value), p.db.tasks[task].payload.value.version)
    ensures Inv(p.(db := SetStatus(p.db, task, status, retryCount)))
  {
    SetStatusKeeps(p.db, task, status, retryCount);
    StatusKeepsCalls(p, task, status, retryCount);
    StatusKeepsEtcd(p.db, p.cas.store, task, status, retryCount);
    StatusKeepsCompleted(p.db, p.cas.store, task, status, retryCount);
  }

  lemma {:induction false} CallFacts(p: System, id: nat)
    requires Inv(p) && id in p.cas.calls && id in p.origins
    ensures CallOk(p.db, p.cas.calls[id], p.origins[id]) && Cas.CallOk(p.cas.store, p.cas.calls[id])
  {
  }

  /** Reporting success is honest: the call's success is in the store. */
  lemma {:induction false} ReportKeepsInv(p: System, id: nat)
    requires Inv(p) && ReadyForMark(p, id)
    ensures Inv(p.(db := Report(p.db, p.origins[id], p.cas.calls[id].result.Ok?)))
  {
    hide Inv;
    var c, origin := p.cas.calls[id], p.origins[id];
    CallFacts(p, id);
    if !origin.Reconciler? {
      var task := origin.task;
      var retryCount := if origin.Worker? then origin.retryCount else 0;
      if c.result.Ok? {
        StatusKeepsInv(p, task, Completed, retryCount);
      } else if origin.Worker? {
        StatusKeepsInv(p, task, if retryCount + 1 >= OutboxWorker.MAX_ATTEMPTS then Failed else Pending, retryCount + 1);
      }
    }
  }

  // ----- steps on etcd -----

  lemma {:induction false} BeginKeepsInv(p: System, id: nat, flag: Flag, origin: Origin)
    requires Inv(p) && id !in p.cas.calls && Committed(p.db, flag)
    requires !origin.Reconciler? ==> origin.task < |p.db.tasks| && p.db.tasks[origin.task].payload == Some(flag)
    ensures Inv(Begun(p, id, flag, origin))
  {
    var q := Begun(p, id, flag, origin);
    Cas.StepKeepsInv(p.cas, Cas.Begin(id, KeyOf(flag), flag));
    forall c | c in q.cas.calls
      ensures CallOk(q.db, q.cas.calls[c], q.origins[c])
    {
      if c != id {
        assert CallOk(p.db, p.cas.calls[c], p.origins[c]);
      }
    }
  }

  lemma {:induction false} EndKeepsInv(p: System, id: nat)
    requires Inv(p) && id in p.cas.calls
    ensures Inv(Ended(p, id))
  {
    var q := Ended(p, id);
    Cas.StepKeepsInv(p.cas, Cas.Forget(id));
    forall c | c in q.cas.calls
      ensures CallOk(q.db, q.cas.calls[c], q.origins[c])
    {
      assert CallOk(p.db, p.cas.calls[c], p.origins[c]);
    }
  }

  /** A task etcd has caught up with stays caught up with. */
  lemma {:induction false} GrowthKeepsCompleted(db: Db, before: Etcd.Store, after: Etcd.Store)
    requires CompletedOk(db, before) && Cas.Grown(before, after) && Cas.StoreOk(after)
    ensures CompletedOk(db, after)
  {
    forall i | 0 <= i < |db.tasks| && db.tasks[i].status == Completed
      ensures Etcd.AtLeast(after, KeyOf(db.tasks[i].payload.value), db.tasks[i].payload.value.version)
    {
      assert Cas.Advanced(before, after, KeyOf(db.tasks[i].payload.value));
    }
  }

  /** A commit files committed content under its own key. */
  lemma {:induction false} TxnKeepsEtcd(db: Db, store: Etcd.Store, c: Etcd.Call, fault: Etcd.Fault)
    requires EtcdOk(db, store) && c.Committing? && Committed(db, c.flag) && c.key == KeyOf(c.flag)
    ensures EtcdOk(db, Etcd.AfterTxn(c, store, fault).1)
  {
    var after := Etcd.AfterTxn(c, store, fault).1;
    forall key | key in after.data
      ensures after.data[key].payload.Some? && Committed(db, after.data[key].payload.value)
      ensures key == KeyOf(after.data[key].payload.value)
    {
      if key in store.data && after.data[key] == store.data[key] {
        assert Committed(db, store.data[key].payload.value);
      }
    }
  }

  /** A call keeps its key and its flag. */
  lemma {:induction false} CallStepKeepsCalls(p: System, id: nat, c: Etcd.Call, store: Etcd.Store)
    requires CallsOk(p) && id in p.cas.calls && c.key == p.cas.calls[id].key && c.flag == p.cas.calls[id].flag
    ensures CallsOk(p.(cas := Cas.System(store, p.cas.calls[id := c])))
  {
    var q := p.(cas := Cas.System(store, p.cas.calls[id := c]));
    forall x | x in q.cas.calls
      ensures CallOk(q.db, q.cas.calls[x], q.origins[x])
    {
      assert CallOk(p.db, p.cas.calls[x], p.origins[x]);
    }
  }

  lemma {:induction false} GetKeepsInv(p: System, id: nat, fault: Etcd.Fault)
    requires Inv(p) && Cas.Enabled(p.cas, Cas.Get(id, fault))
    ensures Inv(p.(cas := Cas.Next(p.cas, Cas.Get(id, fault))))
  {
    var c := p.cas.calls[id];
    Cas.StepKeepsInv(p.cas, Cas.Get(id, fault));
    CallStepKeepsCalls(p, id, Etcd.AfterGet(c, Etcd.Read(p.cas.store, c.key), fault), p.cas.store);
  }

  lemma {:induction false} TxnKeepsInv(p: System, id: nat, fault: Etcd.Fault)
    requires Inv(p) && Cas.Enabled(p.cas, Cas.Txn(id, fault))
    ensures Inv(p.(cas := Cas.Next(p.cas, Cas.Txn(id, fault))))
  {
    hide EtcdOk, CallsOk, CompletedOk, DbOk, Cas.Inv, Cas.Grown, Cas.StoreOk;
    var c := p.cas.calls[id];
    var (c', store') := Etcd.AfterTxn(c, p.cas.store, fault);
    TxnGrows(p.cas, id, fault);
    OriginOfCall(p, id);
    CallFacts(p, id);
    TxnKeepsEtcd(p.db, p.cas.store, c, fault);
    CallStepKeepsCalls(p, id, c', store');
    GrowthKeepsCompleted(p.db, p.cas.store, store');
  }

  lemma {:induction false} OriginOfCall(p: System, id: nat)
    requires CallsOk(p) && id in p.cas.calls
    ensures id in p.origins
  {
  }

  lemma {:induction false} TxnGrows(s: Cas.System, id: nat, fault: Etcd.Fault)
    requires Cas.Inv(s) && Cas.Enabled(s, Cas.Txn(id, fault))
    ensures var t := Cas.Next(s, Cas.Txn(id, fault));
            Cas.Inv(t) && Cas.StoreOk(t.store) && Cas.Grown(s.store, t.store)
  {
    Cas.StepKeepsInv(s, Cas.Txn(id, fault));
  }

  lemma {:induction false} StepKeepsInv(p: System, s: Step)
    requires Inv(p) && Enabled(p, s)
    ensures Inv(Next(p, s))
  {
    match s {
      case Save(_, _, _, _) => SaveKeepsInv(p, s);
      case Spawn(id, task) =>
        HistoryMember(p.db.tasks, task);
        BeginKeepsInv(p, id, p.db.tasks[task].payload.value, Goroutine(task));
      case Fetch(id, task, retryCount) =>
        HistoryMember(p.db.tasks, task);
        BeginKeepsInv(p, id, p.db.tasks[task].payload.value, Worker(task, retryCount));
      case Inspect(id, flag) => BeginKeepsInv(p, id, flag, Reconciler);
      case Get(id, fault) => GetKeepsInv(p, id, fault);
      case Txn(id, fault) => TxnKeepsInv(p, id, fault);
      case Mark(id, written) =>
        if written {
          ReportKeepsInv(p, id);
          EndKeepsInv(p.(db := Report(p.db, p.origins[id], p.cas.calls[id].result.Ok?)), id);
        } else {
          EndKeepsInv(p, id);
        }
      case Crash(id) => EndKeepsInv(p, id);
    }
  }

  lemma {:induction false} HistoryMember(tasks: seq<Task>, i: nat)
    requires i < |tasks| && tasks[i].payload.Some?
    ensures (tasks[i].payload.value.Id(), tasks[i].payload.value.Content()) in History(tasks)
  {
    if i < |tasks| - 1 {
      HistoryMember(tasks[..|tasks| - 1], i);
    }
  }

  /** The trail of a feature survives every step, provided its own saves are orderly. */
  lemma {:induction false} StepKeepsTrail(p: System, s: Step, id: FeatureId)
    requires Trail(p.db, id) && Enabled(p, s) && Orderly(p, s, id)
    ensures Trail(Next(p, s).db, id)
  {
    hide Trail;
    match s {
      case Save(read, flag, operator, saved) =>
        if flag.Id() == id {
          CommitKeepsTrail(p.db, read, flag, operator, saved);
        } else {
          CommitKeepsOthers(p.db, read, flag, operator, saved, id);
        }
      case Mark(call, written) =>
        if written {
          ReportKeepsTrail(p.db, p.origins[call], p.cas.calls[call].result.Ok?, id);
        }
      case _ =>
    }
  }

  lemma {:induction false} ReportKeepsTrail(db: Db, origin: Origin, success: bool, id: FeatureId)
    requires Trail(db, id)
    ensures Trail(Report(db, origin, success), id)
  {
    hide Trail;
    match origin {
      case Goroutine(task) => SetStatusKeepsTrail(db, task, Completed, 0, id);
      case Worker(task, retryCount) =>
        SetStatusKeepsTrail(db, task, Completed, retryCount, id);
        SetStatusKeepsTrail(db, task, if retryCount + 1 >= OutboxWorker.MAX_ATTEMPTS then Failed else Pending,
                            retryCount + 1, id);
      case Reconciler =>
    }
  }

  // ----- the event log of etcd -----

  const EMPTY_STORE := Etcd.Store(map[], 0, [])

  /** Every event is a put of committed content under its own key; revisions ascend, and so do
      the versions of each key. */
  ghost predicate EventsOk(db: Db, store: Etcd.Store) {
    && Cas.LogOk(EMPTY_STORE, store)
    && (forall i | 0 <= i < |store.log| ::
          store.log[i].key == KeyOf(store.log[i].flag) && Committed(db, store.log[i].flag))
  }

  lemma {:induction false} StepKeepsEvents(p: System, s: Step)
    requires Inv(p) && EventsOk(p.db, p.cas.store) && Enabled(p, s)
    ensures EventsOk(Next(p, s).db, Next(p, s).cas.store)
  {
    match s {
      case Save(_, _, _, _) => SaveStepKeepsEvents(p, s);
      case Txn(id, fault) => TxnStepKeepsEvents(p, id, fault);
      case Mark(id, written) => MarkStepKeepsEvents(p, id, written);
      case _ =>
        hide EventsOk, Inv;
        assert Next(p, s).db == p.db && Next(p, s).cas.store == p.cas.store;
    }
  }

  lemma {:induction false} SaveStepKeepsEvents(p: System, s: Step)
    requires EventsOk(p.db, p.cas.store) && s.Save?
    ensures EventsOk(Next(p, s).db, Next(p, s).cas.store)
  {
    SaveKeepsCommitted(p.db, s);
  }

  lemma {:induction false} MarkStepKeepsEvents(p: System, id: nat, written: bool)
    requires Inv(p) && EventsOk(p.db, p.cas.store) && ReadyForMark(p, id)
    ensures EventsOk(Next(p, Mark(id, written)).db, Next(p, Mark(id, written)).cas.store)
  {
    hide Inv, Report;
    MarkKeepsHistory(p, id);
  }

  lemma {:induction false} TxnStepKeepsEvents(p: System, id: nat, fault: Etcd.Fault)
    requires Inv(p) && EventsOk(p.db, p.cas.store) && Enabled(p, Txn(id, fault))
    ensures EventsOk(p.db, Next(p, Txn(id, fault)).cas.store)
  {
    TxnKeepsEvents(p, p.cas.calls[id], p.origins[id]);
  }

  lemma {:induction false} MarkKeepsHistory(p: System, id: nat)
    requires Inv(p) && ReadyForMark(p, id)
    ensures var db' := Report(p.db, p.origins[id], p.cas.calls[id].result.Ok?);
            db'.seeds == p.db.seeds && History(db'.tasks) == History(p.db.tasks)
  {
    var db' := Report(p.db, p.origins[id], p.cas.calls[id].result.Ok?);
    assert |db'.tasks| == |p.db.tasks|;
    HistoryIgnoresStatus(p.db.tasks, db'.tasks);
  }

  lemma {:induction false} TxnKeepsEvents(p: System, c: Etcd.Call, origin: Origin)
    requires DbOk(p.db) && EventsOk(p.db, p.cas.store) && Cas.StoreOk(p.cas.store)
    requires c.Committing? && CallOk(p.db, c, origin) && Cas.CallOk(p.cas.store, c)
    ensures Etcd.Unchanged(p.cas.store, c.key, c.seen) ==> EventsOk(p.db, Etcd.Commit(p.cas.store, c.key, c.flag))
  {
    if Etcd.Unchanged(p.cas.store, c.key, c.seen) {
      Cas.CommitKeepsLog(EMPTY_STORE, p.cas.store, c);
    }
  }

  // ----- runs -----

  /** A database as it was set up, and an empty etcd. */
  function Initial(seeds: map<FeatureId, Master>): System {
    System(NewDb(seeds), Cas.System(EMPTY_STORE, map[]), map[])
  }

  ghost predicate Runs(p: System, steps: seq<Step>)
    decreases |steps|
  {
    steps == [] || (Enabled(p, steps[0]) && Runs(Next(p, steps[0]), steps[1..]))
  }

  ghost function Exec(p: System, steps: seq<Step>): System
    requires Runs(p, steps)
    decreases |steps|
  {
    if steps == [] then p else Exec(Next(p, steps[0]), steps[1..])
  }

  ghost predicate OrderlyRun(p: System, steps: seq<Step>, id: FeatureId)
    requires Runs(p, steps)
    decreases |steps|
  {
    steps != [] ==> Orderly(p, steps[0], id) && OrderlyRun(Next(p, steps[0]), steps[1..], id)
  }

  lemma {:induction false} RunKeepsInv(p: System, steps: seq<Step>)
    requires Inv(p) && EventsOk(p.db, p.cas.store) && Runs(p, steps)
    ensures Inv(Exec(p, steps)) && EventsOk(Exec(p, steps).db, Exec(p, steps).cas.store)
    decreases |steps|
  {
    if steps != [] {
      StepKeepsInv(p, steps[0]);
      StepKeepsEvents(p, steps[0]);
      RunKeepsInv(Next(p, steps[0]), steps[1..]);
    }
  }

  lemma {:induction false} RunKeepsTrail(p: System, steps: seq<Step>, id: FeatureId)
    requires Trail(p.db, id) && Runs(p, steps) && OrderlyRun(p, steps, id)
    ensures Trail(Exec(p, steps).db, id)
    decreases |steps|
  {
    hide Trail;
    if steps != [] {
      StepKeepsTrail(p, steps[0], id);
      RunKeepsTrail(Next(p, steps[0]), steps[1..], id);
    }
  }

  lemma {:induction false} Reachable(seeds: map<FeatureId, Master>, steps: seq<Step>)
    requires Runs(Initial(seeds), steps)
    ensures var p := Exec(Initial(seeds), steps);
            Inv(p) && EventsOk(p.db, p.cas.store)
  {
    RunKeepsInv(Initial(seeds), steps);
  }

  // ----- what etcd holds -----

  lemma {:induction false} HistoryIsListed(tasks: seq<Task>, id: FeatureId, content: Setting)
    requires (id, content) in History(tasks)
    ensures exists i :: 0 <= i < |FlagsOf(tasks, id)| && FlagsOf(tasks, id)[i].Content() == content
    ensures exists t :: t in tasks && t.payload.Some? && t.payload.value.Id() == id
  {
    var rest, t := tasks[..|tasks| - 1], tasks[|tasks| - 1];
    if t.payload.Some? && (id, content) == (t.payload.value.Id(), t.payload.value.Content()) {
      assert FlagsOf(tasks, id)[|FlagsOf(rest, id)|].Content() == content;
    } else {
      HistoryIsListed(rest, id, content);
      var i :| 0 <= i < |FlagsOf(rest, id)| && FlagsOf(rest, id)[i].Content() == content;
      assert FlagsOf(tasks, id)[i].Content() == content;
      var u :| u in rest && u.payload.Some? && u.payload.value.Id() == id;
      assert u in tasks;
    }
  }

  /** What MySQL held of a feature as exactly this version. */
  function ContentAt(db: Db, id: FeatureId, version: nat): Option<Setting> {
    var seed, audits := Seed(db, id), AuditsOf(db.audits, id);
    if seed.Some? && version == seed.value.version then Some(ContentOf(seed.value))
    else if VersionOf(seed) < version <= VersionOf(seed) + |audits| then
      var a := audits[version - VersionOf(seed) - 1];
      Some(Setting(a.newValue, a.kind, version))
    else None
  }

  /** The master's current version is among them. */
  lemma {:induction false} MasterIsContent(db: Db, id: FeatureId)
    requires Trail(db, id) && id in db.masters
    ensures ContentAt(db, id, db.masters[id].version) == Some(ContentOf(db.masters[id]))
  {
  }

  /** Committed content is what MySQL held as exactly that version, at most the master's. */
  lemma {:induction false} CommittedIsAudited(db: Db, flag: Flag)
    requires Trail(db, flag.Id()) && Committed(db, flag)
    ensures flag.Id() in db.masters && flag.version <= db.masters[flag.Id()].version
    ensures ContentAt(db, flag.Id(), flag.version) == Some(flag.Content())
  {
    if (flag.Id(), flag.Content()) in History(db.tasks) {
      HistoryIsListed(db.tasks, flag.Id(), flag.Content());
    }
  }

  lemma {:induction false} EntryIsAudited(p: System, id: FeatureId)
    requires Inv(p) && Trail(p.db, id) && OwnsKey(id) && BuildFeatureKey(id) in p.cas.store.data
    ensures p.cas.store.data[BuildFeatureKey(id)].payload.Some?
    ensures var f := p.cas.store.data[BuildFeatureKey(id)].payload.value;
            && f.Id() == id && id in p.db.masters && f.version <= p.db.masters[id].version
            && ContentAt(p.db, id, f.version) == Some(f.Content())
  {
    hide Trail;
    CommittedIsAudited(p.db, p.cas.store.data[BuildFeatureKey(id)].payload.value);
  }

  /** Whatever other features do, a feature that owns its key and whose saves are orderly has in
      etcd, in every reachable state, what MySQL held as exactly that version, and at most the
      master's version. */
  lemma {:induction false} EtcdNeverAhead(seeds: map<FeatureId, Master>, steps: seq<Step>, id: FeatureId)
    requires Runs(Initial(seeds), steps) && OrderlyRun(Initial(seeds), steps, id) && OwnsKey(id)
    requires BuildFeatureKey(id) in Exec(Initial(seeds), steps).cas.store.data
    ensures var p := Exec(Initial(seeds), steps);
            && id in p.db.masters
            && p.cas.store.data[BuildFeatureKey(id)].payload.Some?
            && var f := p.cas.store.data[BuildFeatureKey(id)].payload.value;
               && f.Id() == id && f.version <= p.db.masters[id].version
               && ContentAt(p.db, id, f.version) == Some(f.Content())
  {
    hide Trail, Inv, EventsOk;
    Reachable(seeds, steps);
    NewDbHasTrails(seeds, id);
    RunKeepsTrail(Initial(seeds), steps, id);
    EntryIsAudited(Exec(Initial(seeds), steps), id);
  }

  /** In every run, saves racing or lost, every entry of etcd is content MySQL has held, under its
      own key, and a completed row's version has been reached there. */
  lemma {:induction false} EtcdHoldsCommitted(seeds: map<FeatureId, Master>, steps: seq<Step>)
    requires Runs(Initial(seeds), steps)
    ensures var p := Exec(Initial(seeds), steps);
            && EtcdOk(p.db, p.cas.store)
            && CompletedOk(p.db, p.cas.store)
  {
    Reachable(seeds, steps);
  }

  /** etcd and MySQL agree on a feature. */
  ghost predicate InSync(p: System, id: FeatureId) {
    && id in p.db.masters && BuildFeatureKey(id) in p.cas.store.data
    && var e := p.cas.store.data[BuildFeatureKey(id)];
       e.payload.Some? && e.payload.value.Id() == id && e.payload.value.Content() == ContentOf(p.db.masters[id])
  }

  /** Every row of the feature that announces the master's version or a later one, and its seed if it
      is that recent, carries the master's content: the last saves of the feature did not race. */
  ghost predicate CurrentRowsAgree(db: Db, id: FeatureId) {
    && id in db.masters
    && (forall t | t in db.tasks && RowOf(t, id) && t.payload.value.version >= db.masters[id].version ::
          t.payload.value.Content() == ContentOf(db.masters[id]))
    && (id in db.seeds && db.seeds[id].version >= db.masters[id].version ==>
          ContentOf(db.seeds[id]) == ContentOf(db.masters[id]))
  }

  predicate RowOf(t: Task, id: FeatureId) {
    t.payload.Some? && t.payload.value.Id() == id
  }

  lemma {:induction false} HistoryHasRow(tasks: seq<Task>, id: FeatureId, content: Setting) returns (t: Task)
    requires (id, content) in History(tasks)
    ensures t in tasks && RowOf(t, id) && t.payload.value.Content() == content
  {
    var last := tasks[|tasks| - 1];
    if last.payload.Some? && (id, content) == (last.payload.value.Id(), last.payload.value.Content()) {
      t := last;
    } else {
      t := HistoryHasRow(tasks[..|tasks| - 1], id, content);
    }
  }

  lemma {:induction false} CurrentContent(db: Db, flag: Flag)
    requires CurrentRowsAgree(db, flag.Id()) && Committed(db, flag) && flag.version >= db.masters[flag.Id()].version
    ensures flag.Content() == ContentOf(db.masters[flag.Id()])
  {
    if (flag.Id(), flag.Content()) in History(db.tasks) {
      var t := HistoryHasRow(db.tasks, flag.Id(), flag.Content());
      assert t.payload.value.version == flag.Content().version;
    }
  }

  /** Whenever an outbox row of the master's current version is marked Completed, etcd and MySQL agree
      on the feature, although rows can be overwritten by racing status updates and earlier saves may
      have raced or been lost: only the rows at the current version matter. */
  lemma {:induction false} CompletedMeansInSync(seeds: map<FeatureId, Master>, steps: seq<Step>, i: nat)
    requires Runs(Initial(seeds), steps)
    requires var db := Exec(Initial(seeds), steps).db;
             && i < |db.tasks| && db.tasks[i].status == Completed && db.tasks[i].payload.Some?
             && var id := db.tasks[i].payload.value.Id();
                && db.tasks[i].payload.value.version >= VersionOf(Current(db, id))
                && CurrentRowsAgree(db, id) && OwnsKey(id)
    ensures InSync(Exec(Initial(seeds), steps), Exec(Initial(seeds), steps).db.tasks[i].payload.value.Id())
  {
    hide CurrentRowsAgree, InSync, EventsOk, Inv;
    Reachable(seeds, steps);
    CompletedEntry(Exec(Initial(seeds), steps), i);
  }

  lemma {:induction false} CompletedEntry(p: System, i: nat)
    requires Inv(p) && i < |p.db.tasks| && p.db.tasks[i].status == Completed && p.db.tasks[i].payload.Some?
    requires var f := p.db.tasks[i].payload.value;
             f.version >= VersionOf(Current(p.db, f.Id())) && CurrentRowsAgree(p.db, f.Id()) && OwnsKey(f.Id())
    ensures InSync(p, p.db.tasks[i].payload.value.Id())
  {
    var f := p.db.tasks[i].payload.value;
    assert Etcd.AtLeast(p.cas.store, KeyOf(f), f.version);
    CurrentContent(p.db, p.cas.store.data[KeyOf(f)].payload.value);
  }

  /** A feature all of whose saves were serialised and took effect meets the condition. */
  lemma {:induction false} OrderlyRowsAgree(seeds: map<FeatureId, Master>, steps: seq<Step>, id: FeatureId)
    requires Runs(Initial(seeds), steps) && OrderlyRun(Initial(seeds), steps, id)
    requires id in Exec(Initial(seeds), steps).db.masters
    ensures CurrentRowsAgree(Exec(Initial(seeds), steps).db, id)
  {
    hide Trail, CurrentRowsAgree;
    NewDbHasTrails(seeds, id);
    RunKeepsTrail(Initial(seeds), steps, id);
    TrailRowsAgree(Exec(Initial(seeds), steps).db, id);
  }

  lemma {:induction false} TrailRowsAgree(db: Db, id: FeatureId)
    requires Trail(db, id) && id in db.masters
    ensures CurrentRowsAgree(db, id)
  {
    hide Trail;
    MasterIsContent(db, id);
    forall t | t in db.tasks && RowOf(t, id) && t.payload.value.version >= db.masters[id].version
      ensures t.payload.value.Content() == ContentOf(db.masters[id])
    {
      var i :| 0 <= i < |db.tasks| && db.tasks[i] == t;
      HistoryMember(db.tasks, i);
      CommittedIsAudited(db, t.payload.value);
    }
    if id in db.seeds && db.seeds[id].version >= db.masters[id].version {
      SeedIsNotAhead(db, id);
    }
  }

  lemma {:induction false} SeedIsNotAhead(db: Db, id: FeatureId)
    requires Trail(db, id) && id in db.masters && id in db.seeds && db.seeds[id].version >= db.masters[id].version
    ensures db.seeds[id] == db.masters[id]
  {
  }

  /** A race is repaired by the next serialised save, if no row announces more than the master has:
      from then on the feature meets the condition again. */
  lemma {:induction false} SaveRepairsRace(db: Db, flag: Flag, operator: string)
    requires forall t | t in db.tasks && RowOf(t, flag.Id()) ::
               t.payload.value.version <= VersionOf(Current(db, flag.Id()))
    requires flag.Id() in db.seeds ==> db.seeds[flag.Id()].version <= VersionOf(Current(db, flag.Id()))
    ensures CurrentRowsAgree(Commit(db, Current(db, flag.Id()), flag, operator, true), flag.Id())
  {
  }

  // ----- absent keys -----

  /** Every pending call is about a key that etcd has. */
  ghost predicate CallsArePresent(p: System) {
    forall id | id in p.cas.calls :: p.cas.calls[id].key in p.cas.store.data
  }

  lemma {:induction false} StepCreatesNothing(p: System, s: Step)
    requires CallsArePresent(p) && Enabled(p, s) && !s.Spawn? && !s.Fetch?
    ensures CallsArePresent(Next(p, s)) && Next(p, s).cas.store.data.Keys == p.cas.store.data.Keys
  {
    if s.Txn? {
      var c := p.cas.calls[s.id];
      assert Etcd.Commit(p.cas.store, c.key, c.flag).data.Keys == p.cas.store.data.Keys;
    }
  }

  /** The reconciler alone never repairs a key that is missing from etcd: whatever MySQL commits
      and however often rows are inspected, without the goroutine and the worker etcd's set of keys
      stays as it is. */
  lemma {:induction false} ReconcilerCreatesNothing(p: System, steps: seq<Step>)
    requires CallsArePresent(p) && Runs(p, steps)
    requires forall s | s in steps :: !s.Spawn? && !s.Fetch?
    ensures Exec(p, steps).cas.store.data.Keys == p.cas.store.data.Keys
    decreases |steps|
  {
    if steps != [] {
      assert steps[0] in steps;
      StepCreatesNothing(p, steps[0]);
      ReconcilerCreatesNothing(Next(p, steps[0]), steps[1..]);
    }
  }

  // ----- without a row lock -----

  lemma {:induction false} Then(p: System, s: Step, rest: seq<Step>)
    requires Enabled(p, s) && Runs(Next(p, s), rest)
    ensures Runs(p, [s] + rest) && Exec(p, [s] + rest) == Exec(Next(p, s), rest)
  {
    assert ([s] + rest)[1..] == rest;
  }

  const FIRST_SYNC := [Spawn(0, 1), Get(0, Etcd.NoFault), Txn(0, Etcd.NoFault)]

  const SECOND_SYNC := [Spawn(1, 2), Get(1, Etcd.NoFault), Mark(1, true)]

  const SYNCS := FIRST_SYNC + ([Mark(0, true)] + SECOND_SYNC)

  function RacingSaves(first: Flag, a: Flag, b: Flag): seq<Step> {
    var read := Some(Master(first.value, first.kind, 1));
    [Save(None, first, "op", true)] + ([Save(read, a, "op", true)] + ([Save(read, b, "op", true)] + SYNCS))
  }

  /** Two transactions read version 1 of a feature and both commit version 2. The first value
      reaches etcd and the second only MySQL, although both outbox rows end as Completed. */
  lemma {:induction false} RacingSavesDiverge(first: Flag, a: Flag, b: Flag)
    requires first.Id() == a.Id() == b.Id() && a.value != b.value
    requires first.version == 1 && a.version == b.version == 2
    ensures var steps := RacingSaves(first, a, b);
            && Runs(Initial(map[]), steps)
            && var p := Exec(Initial(map[]), steps);
               && |p.db.tasks| == 3 && p.db.tasks[1].status == p.db.tasks[2].status == Completed
               && p.cas.calls == map[]
               && p.db.masters == map[a.Id() := Master(b.value, b.kind, 2)]
               && p.cas.store.data == map[KeyOf(a) := Etcd.Entry(Some(a), 1)]
  {
    var read := Some(Master(first.value, first.kind, 1));
    var p0 := Initial(map[]);
    var db1 := Commit(p0.db, None, first, "op", true);
    var db2 := Commit(db1, read, a, "op", true);
    var db3 := Commit(db2, read, b, "op", true);
    assert db3.tasks == [Task(Some(first), Pending, 0), Task(Some(a), Pending, 0), Task(Some(b), Pending, 0)];
    assert db3.masters == map[a.Id() := Master(b.value, b.kind, 2)];
    BothSync(db3, a, b);
    Then(p0.(db := db2), Save(read, b, "op", true), SYNCS);
    Then(p0.(db := db1), Save(read, a, "op", true), [Save(read, b, "op", true)] + SYNCS);
    Then(p0, Save(None, first, "op", true), [Save(read, a, "op", true)] + ([Save(read, b, "op", true)] + SYNCS));
  }

  lemma {:induction false} BothSync(db: Db, a: Flag, b: Flag)
    requires |db.tasks| == 3 && db.tasks[1..] == [Task(Some(a), Pending, 0), Task(Some(b), Pending, 0)]
    requires KeyOf(a) == KeyOf(b) && a.version == b.version
    ensures var p := System(db, Cas.System(EMPTY_STORE, map[]), map[]);
            && Runs(p, SYNCS)
            && Exec(p, SYNCS).db
               == db.(tasks := [db.tasks[0], Task(Some(a), Completed, 0), Task(Some(b), Completed, 0)])
            && Exec(p, SYNCS).cas.calls == map[]
            && Exec(p, SYNCS).cas.store.data == map[KeyOf(a) := Etcd.Entry(Some(a), 1)]
  {
    hide Runs, Exec, KeyOf;
    var p := System(db, Cas.System(EMPTY_STORE, map[]), map[]);
    var stored := Etcd.Commit(EMPTY_STORE, KeyOf(a), a);
    var p1 := System(db, Cas.System(stored, map[0 := Etcd.Done(KeyOf(a), a, Ok(1))]), map[0 := Goroutine(1)]);
    var p2 := System(SetStatus(db, 1, Completed, 0), Cas.System(stored, map[]), map[]);
    assert db.tasks[1] == Task(Some(a), Pending, 0) && db.tasks[2] == Task(Some(b), Pending, 0);
    SecondHalf(p2, a, b);
    MarkThen(p1, p2, SECOND_SYNC);
    FirstSync(p, p1, a, [Mark(0, true)] + SECOND_SYNC);
  }

  lemma {:induction false} MarkThen(p: System, q: System, rest: seq<Step>)
    requires 0 in p.cas.calls && p.cas.calls[0].Done? && p.cas.calls[0].result.Ok? && p.origins == map[0 := Goroutine(1)]
    requires q == System(SetStatus(p.db, 1, Completed, 0), Cas.System(p.cas.store, p.cas.calls - {0}), map[])
    requires Runs(q, rest)
    ensures Runs(p, [Mark(0, true)] + rest) && Exec(p, [Mark(0, true)] + rest) == Exec(q, rest)
  {
    assert Next(p, Mark(0, true)) == q;
    Then(p, Mark(0, true), rest);
  }

  lemma {:induction false} SecondHalf(p: System, a: Flag, b: Flag)
    requires |p.db.tasks| == 3 && p.db.tasks[1..] == [Task(Some(a), Completed, 0), Task(Some(b), Pending, 0)]
    requires KeyOf(a) == KeyOf(b) && a.version == b.version
    requires p.cas == Cas.System(Etcd.Commit(EMPTY_STORE, KeyOf(a), a), map[]) && p.origins == map[]
    ensures Runs(p, SECOND_SYNC)
    ensures Exec(p, SECOND_SYNC)
         == p.(db := p.db.(tasks := [p.db.tasks[0], Task(Some(a), Completed, 0), Task(Some(b), Completed, 0)]))
  {
    hide Runs, Exec;
    var q := System(p.db, Cas.System(p.cas.store, map[1 := Etcd.Done(KeyOf(b), b, Ok(1))]), map[1 := Goroutine(2)]);
    assert p.db.tasks[1] == Task(Some(a), Completed, 0) && p.db.tasks[2] == Task(Some(b), Pending, 0);
    MarkLast(q, KeyOf(b), b, p);
    SecondSync(p, q, b, [Mark(1, true)]);
    assert SECOND_SYNC == [Spawn(1, 2), Get(1, Etcd.NoFault)] + [Mark(1, true)];
  }

  lemma {:induction false} MarkLast(q: System, key: string, b: Flag, p: System)
    requires p.cas.calls == map[] && p.origins == map[] && |p.db.tasks| == 3
    requires q == System(p.db, Cas.System(p.cas.store, map[1 := Etcd.Done(key, b, Ok(1))]), map[1 := Goroutine(2)])
    ensures Runs(q, [Mark(1, true)]) && Exec(q, [Mark(1, true)]) == p.(db := SetStatus(p.db, 2, Completed, 0))
  {
    assert Next(q, Mark(1, true)) == p.(db := SetStatus(p.db, 2, Completed, 0));
    Then(q, Mark(1, true), []);
  }

  lemma {:induction false} FirstSync(p: System, q: System, a: Flag, rest: seq<Step>)
    requires |p.db.tasks| > 1 && p.db.tasks[1].payload == Some(a)
    requires p.cas == Cas.System(EMPTY_STORE, map[]) && p.origins == map[]
    requires q == System(p.db, Cas.System(Etcd.Commit(EMPTY_STORE, KeyOf(a), a), map[0 := Etcd.Done(KeyOf(a), a, Ok(1))]),
                         map[0 := Goroutine(1)])
    requires Runs(q, rest)
    ensures Runs(p, FIRST_SYNC + rest) && Exec(p, FIRST_SYNC + rest) == Exec(q, rest)
  {
    var p1 := Next(p, Spawn(0, 1));
    var p2 := Next(p1, Get(0, Etcd.NoFault));
    assert p2.cas.calls == map[0 := Etcd.Committing(KeyOf(a), a, 0, None)];
    assert Next(p2, Txn(0, Etcd.NoFault)) == q;
    Then(p2, Txn(0, Etcd.NoFault), rest);
    Then(p1, Get(0, Etcd.NoFault), [Txn(0, Etcd.NoFault)] + rest);
    Then(p, Spawn(0, 1), [Get(0, Etcd.NoFault)] + ([Txn(0, Etcd.NoFault)] + rest));
    assert FIRST_SYNC + rest
        == [Spawn(0, 1)] + ([Get(0, Etcd.NoFault)] + ([Txn(0, Etcd.NoFault)] + rest));
  }

  lemma {:induction false} SecondSync(p: System, q: System, b: Flag, rest: seq<Step>)
    requires |p.db.tasks| > 2 && p.db.tasks[2].payload == Some(b) && p.cas.calls == map[] && p.origins == map[]
    requires KeyOf(b) in p.cas.store.data && p.cas.store.data[KeyOf(b)].modRevision == 1
    requires Etcd.AtLeast(p.cas.store, KeyOf(b), b.version)
    requires q == System(p.db, Cas.System(p.cas.store, map[1 := Etcd.Done(KeyOf(b), b, Ok(1))]), map[1 := Goroutine(2)])
    requires Runs(q, rest)
    ensures Runs(p, [Spawn(1, 2), Get(1, Etcd.NoFault)] + rest)
    ensures Exec(p, [Spawn(1, 2), Get(1, Etcd.NoFault)] + rest) == Exec(q, rest)
  {
    var p1 := Next(p, Spawn(1, 2));
    assert Next(p1, Get(1, Etcd.NoFault)) == q;
    Then(p1, Get(1, Etcd.NoFault), rest);
    Then(p, Spawn(1, 2), [Get(1, Etcd.NoFault)] + rest);
    assert [Spawn(1, 2), Get(1, Etcd.NoFault)] + rest == [Spawn(1, 2)] + ([Get(1, Etcd.NoFault)] + rest);
  }
}
