/** The outbox worker: batches of the oldest pending rows, one sync each, a bounded number of
    attempts per row. */
module OutboxWorker {
  import opened Model
  import opened FeatureStore
  import opened Etcd
  import FeatureKey
  import Cas = CasProtocol

  const BATCH := 10
  const MAX_ATTEMPTS := 5

  /** The oldest pending rows among the first `n`, at most `limit` of them. */
  function Batch(tasks: seq<Task>, n: nat, limit: nat): (ids: seq<nat>)
    requires n <= |tasks|
    ensures |ids| <= limit
    decreases n
  {
    if n == 0 then []
    else
      var ids := Batch(tasks, n - 1, limit);
      if tasks[n - 1].status == Pending && |ids| < limit then ids + [n - 1] else ids
  }

  /** The row `i` is among the `limit` oldest pending rows. */
  predicate InBatch(tasks: seq<Task>, i: nat, limit: nat)
    requires i < |tasks|
  {
    tasks[i].status == Pending && |Batch(tasks, i, limit)| < limit
  }

  /** What one attempt leaves of a row. */
  function Attempted(t: Task, success: bool): Task {
    if t.payload.None? then t.(status := Failed)
    else if success then t.(status := Completed)
    else if t.retryCount + 1 >= MAX_ATTEMPTS then t.(status := Failed, retryCount := t.retryCount + 1)
    else t.(retryCount := t.retryCount + 1)
  }

  /** One pass of the worker: `synced` are the rows whose sync succeeded, `lost` those whose status
      update failed, which leaves them as they were. */
  function Pass(tasks: seq<Task>, limit: nat, synced: set<nat>, lost: set<nat>): (after: seq<Task>)
    ensures |after| == |tasks|
  {
    seq(|tasks|, i requires 0 <= i < |tasks| =>
      if InBatch(tasks, i, limit) && i !in lost then Attempted(tasks[i], i in synced) else tasks[i])
  }

  /** Whether the sync of one row succeeds, and what it leaves in etcd. */
  ghost function Synced(t: Task, store: Store, w: Weather): (bool, Store) {
    match t.payload
    case None => (false, store)
    case Some(flag) =>
      var (c, after) := Run(Getting(FeatureKey.BuildFeatureKey(flag.Id()), flag, 0), store, w, 0);
      (c.Done? && c.result.Ok?, after)
  }

  // ----- what a pass promises -----

  /** At most `limit` of the pending rows among the first `n`, oldest first, and none that is left out is
      older than one of them or would still fit. */
  ghost predicate OldestPending(tasks: seq<Task>, n: nat, ids: seq<nat>, limit: nat)
    requires n <= |tasks|
  {
    && |ids| <= limit
    && Rising(ids)
    && (forall i | i in ids :: i < n && tasks[i].status == Pending)
    && (forall i: nat | i < n && tasks[i].status == Pending && i !in ids :: |ids| == limit && After(i, ids))
  }

  ghost predicate Rising(ids: seq<nat>) {
    forall j, k | 0 <= j < k < |ids| :: ids[j] < ids[k]
  }

  ghost predicate After(i: nat, ids: seq<nat>) {
    forall j | j in ids :: j < i
  }

  /** The sync of one row: nothing for an unreadable payload, otherwise one call of SaveFeatureIfNewer with
      the row's flag under its key; it is fine exactly when the call returns no error. */
  ghost predicate Tried(t: Task, before: Store, w: Weather, ok: bool, after: Store) {
    match t.payload
    case None => !ok && after == before
    case Some(flag) =>
      exists r :: Answered(w, before, FeatureKey.BuildFeatureKey(flag.Id()), flag, r, after) && (ok <==> r.Ok?)
  }

  /** The rows were tried one after another, each on the store the one before it left. */
  ghost predicate TriedAll(tasks: seq<Task>, ids: seq<nat>, weather: nat -> Weather, synced: set<nat>,
        stores: seq<Store>)
  {
    && |stores| == |ids| + 1
    && (forall k: nat | k < |ids| ::
          ids[k] < |tasks| && Tried(tasks[ids[k]], stores[k], weather(k), ids[k] in synced, stores[k + 1]))
    && (forall i | i in synced :: i in ids)
  }

  /** A synced row is completed and keeps its count; an unreadable one is given up and keeps its count;
      one that was refused has one attempt more, the fifth being the last. */
  predicate Marked(before: Task, after: Task, ok: bool) {
    && after.payload == before.payload
    && (before.payload.Some? && ok ==> after.status == Completed && after.retryCount == before.retryCount)
    && (before.payload.None? ==> after.status == Failed && after.retryCount == before.retryCount)
    && (before.payload.Some? && !ok ==>
          && after.retryCount == before.retryCount + 1
          && after.status == if after.retryCount >= 5 then Failed else Pending)
  }

  /** Rows that were tried and whose update reached the database are marked; the others stay. */
  ghost predicate MarkedAll(before: seq<Task>, after: seq<Task>, ids: seq<nat>, synced: set<nat>, lost: set<nat>) {
    && |after| == |before|
    && forall i: nat | i < |before| ::
         if i in ids && i !in lost then Marked(before[i], after[i], i in synced) else after[i] == before[i]
  }

  lemma {:induction false} AttemptMarks(t: Task, ok: bool)
    requires t.status == Pending
    ensures Marked(t, Attempted(t, ok), ok)
  {
  }

  lemma {:induction false} SyncTries(t: Task, store: Store, w: Weather)
    ensures var (ok, after) := Synced(t, store, w); Tried(t, store, w, ok, after)
  {
    if t.payload.Some? {
      RunAnswers(w, store, FeatureKey.BuildFeatureKey(t.payload.value.Id()), t.payload.value);
    }
  }

  /** A pending row that can be read is synced if its requests do not fail and its rivals fall silent by
      the fourth round. */
  lemma {:induction false} UndisturbedIsSynced(t: Task, before: Store, w: Weather, ok: bool, after: Store)
    requires Tried(t, before, w, ok, after) && t.payload.Some?
    requires var key := FeatureKey.BuildFeatureKey(t.payload.value.Id());
             Sound(w, before, key) && exists k: nat :: k <= 3 && AloneFrom(w, key, 2 * k)
    ensures ok && AtLeast(after, FeatureKey.BuildFeatureKey(t.payload.value.Id()), t.payload.value.version)
  {
    hide Answered, Sound, AloneFrom;
    var flag := t.payload.value;
    var key := FeatureKey.BuildFeatureKey(flag.Id());
    var r :| Answered(w, before, key, flag, r, after) && (ok <==> r.Ok?);
    RetriesUntilStored(w, before, key, flag, r, after);
  }

  datatype Swept = Swept(tasks: seq<Task>, synced: set<nat>, store: Store)

  /** The outbox, the rows synced, and etcd, after the listed rows have been tried in order. */
  ghost function Sweep(tasks: seq<Task>, ids: seq<nat>, store: Store, weather: nat -> Weather, lost: set<nat>): Swept {
    if ids == [] then Swept(tasks, {}, store)
    else
      var before, id := Sweep(tasks, ids[..|ids| - 1], store, weather, lost), ids[|ids| - 1];
      if id >= |tasks| || id >= |before.tasks| then before
      else
        var (ok, after) := Synced(tasks[id], before.store, weather(|ids| - 1));
        Swept(if id in lost then before.tasks else before.tasks[id := Attempted(tasks[id], ok)],
              if ok then before.synced + {id} else before.synced,
              after)
  }

  class Outbox {
    var tasks: seq<Task>

    constructor (tasks: seq<Task>)
      ensures this.tasks == tasks
    {
      this.tasks := tasks;
    }

    method FetchPending(limit: nat) returns (ids: seq<nat>)
      ensures ids == Batch(tasks, |tasks|, limit)
      ensures OldestPending(tasks, |tasks|, ids, limit)
    {
      BatchIsOldest(tasks, |tasks|, limit);
      ids := [];
      for n := 0 to |tasks|
        invariant ids == Batch(tasks, n, limit)
      {
        if tasks[n].status == Pending && |ids| < limit {
          ids := ids + [n];
        }
      }
    }

    /** The update reaches the database or fails; its error is dropped or logged. */
    method UpdateStatus(id: nat, status: Status, retryCount: nat, fails: bool)
      requires id < |tasks|
      modifies this
      ensures tasks == if fails then old(tasks)
                       else old(tasks)[id := old(tasks)[id].(status := status, retryCount := retryCount)]
    {
      if !fails {
        tasks := tasks[id := tasks[id].(status := status, retryCount := retryCount)];
      }
    }

    /** One pass over a fetched batch, sharing etcd with other clients that only do what calls do:
        the at most ten oldest pending rows are tried in order, and each row is marked by what became
        of it. */
    method ProcessPending(etcd: Client, weather: nat -> Weather, fetched: bool, lost: set<nat>)
      returns (synced: set<nat>, ghost ids: seq<nat>, ghost stores: seq<Store>)
      requires Cas.StoreOk(etcd.store) && forall n :: Cas.WellBehaved(weather(n))
      modifies this, etcd
      ensures if fetched then OldestPending(old(tasks), |old(tasks)|, ids, 10) else ids == []
      ensures TriedAll(old(tasks), ids, weather, synced, stores)
      ensures stores[0] == old(etcd.store) && stores[|ids|] == etcd.store
      ensures MarkedAll(old(tasks), tasks, ids, synced, lost)
      ensures tasks == if fetched then Pass(old(tasks), BATCH, synced, lost) else old(tasks)
      ensures fetched ==>
                Swept(tasks, synced, etcd.store)
                == Sweep(old(tasks), Batch(old(tasks), |old(tasks)|, BATCH), old(etcd.store), weather, lost)
      ensures !fetched ==> synced == {} && etcd.store == old(etcd.store)
      ensures Cas.StoreOk(etcd.store) && Cas.Grown(old(etcd.store), etcd.store)
      ensures AllStored(old(tasks), synced, etcd.store)
    {
      hide Tried, Marked, Attempted, Synced, Pass, AllStored, Sweep, StoresOf, Batch;
      hide Cas.Grown, Cas.StoreOk, Cas.WellBehaved;
      synced, ids, stores := {}, [], [etcd.store];
      NothingTried(tasks, etcd.store, weather, lost);
      if !fetched {
        return;
      }
      var batch := FetchPending(BATCH);
      ids := batch;
      ghost var before, store := tasks, etcd.store;
      for k := 0 to |batch|
        invariant Swept(tasks, synced, etcd.store) == Sweep(before, batch[..k], store, weather, lost)
        invariant stores == StoresOf(before, batch[..k], store, weather, lost)
      {
        NextOfBatch(before, BATCH, k);
        SweepFrame(before, batch[..k], store, weather, lost, batch[k]);
        SweepOneMore(before, batch, k, store, weather, lost);
        var done := ProcessOne(batch[k], etcd, weather(k), batch[k] in lost);
        if done {
          synced := synced + {batch[k]};
        }
        stores := stores + [etcd.store];
      }
      assert batch[..|batch|] == batch;
      PassIsSound(before, store, weather, lost);
    }

    method ProcessOne(id: nat, etcd: Client, w: Weather, fails: bool) returns (done: bool)
      requires id < |tasks| && tasks[id].status == Pending
      modifies this, etcd
      ensures tasks == if fails then old(tasks) else old(tasks)[id := Attempted(old(tasks)[id], done)]
      ensures (done, etcd.store) == Synced(old(tasks)[id], old(etcd.store), w)
      ensures Tried(old(tasks)[id], old(etcd.store), w, done, etcd.store)
      ensures if fails then tasks == old(tasks)
              else tasks == old(tasks)[id := tasks[id]] && Marked(old(tasks)[id], tasks[id], done)
    {
      SyncTries(tasks[id], etcd.store, w);
      var task := tasks[id];
      if task.payload.None? {
        // the payload is corrupt
        UpdateStatus(id, Failed, task.retryCount, fails);
        return false;
      }
      var flag := task.payload.value;
      var r := etcd.SaveFeatureIfNewer(FeatureKey.BuildFeatureKey(flag.Id()), flag, w);
      if r.Err? {
        var newRetryCount := task.retryCount + 1;
        if newRetryCount >= MAX_ATTEMPTS {
          UpdateStatus(id, Failed, newRetryCount, fails);
        } else {
          UpdateStatus(id, Pending, newRetryCount, fails);
        }
        return false;
      }
      UpdateStatus(id, Completed, task.retryCount, fails);
      return true;
    }
  }

  lemma {:induction false} NothingTried(tasks: seq<Task>, store: Store, weather: nat -> Weather, lost: set<nat>)
    ensures Sweep(tasks, [], store, weather, lost) == Swept(tasks, {}, store)
    ensures StoresOf(tasks, [], store, weather, lost) == [store]
    ensures TriedAll(tasks, [], weather, {}, [store]) && MarkedAll(tasks, tasks, [], {}, lost)
    ensures AllStored(tasks, {}, store)
    ensures Cas.StoreOk(store) ==> Cas.Grown(store, store)
  {
  }

  lemma {:induction false} SweepOneMore(tasks: seq<Task>, ids: seq<nat>, k: nat, store: Store,
        weather: nat -> Weather, lost: set<nat>)
    requires k < |ids| && ids[k] < |tasks| && |Sweep(tasks, ids[..k], store, weather, lost).tasks| == |tasks|
    ensures var id, before := ids[k], Sweep(tasks, ids[..k], store, weather, lost);
            var swept := Sweep(tasks, ids[..k + 1], store, weather, lost);
            var (ok, after) := Synced(tasks[id], before.store, weather(k));
            && swept == Swept(if id in lost then before.tasks else before.tasks[id := Attempted(tasks[id], ok)],
                              if ok then before.synced + {id} else before.synced, after)
            && StoresOf(tasks, ids[..k + 1], store, weather, lost)
               == StoresOf(tasks, ids[..k], store, weather, lost) + [after]
  {
    assert ids[..k + 1][..k] == ids[..k];
  }

  lemma {:induction false} NextOfBatch(tasks: seq<Task>, limit: nat, k: nat)
    requires k < |Batch(tasks, |tasks|, limit)|
    ensures var batch := Batch(tasks, |tasks|, limit);
            batch[k] < |tasks| && tasks[batch[k]].status == Pending && batch[k] !in batch[..k]
  {
    BatchMembers(tasks, |tasks|, limit);
    assert Batch(tasks, |tasks|, limit)[k] in Batch(tasks, |tasks|, limit);
  }

  lemma {:induction false} SweepFrame(tasks: seq<Task>, ids: seq<nat>, store: Store, weather: nat -> Weather,
        lost: set<nat>, i: nat)
    requires i < |tasks|
    ensures var swept := Sweep(tasks, ids, store, weather, lost);
            && |swept.tasks| == |tasks|
            && (i !in ids ==> swept.tasks[i] == tasks[i] && i !in swept.synced)
  {
    if ids != [] {
      SweepFrame(tasks, ids[..|ids| - 1], store, weather, lost, i);
      assert i in ids[..|ids| - 1] ==> i in ids;
    }
  }

  lemma {:induction false} SweptRow(tasks: seq<Task>, ids: seq<nat>, store: Store, weather: nat -> Weather,
        lost: set<nat>, i: nat)
    requires i < |tasks| && i in ids
    requires forall j, k | 0 <= j < k < |ids| :: ids[j] != ids[k]
    ensures var swept := Sweep(tasks, ids, store, weather, lost);
            && |swept.tasks| == |tasks|
            && swept.tasks[i] == if i in lost then tasks[i] else Attempted(tasks[i], i in swept.synced)
  {
    var rest := ids[..|ids| - 1];
    SweepFrame(tasks, rest, store, weather, lost, i);
    if ids[|ids| - 1] != i {
      assert i in rest;
      SweptRow(tasks, rest, store, weather, lost, i);
    }
  }

  /** Trying the rows of the batch one by one is one pass. */
  lemma {:induction false} SweepIsPass(tasks: seq<Task>, store: Store, weather: nat -> Weather, lost: set<nat>)
    ensures var swept := Sweep(tasks, Batch(tasks, |tasks|, BATCH), store, weather, lost);
            swept.tasks == Pass(tasks, BATCH, swept.synced, lost)
  {
    var batch := Batch(tasks, |tasks|, BATCH);
    var swept := Sweep(tasks, batch, store, weather, lost);
    BatchMembers(tasks, |tasks|, BATCH);
    if tasks == [] {
      assert batch == [];
    } else {
      SweepFrame(tasks, batch, store, weather, lost, 0);
    }
    forall i | 0 <= i < |tasks|
      ensures swept.tasks[i] == Pass(tasks, BATCH, swept.synced, lost)[i]
    {
      SweepFrame(tasks, batch, store, weather, lost, i);
      if i in batch {
        SweptRow(tasks, batch, store, weather, lost, i);
      }
    }
  }

  /** Nothing a sweep does lowers a version, and what it reports as synced is in etcd at its end. */
  lemma {:induction false} SweepStores(tasks: seq<Task>, ids: seq<nat>, store: Store, weather: nat -> Weather,
        lost: set<nat>)
    requires Cas.StoreOk(store) && forall n :: Cas.WellBehaved(weather(n))
    ensures var swept := Sweep(tasks, ids, store, weather, lost);
            && Cas.StoreOk(swept.store) && Cas.Grown(store, swept.store)
            && AllStored(tasks, swept.synced, swept.store)
  {
    if ids != [] {
      var rest, id := ids[..|ids| - 1], ids[|ids| - 1];
      var before := Sweep(tasks, rest, store, weather, lost);
      SweepStores(tasks, rest, store, weather, lost);
      if id < |tasks| {
        SyncStores(tasks[id], before.store, weather(|ids| - 1));
        var after := Synced(tasks[id], before.store, weather(|ids| - 1)).1;
        StoredStays(tasks, before.synced, before.store, after);
        Cas.GrownTransitive(store, before.store, after);
      }
    }
  }

  lemma {:induction false} SyncStores(t: Task, store: Store, w: Weather)
    requires Cas.StoreOk(store) && Cas.WellBehaved(w)
    ensures var (ok, after) := Synced(t, store, w);
            && Cas.StoreOk(after) && Cas.Grown(store, after)
            && (ok ==> t.payload.Some?
                       && AtLeast(after, FeatureKey.BuildFeatureKey(t.payload.value.Id()), t.payload.value.version))
  {
    if t.payload.Some? {
      var c := Getting(FeatureKey.BuildFeatureKey(t.payload.value.Id()), t.payload.value, 0);
      Cas.CallGrows(c, store, w, 0);
      SuccessMeansStored(c, store, w, 0);
    }
  }

  /** The rows reported as synced have reached etcd. */
  ghost predicate AllStored(tasks: seq<Task>, synced: set<nat>, store: Store) {
    forall i | i in synced ::
      i < |tasks| && tasks[i].payload.Some? &&
      AtLeast(store, FeatureKey.BuildFeatureKey(tasks[i].payload.value.Id()), tasks[i].payload.value.version)
  }

  lemma {:induction false} StoredStays(tasks: seq<Task>, synced: set<nat>, before: Store, after: Store)
    requires AllStored(tasks, synced, before) && Cas.Grown(before, after) && Cas.StoreOk(after)
    ensures AllStored(tasks, synced, after)
  {
    forall i | i in synced
      ensures AtLeast(after, FeatureKey.BuildFeatureKey(tasks[i].payload.value.Id()), tasks[i].payload.value.version)
    {
      assert Cas.Advanced(before, after, FeatureKey.BuildFeatureKey(tasks[i].payload.value.Id()));
    }
  }

  /** The stores a sweep goes through. */
  ghost function StoresOf(tasks: seq<Task>, ids: seq<nat>, store: Store, weather: nat -> Weather,
        lost: set<nat>): seq<Store>
  {
    if ids == [] then [store]
    else StoresOf(tasks, ids[..|ids| - 1], store, weather, lost) + [Sweep(tasks, ids, store, weather, lost).store]
  }

  lemma {:induction false} SweepTries(tasks: seq<Task>, ids: seq<nat>, store: Store, weather: nat -> Weather,
        lost: set<nat>)
    requires forall k | 0 <= k < |ids| :: ids[k] < |tasks|
    requires forall j, k | 0 <= j < k < |ids| :: ids[j] != ids[k]
    ensures var stores := StoresOf(tasks, ids, store, weather, lost);
            && TriedAll(tasks, ids, weather, Sweep(tasks, ids, store, weather, lost).synced, stores)
            && stores[0] == store && stores[|ids|] == Sweep(tasks, ids, store, weather, lost).store
  {
    hide Tried, Attempted, Synced;
    if ids != [] {
      var rest, id := ids[..|ids| - 1], ids[|ids| - 1];
      SweepTries(tasks, rest, store, weather, lost);
      SweepFrame(tasks, rest, store, weather, lost, id);
      assert forall k | 0 <= k < |rest| :: ids[k] == rest[k];
      SyncTries(tasks[id], Sweep(tasks, rest, store, weather, lost).store, weather(|rest|));
    }
  }

  /** The whole pass over the rows of the batch. */
  lemma {:induction false} PassIsSound(tasks: seq<Task>, store: Store, weather: nat -> Weather, lost: set<nat>)
    requires Cas.StoreOk(store) && forall n :: Cas.WellBehaved(weather(n))
    ensures var ids := Batch(tasks, |tasks|, BATCH);
            var swept, stores := Sweep(tasks, ids, store, weather, lost), StoresOf(tasks, ids, store, weather, lost);
            && swept.tasks == Pass(tasks, BATCH, swept.synced, lost)
            && TriedAll(tasks, ids, weather, swept.synced, stores) && stores[0] == store && stores[|ids|] == swept.store
            && MarkedAll(tasks, swept.tasks, ids, swept.synced, lost)
            && Cas.StoreOk(swept.store) && Cas.Grown(store, swept.store) && AllStored(tasks, swept.synced, swept.store)
  {
    hide Tried, Attempted, Synced, Sweep, StoresOf, Batch, Marked, AllStored;
    var ids := Batch(tasks, |tasks|, BATCH);
    var swept := Sweep(tasks, ids, store, weather, lost);
    BatchMembers(tasks, |tasks|, BATCH);
    assert forall k | 0 <= k < |ids| :: ids[k] in ids;
    SweepIsPass(tasks, store, weather, lost);
    SweepStores(tasks, ids, store, weather, lost);
    SweepTries(tasks, ids, store, weather, lost);
    forall i: nat | i < |tasks| && i in ids && i !in lost
      ensures Marked(tasks[i], swept.tasks[i], i in swept.synced)
    {
      AttemptMarks(tasks[i], i in swept.synced);
    }
  }

  lemma {:induction false} BatchIsOldest(tasks: seq<Task>, n: nat, limit: nat)
    requires n <= |tasks|
    ensures OldestPending(tasks, n, Batch(tasks, n, limit), limit)
  {
    if n > 0 {
      BatchIsOldest(tasks, n - 1, limit);
      OneMoreRow(tasks, n, Batch(tasks, n - 1, limit), limit);
    }
  }

  lemma {:induction false} RisingMore(ids: seq<nat>, i: nat)
    requires Rising(ids) && After(i, ids)
    ensures Rising(ids + [i]) && forall j :: j in ids + [i] <==> j in ids || j == i
  {
    var more := ids + [i];
    assert more[|ids|] == i;
    forall j, k | 0 <= j < k < |more|
      ensures more[j] < more[k]
    {
      if k == |ids| {
        assert more[j] in ids;
      }
    }
  }

  lemma {:induction false} OneMoreRow(tasks: seq<Task>, n: nat, ids: seq<nat>, limit: nat)
    requires 0 < n <= |tasks| && OldestPending(tasks, n - 1, ids, limit)
    ensures OldestPending(tasks, n, if tasks[n - 1].status == Pending && |ids| < limit then ids + [n - 1] else ids, limit)
  {
    hide Rising;
    RisingMore(ids, n - 1);
  }

  /** A batch lists each of its rows once. */
  lemma {:induction false} BatchMembers(tasks: seq<Task>, n: nat, limit: nat)
    requires n <= |tasks|
    ensures forall i | i in Batch(tasks, n, limit) :: i < n && InBatch(tasks, i, limit)
    ensures forall i | 0 <= i < n && InBatch(tasks, i, limit) :: i in Batch(tasks, n, limit)
    ensures forall i, j | 0 <= i < j < |Batch(tasks, n, limit)| :: Batch(tasks, n, limit)[i] != Batch(tasks, n, limit)[j]
    decreases n
  {
    if n > 0 {
      BatchMembers(tasks, n - 1, limit);
      var ids := Batch(tasks, n - 1, limit);
      assert forall i | 0 <= i < |ids| :: ids[i] in ids;
    }
  }

  // ----- the outbox drains -----

  /** The attempts a row has left. */
  function Weight(t: Task): nat {
    if t.status == Pending && t.retryCount < MAX_ATTEMPTS then MAX_ATTEMPTS - t.retryCount else 0
  }

  /** The attempts the first `n` rows have left together. */
  function Potential(tasks: seq<Task>, n: nat): nat
    requires n <= |tasks|
  {
    if n == 0 then 0 else Potential(tasks, n - 1) + Weight(tasks[n - 1])
  }

  ghost predicate PendingHaveAttempts(tasks: seq<Task>) {
    forall i | 0 <= i < |tasks| && tasks[i].status == Pending :: tasks[i].retryCount < MAX_ATTEMPTS
  }

  /** The rows attempted among the first `n` whose status update takes effect. */
  function Recorded(tasks: seq<Task>, n: nat, limit: nat, lost: set<nat>): nat
    requires n <= |tasks|
  {
    if n == 0 then 0
    else Recorded(tasks, n - 1, limit, lost) + if InBatch(tasks, n - 1, limit) && n - 1 !in lost then 1 else 0
  }

  lemma {:induction false} AllRecorded(tasks: seq<Task>, n: nat, limit: nat)
    requires n <= |tasks|
    ensures Recorded(tasks, n, limit, {}) == |Batch(tasks, n, limit)|
  {
    if n > 0 {
      AllRecorded(tasks, n - 1, limit);
    }
  }

  /** Every attempt that is recorded costs at least one unit, whatever happens to its sync. */
  lemma {:induction false} PassSpendsAttempts(tasks: seq<Task>, limit: nat, synced: set<nat>, lost: set<nat>, n: nat)
    requires n <= |tasks| && PendingHaveAttempts(tasks)
    ensures Potential(Pass(tasks, limit, synced, lost), n) + Recorded(tasks, n, limit, lost) <= Potential(tasks, n)
  {
    hide Pass, Attempted, Weight, InBatch;
    if n > 0 {
      PassSpendsAttempts(tasks, limit, synced, lost, n - 1);
      RowSpendsAttempt(tasks, limit, synced, lost, n - 1);
    }
  }

  lemma {:induction false} RowSpendsAttempt(tasks: seq<Task>, limit: nat, synced: set<nat>, lost: set<nat>, i: nat)
    requires i < |tasks| && PendingHaveAttempts(tasks)
    ensures Weight(Pass(tasks, limit, synced, lost)[i]) + (if InBatch(tasks, i, limit) && i !in lost then 1 else 0)
         <= Weight(tasks[i])
  {
  }

  lemma {:induction false} PassKeepsAttempts(tasks: seq<Task>, limit: nat, synced: set<nat>, lost: set<nat>)
    requires PendingHaveAttempts(tasks)
    ensures PendingHaveAttempts(Pass(tasks, limit, synced, lost))
  {
  }

  /** One turn of a single worker: a pass with any pattern of etcd failures, in which the status
      updates of the rows in `lost` fail, then any new rows. */
  datatype Turn = Turn(synced: set<nat>, lost: set<nat>, arrivals: seq<Task>)

  function AfterTurn(tasks: seq<Task>, turn: Turn): (after: seq<Task>)
    ensures |after| >= |tasks|
  {
    Pass(tasks, BATCH, turn.synced, turn.lost) + turn.arrivals
  }

  function AfterTurns(tasks: seq<Task>, turns: seq<Turn>): (after: seq<Task>)
    ensures |after| >= |tasks|
    decreases |turns|
  {
    if turns == [] then tasks else AfterTurns(AfterTurn(tasks, turns[0]), turns[1..])
  }

  /** The turns all of whose status updates take effect. */
  function CleanTurns(turns: seq<Turn>): nat
    decreases |turns|
  {
    if turns == [] then 0 else (if turns[0].lost == {} then 1 else 0) + CleanTurns(turns[1..])
  }

  /** The attempts recorded over all turns. */
  function Attempts(tasks: seq<Task>, turns: seq<Turn>): nat
    decreases |turns|
  {
    if turns == [] then 0
    else Recorded(tasks, |tasks|, BATCH, turns[0].lost) + Attempts(AfterTurn(tasks, turns[0]), turns[1..])
  }

  lemma {:induction false} PotentialIsBounded(tasks: seq<Task>, n: nat)
    requires n <= |tasks|
    ensures Potential(tasks, n) <= MAX_ATTEMPTS * n
  {
    if n > 0 {
      PotentialIsBounded(tasks, n - 1);
    }
  }

  lemma {:induction false} PotentialOfPrefix(tasks: seq<Task>, more: seq<Task>, n: nat)
    requires n <= |tasks|
    ensures Potential(tasks + more, n) == Potential(tasks, n)
  {
    if n > 0 {
      PotentialOfPrefix(tasks, more, n - 1);
    }
  }

  /** A turn spends the recorded attempts and leaves new rows out of the account of the old ones. */
  lemma {:induction false} TurnSpendsAttempts(tasks: seq<Task>, turn: Turn, n: nat)
    requires n <= |tasks| && PendingHaveAttempts(tasks) && PendingHaveAttempts(turn.arrivals)
    ensures PendingHaveAttempts(AfterTurn(tasks, turn))
    ensures Potential(AfterTurn(tasks, turn), n) + Recorded(tasks, n, BATCH, turn.lost) <= Potential(tasks, n)
  {
    PassSpendsAttempts(tasks, BATCH, turn.synced, turn.lost, n);
    PassKeepsAttempts(tasks, BATCH, turn.synced, turn.lost);
    PotentialOfPrefix(Pass(tasks, BATCH, turn.synced, turn.lost), turn.arrivals, n);
  }

  lemma {:induction false} SettledRow(tasks: seq<Task>, turn: Turn, t: nat)
    requires t < |tasks| && tasks[t].status != Pending
    ensures AfterTurn(tasks, turn)[t] == tasks[t]
  {
  }

  /** A row that is no longer pending is left alone. */
  lemma {:induction false} SettledStays(tasks: seq<Task>, turns: seq<Turn>, t: nat)
    requires t < |tasks| && tasks[t].status != Pending
    ensures AfterTurns(tasks, turns)[t] == tasks[t]
    decreases |turns|
  {
    if turns != [] {
      SettledRow(tasks, turns[0], t);
      SettledStays(AfterTurn(tasks, turns[0]), turns[1..], t);
    }
  }

  // ----- the last few rows -----

  function PendingCount(tasks: seq<Task>, n: nat): nat
    requires n <= |tasks|
  {
    if n == 0 then 0 else PendingCount(tasks, n - 1) + if tasks[n - 1].status == Pending then 1 else 0
  }

  lemma {:induction false} BatchSize(tasks: seq<Task>, n: nat, limit: nat)
    requires n <= |tasks|
    ensures |Batch(tasks, n, limit)| == if PendingCount(tasks, n) <= limit then PendingCount(tasks, n) else limit
  {
    if n > 0 {
      BatchSize(tasks, n - 1, limit);
    }
  }

  /** No turn makes an old row pending again. */
  lemma {:induction false} PendingShrinks(tasks: seq<Task>, turn: Turn, n: nat)
    requires n <= |tasks|
    ensures PendingCount(AfterTurn(tasks, turn), n) <= PendingCount(tasks, n)
  {
    if n > 0 {
      PendingShrinks(tasks, turn, n - 1);
    }
  }

  lemma {:induction false} PendingCountGrows(tasks: seq<Task>, i: nat, n: nat)
    requires i < n <= |tasks|
    ensures PendingCount(tasks, i) + (if tasks[i].status == Pending then 1 else 0) <= PendingCount(tasks, n)
    decreases n
  {
    if i < n - 1 {
      PendingCountGrows(tasks, i, n - 1);
    }
  }

  /** Fewer than a batch of the first `n` rows are pending, none with more than `weight` attempts left. */
  ghost predicate FewLeft(tasks: seq<Task>, n: nat, weight: nat)
    requires n <= |tasks|
  {
    && PendingCount(tasks, n) < BATCH
    && forall i | 0 <= i < n && tasks[i].status == Pending :: Weight(tasks[i]) <= weight
  }

  /** Then each of them is tried in every turn. */
  lemma {:induction false} TurnWithFewLeft(tasks: seq<Task>, turn: Turn, n: nat, weight: nat)
    requires n <= |tasks| && PendingHaveAttempts(tasks) && FewLeft(tasks, n, weight)
    ensures FewLeft(AfterTurn(tasks, turn), n, weight)
    ensures turn.lost == {} && weight > 0 ==> FewLeft(AfterTurn(tasks, turn), n, weight - 1)
  {
    PendingShrinks(tasks, turn, n);
    forall i | 0 <= i < n && AfterTurn(tasks, turn)[i].status == Pending
      ensures Weight(AfterTurn(tasks, turn)[i]) <= weight
      ensures turn.lost == {} && weight > 0 ==> Weight(AfterTurn(tasks, turn)[i]) <= weight - 1
    {
      PendingCountGrows(tasks, i, n);
      BatchSize(tasks, i, BATCH);
      RowSpendsAttempt(tasks, BATCH, turn.synced, turn.lost, i);
      assert tasks[i].status == Pending && InBatch(tasks, i, BATCH);
    }
  }

  lemma {:induction false} FewLeftSettle(tasks: seq<Task>, turns: seq<Turn>, t: nat, weight: nat)
    requires t < |tasks| && PendingHaveAttempts(tasks) && FewLeft(tasks, t + 1, weight)
    requires forall i | 0 <= i < |turns| :: PendingHaveAttempts(turns[i].arrivals)
    requires CleanTurns(turns) >= weight
    ensures AfterTurns(tasks, turns)[t].status != Pending
    decreases |turns|
  {
    hide Pass, Recorded;
    if tasks[t].status != Pending {
      SettledStays(tasks, turns, t);
    } else if turns != [] {
      TurnWithFewLeft(tasks, turns[0], t + 1, weight);
      TurnSpendsAttempts(tasks, turns[0], t + 1);
      FewLeftSettle(AfterTurn(tasks, turns[0]), turns[1..], t, if turns[0].lost == {} then weight - 1 else weight);
    }
  }

  // ----- every row -----

  /** No row starves: whatever arrives after every pass, whatever etcd refuses and whatever updates
      are lost in other turns, a row has left Pending after as many turns without a lost update as
      the attempts that it and the older rows have left fill batches, and five more. That is at most
      one turn for every two rows up to it, and five more. */
  lemma {:induction false} NoRowStarves(tasks: seq<Task>, turns: seq<Turn>, t: nat)
    requires t < |tasks| && PendingHaveAttempts(tasks)
    requires forall i | 0 <= i < |turns| :: PendingHaveAttempts(turns[i].arrivals)
    requires CleanTurns(turns) >= Potential(tasks, t + 1) / BATCH + MAX_ATTEMPTS
    ensures Potential(tasks, t + 1) / BATCH <= (t + 1) / 2
    ensures AfterTurns(tasks, turns)[t].status != Pending
    decreases |turns|
  {
    hide Pass, InBatch, Batch;
    PotentialIsBounded(tasks, t + 1);
    if tasks[t].status != Pending {
      SettledStays(tasks, turns, t);
    } else {
      var next := AfterTurn(tasks, turns[0]);
      TurnSpendsAttempts(tasks, turns[0], t + 1);
      if turns[0].lost != {} {
        NoRowStarves(next, turns[1..], t);
      } else if PendingCount(tasks, t + 1) < BATCH {
        FewLeftSettle(tasks, turns, t, MAX_ATTEMPTS);
      } else {
        AllRecorded(tasks, t + 1, BATCH);
        BatchSize(tasks, t + 1, BATCH);
        NoRowStarves(next, turns[1..], t);
      }
    }
  }

  /** Without arrivals the worker records at most five attempts per row in all. */
  lemma {:induction false} AttemptsAreBounded(tasks: seq<Task>, turns: seq<Turn>)
    requires PendingHaveAttempts(tasks) && forall i | 0 <= i < |turns| :: turns[i].arrivals == []
    ensures Attempts(tasks, turns) <= Potential(tasks, |tasks|) <= MAX_ATTEMPTS * |tasks|
    decreases |turns|
  {
    PotentialIsBounded(tasks, |tasks|);
    if turns != [] {
      assert |AfterTurn(tasks, turns[0])| == |tasks|;
      TurnSpendsAttempts(tasks, turns[0], |tasks|);
      AttemptsAreBounded(AfterTurn(tasks, turns[0]), turns[1..]);
    }
  }

  /** After as many turns without a lost update as the attempts left fill batches, and five more,
      nothing is pending. */
  lemma {:induction false} OutboxDrains(tasks: seq<Task>, turns: seq<Turn>)
    requires PendingHaveAttempts(tasks) && forall i | 0 <= i < |turns| :: turns[i].arrivals == []
    requires CleanTurns(turns) >= Potential(tasks, |tasks|) / BATCH + MAX_ATTEMPTS
    ensures forall t | 0 <= t < |tasks| :: AfterTurns(tasks, turns)[t].status != Pending
  {
    hide *;
    forall t | 0 <= t < |tasks| {
      RowDrains(tasks, turns, t);
    }
  }

  lemma {:induction false} RowDrains(tasks: seq<Task>, turns: seq<Turn>, t: nat)
    requires PendingHaveAttempts(tasks) && forall i | 0 <= i < |turns| :: turns[i].arrivals == []
    requires CleanTurns(turns) >= Potential(tasks, |tasks|) / BATCH + MAX_ATTEMPTS && t < |tasks|
    ensures AfterTurns(tasks, turns)[t].status != Pending
  {
    PotentialGrows(tasks, t + 1, |tasks|);
    NoRowStarves(tasks, turns, t);
  }

  lemma {:induction false} PotentialGrows(tasks: seq<Task>, m: nat, n: nat)
    requires m <= n <= |tasks|
    ensures Potential(tasks, m) <= Potential(tasks, n)
    decreases n
  {
    if m < n {
      PotentialGrows(tasks, m, n - 1);
    }
  }
}
