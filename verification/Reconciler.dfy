/** The reconciler: one pass over all master rows, page by page, pushing each row to etcd. */
module Reconciler {
  import opened Model
  import opened Etcd
  import FeatureStore
  import FeatureKey
  import Cas = CasProtocol

  const DEFAULT_BATCH := 100

  /** A master row; the table is ordered by its identifier, so new rows come last. */
  datatype Row = Row(id: FeatureId, master: FeatureStore.Master)

  function FlagOf(row: Row): Flag {
    Flag(row.id.namespace, row.id.env, row.id.key, row.master.value, row.master.version, 0, row.master.kind)
  }

  function KeyOf(row: Row): string {
    FeatureKey.BuildFeatureKey(row.id)
  }

  /** What became of one row: its key was absent from etcd, a request failed, or etcd now holds at
      least the row's version. */
  datatype Outcome = Absent | Failed | Settled

  /** A row the pass has turned to: its position in the table, the page it was read with, what was
      read, what became of it. */
  datatype Visit = Visit(position: nat, page: nat, row: Row, outcome: Outcome)

  /** The table at the n-th page read: rows are appended in between, never removed, and a row
      keeps its identity. */
  ghost predicate Appending(tables: nat -> seq<Row>, most: nat) {
    && (forall n :: |tables(n)| <= most)
    && (forall m, n | m <= n :: |tables(m)| <= |tables(n)|)
    && (forall m, n, i | m <= n && 0 <= i < |tables(m)| :: tables(m)[i].id == tables(n)[i].id)
  }

  /** The outcome of one row and what it leaves in etcd. A key that is present is always pushed,
      because the flag read back has version 0. */
  ghost function Checked(store: Store, row: Row, w: Weather, fault: Fault): (Outcome, Store) {
    if fault != NoFault then (Failed, store)
    else if KeyOf(row) !in store.data then (Absent, store)
    else if row.master.version == 0 then (Settled, store)
    else
      var (c, store') := Run(Getting(KeyOf(row), FlagOf(row), 0), store, w, 0);
      (if c.Done? && c.result.Ok? then Settled else Failed, store')
  }

  /** No request fails and nobody interferes. */
  ghost predicate Calm(w: Weather) {
    forall n: nat, s: Store :: w.fault(n) == NoFault && w.others(n, s) == s
  }

  /** In a calm the push of a present key succeeds at once and adds no key. */
  lemma {:induction false} CalmSettles(store: Store, row: Row, w: Weather)
    requires Cas.StoreOk(store) && Calm(w) && KeyOf(row) in store.data
    ensures Checked(store, row, w, NoFault).0 == Settled
    ensures Checked(store, row, w, NoFault).1.data.Keys == store.data.Keys
  {
    var c, e := Getting(KeyOf(row), FlagOf(row), 0), store.data[KeyOf(row)];
    assert w.others(0, store) == store && w.fault(0) == NoFault;
    assert Run(c, store, w, 0) == Run(AfterGet(c, Some(e), NoFault), store, w, 1);
    if e.payload.value.version < row.master.version {
      var c1 := Committing(KeyOf(row), FlagOf(row), 0, Some(e));
      assert w.others(1, store) == store && w.fault(1) == NoFault;
      var (c2, s2) := AfterTxn(c1, store, NoFault);
      assert s2.data.Keys == store.data.Keys;
      assert Run(c1, store, w, 1) == Run(c2, s2, w, 2) == (c2, s2);
    }
  }

  /** No request of this call fails, and nobody else writes its key meanwhile. */
  ghost predicate Undisturbed(w: Weather, key: string) {
    && (forall n: nat :: w.fault(n) == NoFault)
    && (forall n: nat, s: Store :: Read(w.others(n, s), key) == Read(s, key))
  }

  /** The push of a present key that meets no error and no rival for the key succeeds. */
  lemma {:induction false} UndisturbedSettles(store: Store, row: Row, w: Weather)
    requires Cas.StoreOk(store) && Undisturbed(w, KeyOf(row)) && KeyOf(row) in store.data
    ensures Checked(store, row, w, NoFault).0 == Settled
  {
    var key, c := KeyOf(row), Getting(KeyOf(row), FlagOf(row), 0);
    var s1 := w.others(0, store);
    assert w.fault(0) == NoFault && Read(s1, key) == Read(store, key) == Some(store.data[key]);
    assert Run(c, store, w, 0) == Run(AfterGet(c, Read(s1, key), NoFault), s1, w, 1);
    if store.data[key].payload.value.version < row.master.version {
      var c1, s2 := Committing(key, FlagOf(row), 0, Read(s1, key)), w.others(1, s1);
      assert w.fault(1) == NoFault && Read(s2, key) == Read(s1, key);
      var (c2, s3) := AfterTxn(c1, s2, NoFault);
      assert Run(c1, s1, w, 1) == Run(c2, s3, w, 2) == (c2, s3);
    }
  }

  /** The flag of a master row: its identity, its value, type and version, and no revision. */
  predicate IsFlagOf(flag: Flag, row: Row) {
    && flag.namespace == row.id.namespace && flag.env == row.id.env && flag.key == row.id.key
    && flag.value == row.master.value && flag.kind == row.master.kind && flag.version == row.master.version
    && flag.revision == 0
  }

  /** What the check of one row does: nothing if the read fails or the key is absent, which is an error
      too, or the row has no version yet; otherwise one call with the row's flag under its key. */
  ghost predicate Pushed(before: Store, row: Row, w: Weather, fault: Fault, outcome: Outcome, after: Store) {
    if fault != NoFault then outcome == Failed && after == before
    else if FeatureKey.BuildFeatureKey(row.id) !in before.data then outcome == Absent && after == before
    else if row.master.version == 0 then outcome == Settled && after == before
    else
      exists flag, r ::
        && IsFlagOf(flag, row) && Answered(w, before, FeatureKey.BuildFeatureKey(row.id), flag, r, after)
        && outcome == if r.Ok? then Settled else Failed
  }

  lemma {:induction false} CheckedPushes(store: Store, row: Row, w: Weather, fault: Fault)
    ensures var (outcome, after) := Checked(store, row, w, fault); Pushed(store, row, w, fault, outcome, after)
  {
    hide Answered, Run;
    RunAnswers(w, store, KeyOf(row), FlagOf(row));
    var (c, after) := Run(Getting(KeyOf(row), FlagOf(row), 0), store, w, 0);
    var r := c.result;
    assert IsFlagOf(FlagOf(row), row);
    assert Answered(w, store, FeatureKey.BuildFeatureKey(row.id), FlagOf(row), r, after);
  }

  /** When no request fails and nobody else writes the key, a present entry of a lower version is replaced
      by the row's value, type and version, and any other stays. */
  lemma {:induction false} PushWritesRow(before: Store, row: Row, w: Weather, outcome: Outcome, after: Store)
    requires Cas.StoreOk(before) && Undisturbed(w, KeyOf(row)) && KeyOf(row) in before.data
    requires Pushed(before, row, w, NoFault, outcome, after)
    ensures outcome == Settled && KeyOf(row) in after.data
    ensures if before.data[KeyOf(row)].payload.value.version < row.master.version then
              after.data[KeyOf(row)].payload.Some? && IsFlagOf(after.data[KeyOf(row)].payload.value, row)
            else
              after.data[KeyOf(row)] == before.data[KeyOf(row)]
  {
    hide Answered, IsFlagOf;
    if row.master.version > 0 {
      var flag, r :| && IsFlagOf(flag, row) && Answered(w, before, KeyOf(row), flag, r, after)
                     && outcome == if r.Ok? then Settled else Failed;
      VersionOfFlag(flag, row);
      assert AloneFrom(w, KeyOf(row), 0);
      AloneItStores(w, before, KeyOf(row), flag, r, after);
    }
  }

  lemma {:induction false} VersionOfFlag(flag: Flag, row: Row)
    requires IsFlagOf(flag, row)
    ensures flag.version == row.master.version
  {
  }

  /** Every settled visit holds of the store. */
  ghost predicate Holds(visits: seq<Visit>, store: Store) {
    forall v | v in visits && v.outcome.Settled? :: AtLeast(store, KeyOf(v.row), v.row.master.version)
  }

  /** Every visit is about the row MySQL had at that position when its page was read. */
  ghost predicate FromTables(visits: seq<Visit>, tables: nat -> seq<Row>) {
    forall v | v in visits :: v.position < |tables(v.page)| && v.row == tables(v.page)[v.position]
  }

  /** The visits go through the table in order, each position once, below `end`. */
  ghost predicate InOrder(visits: seq<Visit>, end: nat) {
    && (forall i | 0 <= i < |visits| :: visits[i].position < end)
    && (forall i, j | 0 <= i < j < |visits| :: visits[i].position < visits[j].position)
  }

  /** The first `n` positions have all been visited. */
  ghost predicate Covers(visits: seq<Visit>, n: nat) {
    forall p: nat | p < n :: Visited(visits, p)
  }

  predicate Visited(visits: seq<Visit>, p: nat) {
    exists i | 0 <= i < |visits| :: visits[i].position == p
  }

  lemma {:induction false} VisitAppend(visits: seq<Visit>, v: Visit, p: nat)
    ensures Visited(visits, p) || v.position == p ==> Visited(visits + [v], p)
  {
    var more := visits + [v];
    assert more[|visits|] == v;
    if Visited(visits, p) {
      var i :| 0 <= i < |visits| && visits[i].position == p;
      assert more[i].position == p;
    }
  }

  ghost predicate AllCalm(weather: nat -> Weather, faults: nat -> Fault) {
    forall n: nat :: Calm(weather(n)) && faults(n) == NoFault
  }

  /** The visited rows are settled if etcd had their key and absent if not, and etcd's keys are
      what they were. */
  ghost predicate SettledIffPresent(visits: seq<Visit>, before: Store, after: Store) {
    && after.data.Keys == before.data.Keys
    && forall v | v in visits :: v.outcome == if KeyOf(v.row) in before.data then Settled else Absent
  }

  // ----- the stores a pass goes through -----

  /** Each visit did to the store it found exactly what `Checked` says. */
  ghost predicate Chain(visits: seq<Visit>, stores: seq<Store>, weather: nat -> Weather, faults: nat -> Fault) {
    && |stores| == |visits| + 1
    && forall i | 0 <= i < |visits| ::
         (visits[i].outcome, stores[i + 1])
         == Checked(stores[i], visits[i].row, weather(visits[i].position), faults(visits[i].position))
  }

  lemma {:induction false} ChainAppend(visits: seq<Visit>, stores: seq<Store>, weather: nat -> Weather,
        faults: nat -> Fault, v: Visit, store: Store)
    requires Chain(visits, stores, weather, faults)
    requires (v.outcome, store) == Checked(stores[|visits|], v.row, weather(v.position), faults(v.position))
    ensures Chain(visits + [v], stores + [store], weather, faults)
  {
  }

  lemma {:induction false} CheckedGrows(store: Store, row: Row, w: Weather, fault: Fault)
    requires Cas.StoreOk(store) && Cas.WellBehaved(w)
    ensures var (outcome, after) := Checked(store, row, w, fault);
            && Cas.StoreOk(after) && Cas.Grown(store, after)
            && (outcome.Settled? ==> AtLeast(after, KeyOf(row), row.master.version))
  {
    var c := Getting(KeyOf(row), FlagOf(row), 0);
    Cas.CallGrows(c, store, w, 0);
    SuccessMeansStored(c, store, w, 0);
  }

  /** From any point of a pass on, etcd only grows. */
  lemma {:induction false} ChainGrows(visits: seq<Visit>, stores: seq<Store>, weather: nat -> Weather,
        faults: nat -> Fault, i: nat, j: nat)
    requires Chain(visits, stores, weather, faults) && i <= j <= |visits|
    requires Cas.StoreOk(stores[0]) && forall n :: Cas.WellBehaved(weather(n))
    ensures Cas.StoreOk(stores[i]) && Cas.StoreOk(stores[j]) && Cas.Grown(stores[i], stores[j])
    decreases j
  {
    hide Checked, Cas.Grown, Cas.StoreOk, Cas.WellBehaved;
    if j == 0 {
      GrownReflexive(stores[0]);
    } else if i == j {
      ChainGrows(visits, stores, weather, faults, i - 1, j - 1);
      CheckedGrows(stores[j - 1], visits[j - 1].row, weather(visits[j - 1].position), faults(visits[j - 1].position));
      GrownReflexive(stores[i]);
    } else {
      ChainGrows(visits, stores, weather, faults, i, j - 1);
      CheckedGrows(stores[j - 1], visits[j - 1].row, weather(visits[j - 1].position), faults(visits[j - 1].position));
      Cas.GrownTransitive(stores[i], stores[j - 1], stores[j]);
    }
  }

  lemma {:induction false} GrownReflexive(store: Store)
    ensures Cas.Grown(store, store)
  {
    forall key | key in store.data
      ensures Cas.Advanced(store, store, key)
    {
    }
  }

  /** What a pass has settled is settled at its end. */
  lemma {:induction false} ChainHolds(visits: seq<Visit>, stores: seq<Store>, weather: nat -> Weather,
        faults: nat -> Fault)
    requires Chain(visits, stores, weather, faults)
    requires Cas.StoreOk(stores[0]) && forall n :: Cas.WellBehaved(weather(n))
    ensures Holds(visits, stores[|visits|])
  {
    hide Checked, Cas.WellBehaved;
    forall v | v in visits && v.outcome.Settled?
      ensures AtLeast(stores[|visits|], KeyOf(v.row), v.row.master.version)
    {
      var i :| 0 <= i < |visits| && visits[i] == v;
      ChainGrows(visits, stores, weather, faults, 0, i);
      CheckedGrows(stores[i], v.row, weather(v.position), faults(v.position));
      ChainGrows(visits, stores, weather, faults, i + 1, |visits|);
      assert Cas.Advanced(stores[i + 1], stores[|visits|], KeyOf(v.row));
    }
  }

  /** A row whose key etcd had, and whose own requests met no error and no rival, is settled, whatever
      became of the others. */
  ghost predicate UndisturbedAreSettled(visits: seq<Visit>, before: Store, weather: nat -> Weather,
        faults: nat -> Fault) {
    forall v | v in visits && KeyOf(v.row) in before.data && faults(v.position) == NoFault
               && Undisturbed(weather(v.position), KeyOf(v.row)) ::
      v.outcome == Settled
  }

  lemma {:induction false} ChainSettles(visits: seq<Visit>, stores: seq<Store>, weather: nat -> Weather,
        faults: nat -> Fault)
    requires Chain(visits, stores, weather, faults)
    requires Cas.StoreOk(stores[0]) && forall n :: Cas.WellBehaved(weather(n))
    ensures UndisturbedAreSettled(visits, stores[0], weather, faults)
  {
    hide Checked, Cas.WellBehaved, Undisturbed, Cas.StoreOk;
    forall v | v in visits && KeyOf(v.row) in stores[0].data && faults(v.position) == NoFault
               && Undisturbed(weather(v.position), KeyOf(v.row))
      ensures v.outcome == Settled
    {
      var i :| 0 <= i < |visits| && visits[i] == v;
      ChainGrows(visits, stores, weather, faults, 0, i);
      assert Cas.Advanced(stores[0], stores[i], KeyOf(v.row));
      UndisturbedSettles(stores[i], v.row, weather(v.position));
      assert (visits[i].outcome, stores[i + 1]) == Checked(stores[i], v.row, weather(v.position), NoFault);
    }
  }

  lemma {:induction false} ChainIsCalm(visits: seq<Visit>, stores: seq<Store>, weather: nat -> Weather,
        faults: nat -> Fault)
    requires Chain(visits, stores, weather, faults) && AllCalm(weather, faults)
    requires Cas.StoreOk(stores[0]) && forall n :: Cas.WellBehaved(weather(n))
    ensures SettledIffPresent(visits, stores[0], stores[|visits|])
    decreases |visits|
  {
    if visits != [] {
      var n, v := |visits| - 1, visits[|visits| - 1];
      assert Chain(visits[..n], stores[..n + 1], weather, faults);
      ChainIsCalm(visits[..n], stores[..n + 1], weather, faults);
      ChainGrows(visits, stores, weather, faults, 0, n);
      assert visits == visits[..n] + [v];
      if KeyOf(v.row) in stores[n].data {
        CalmSettles(stores[n], v.row, weather(v.position));
      }
    }
  }

  // ----- what a pass writes -----

  /** The entry is the flag of a visited row, under its key. */
  ghost predicate FromRow(s: Store, key: string, visits: seq<Visit>) {
    && key in s.data && s.data[key].payload.Some?
    && exists v :: v in visits && key == FeatureKey.BuildFeatureKey(v.row.id) && IsFlagOf(s.data[key].payload.value, v.row)
  }

  /** Every entry that is not as it was is the flag of a visited row, or a write of the others. */
  ghost predicate WritesRows(visits: seq<Visit>, before: Store, after: Store, others: set<(string, Flag)>) {
    forall key | key in after.data ::
      KeptEntry(before, after, key) || WrittenEntry(after, key, others) || FromRow(after, key, visits)
  }

  lemma {:induction false} PushIsExplained(before: Store, row: Row, w: Weather, fault: Fault, outcome: Outcome,
        after: Store, others: set<(string, Flag)>) returns (flag: Flag)
    requires Pushed(before, row, w, fault, outcome, after) && OnlyWrites(w, others)
    ensures IsFlagOf(flag, row) && Explained(before, after, others + {(FeatureKey.BuildFeatureKey(row.id), flag)})
  {
    hide Answered, IsFlagOf, OnlyWrites;
    var key := FeatureKey.BuildFeatureKey(row.id);
    if fault == NoFault && key in before.data && row.master.version > 0 {
      var r;
      flag, r :| IsFlagOf(flag, row) && Answered(w, before, key, flag, r, after) && outcome == if r.Ok? then Settled else Failed;
      CallIsExplained(w, before, key, flag, r, after, others);
    } else {
      flag := FlagOf(row);
      FlagOfIsFlagOf(row);
      assert Explained(before, before, others + {(key, flag)});
    }
  }

  lemma {:induction false} FlagOfIsFlagOf(row: Row)
    ensures IsFlagOf(FlagOf(row), row)
  {
  }

  /** In a pass, entries change by writes of the others and of the flags of visited rows only. */
  lemma {:induction false} ChainWrites(visits: seq<Visit>, stores: seq<Store>, weather: nat -> Weather,
        faults: nat -> Fault, others: set<(string, Flag)>)
    requires Chain(visits, stores, weather, faults) && forall n :: OnlyWrites(weather(n), others)
    ensures WritesRows(visits, stores[0], stores[|visits|], others)
    decreases |visits|
  {
    hide Checked, OnlyWrites, IsFlagOf, Explained;
    if visits == [] {
      assert forall key | key in stores[0].data :: KeptEntry(stores[0], stores[0], key);
    } else {
      var n, v := |visits| - 1, visits[|visits| - 1];
      var rest := visits[..n];
      assert Chain(rest, stores[..n + 1], weather, faults);
      ChainWrites(rest, stores[..n + 1], weather, faults, others);
      CheckedPushes(stores[n], v.row, weather(v.position), faults(v.position));
      var flag := PushIsExplained(stores[n], v.row, weather(v.position), faults(v.position), v.outcome, stores[n + 1], others);
      OneMoreVisit(rest, v, stores[0], stores[n], stores[n + 1], flag, others);
      assert visits == rest + [v];
    }
  }

  lemma {:induction false} OneMoreVisit(visits: seq<Visit>, v: Visit, before: Store, middle: Store, after: Store,
        flag: Flag, others: set<(string, Flag)>)
    requires WritesRows(visits, before, middle, others) && IsFlagOf(flag, v.row)
    requires Explained(middle, after, others + {(FeatureKey.BuildFeatureKey(v.row.id), flag)})
    ensures WritesRows(visits + [v], before, after, others)
  {
    hide IsFlagOf;
    assert v in visits + [v] && forall u | u in visits :: u in visits + [v];
    forall key | key in after.data
      ensures KeptEntry(before, after, key) || WrittenEntry(after, key, others) || FromRow(after, key, visits + [v])
    {
      if KeptEntry(middle, after, key) {
        assert KeptEntry(before, middle, key) || WrittenEntry(middle, key, others) || FromRow(middle, key, visits);
      } else {
        assert WrittenEntry(after, key, others + {(FeatureKey.BuildFeatureKey(v.row.id), flag)});
      }
    }
  }

  class Reconciler {
    const batchSize: nat

    constructor (requested: int)
      ensures batchSize == if requested <= 0 then DEFAULT_BATCH else requested
      ensures batchSize > 0
    {
      batchSize := if requested <= 0 then DEFAULT_BATCH else requested;
    }

    /** One row: exactly what `Checked` says, and settled means settled. */
    method CheckOne(etcd: Client, row: Row, text: string, w: Weather, fault: Fault) returns (outcome: Outcome)
      requires Cas.StoreOk(etcd.store) && Cas.WellBehaved(w)
      modifies etcd
      ensures Cas.StoreOk(etcd.store) && Cas.Grown(old(etcd.store), etcd.store)
      ensures (outcome, etcd.store) == Checked(old(etcd.store), row, w, fault)
      ensures outcome.Settled? ==> AtLeast(etcd.store, KeyOf(row), row.master.version)
      ensures Pushed(old(etcd.store), row, w, fault, outcome, etcd.store)
    {
      CheckedPushes(etcd.store, row, w, fault);
      if fault != NoFault {
        return Failed;
      }
      var etcdFlag := etcd.GetFeature(KeyOf(row), text, fault);
      if etcdFlag.Err? {
        return Absent;
      }
      if etcdFlag.value.version < row.master.version {
        Cas.CallGrows(Getting(KeyOf(row), FlagOf(row), 0), etcd.store, w, 0);
        var r := etcd.SaveFeatureIfNewer(KeyOf(row), FlagOf(row), w);
        return if r.Ok? then Settled else Failed;
      }
      outcome := Settled;
    }

    /** A pass that is not cut short by a database error visits every row present at its start
        exactly once, although rows are appended between its pages; and it is cut short only if reading
        a page fails. Each visit does to etcd exactly
        what `Checked` says; what is settled stays so, so etcd ends with at least the version read
        from MySQL; and a row whose key etcd had is settled unless its own requests met an error or a
        rival. In a calm exactly the rows whose key etcd had are settled and the others are absent, so
        no key is ever added. */
    method Reconcile(etcd: Client, tables: nat -> seq<Row>, dbFails: nat -> bool, text: nat -> string,
          weather: nat -> Weather, faults: nat -> Fault, ghost most: nat,
          ghost others: set<(string, Flag)>)
      returns (visits: seq<Visit>, finished: bool, ghost stores: seq<Store>)
      requires batchSize > 0 && Appending(tables, most)
      requires Cas.StoreOk(etcd.store) && forall n :: Cas.WellBehaved(weather(n))
      modifies etcd
      ensures Chain(visits, stores, weather, faults)
      ensures stores[0] == old(etcd.store) && stores[|visits|] == etcd.store
      ensures Cas.StoreOk(etcd.store) && Cas.Grown(old(etcd.store), etcd.store)
      ensures exists end :: InOrder(visits, end)
      ensures finished ==> Covers(visits, |tables(0)|)
      ensures !finished ==> exists page :: dbFails(page)
      ensures FromTables(visits, tables) && Holds(visits, etcd.store)
      ensures UndisturbedAreSettled(visits, old(etcd.store), weather, faults)
      ensures (forall n :: OnlyWrites(weather(n), others)) ==> WritesRows(visits, old(etcd.store), etcd.store, others)
      ensures AllCalm(weather, faults) ==> SettledIffPresent(visits, old(etcd.store), etcd.store)
    {
      visits, stores, finished := [], [etcd.store], false;
      var offset, page := 0, 0;
      while true
        invariant InOrder(visits, offset)
        invariant Covers(visits, if offset < |tables(0)| then offset else |tables(0)|)
        invariant FromTables(visits, tables)
        invariant Chain(visits, stores, weather, faults)
        invariant stores[0] == old(etcd.store) && stores[|visits|] == etcd.store
        decreases most - offset
      {
        if dbFails(page) {
          break;
        }
        var table := tables(page);
        if |table| <= offset {
          finished := true;
          break;
        }
        var end := if offset + batchSize <= |table| then offset + batchSize else |table|;
        visits, stores := CheckPage(etcd, table, page, offset, end, visits, stores, text, weather, faults, tables);
        offset := offset + batchSize;
        page := page + 1;
      }
      PassIsSound(visits, stores, weather, faults);
      if forall n :: OnlyWrites(weather(n), others) {
        ChainWrites(visits, stores, weather, faults, others);
      }
    }

    method CheckPage(etcd: Client, table: seq<Row>, page: nat, offset: nat, end: nat, visits0: seq<Visit>,
          ghost stores0: seq<Store>, text: nat -> string, weather: nat -> Weather, faults: nat -> Fault,
          ghost tables: nat -> seq<Row>)
      returns (visits: seq<Visit>, ghost stores: seq<Store>)
      requires offset <= end <= |table| && table == tables(page)
      requires InOrder(visits0, offset) && FromTables(visits0, tables)
      requires Chain(visits0, stores0, weather, faults) && stores0[|visits0|] == etcd.store
      requires Cas.StoreOk(stores0[0]) && forall n :: Cas.WellBehaved(weather(n))
      modifies etcd
      ensures Chain(visits, stores, weather, faults) && stores[0] == stores0[0] && stores[|visits|] == etcd.store
      ensures InOrder(visits, end) && FromTables(visits, tables)
      ensures forall n: nat | n <= offset && Covers(visits0, n) :: Covers(visits, n)
      ensures Covers(visits0, offset) ==> Covers(visits, end)
    {
      visits, stores := visits0, stores0;
      for i := offset to end
        invariant Chain(visits, stores, weather, faults) && stores[0] == stores0[0] && stores[|visits|] == etcd.store
        invariant InOrder(visits, i) && FromTables(visits, tables)
        invariant forall n: nat | n <= offset && Covers(visits0, n) :: Covers(visits, n)
        invariant Covers(visits0, offset) ==> Covers(visits, i)
      {
        ChainGrows(visits, stores, weather, faults, 0, |visits|);
        var outcome := CheckOne(etcd, table[i], text(i), weather(i), faults(i));
        var v := Visit(i, page, table[i], outcome);
        ChainAppend(visits, stores, weather, faults, v, etcd.store);
        forall p: nat
          ensures Visited(visits, p) || p == i ==> Visited(visits + [v], p)
        {
          VisitAppend(visits, v, p);
        }
        visits, stores := visits + [v], stores + [etcd.store];
      }
    }
  }

  lemma {:induction false} PassIsSound(visits: seq<Visit>, stores: seq<Store>, weather: nat -> Weather,
        faults: nat -> Fault)
    requires Chain(visits, stores, weather, faults)
    requires Cas.StoreOk(stores[0]) && forall n :: Cas.WellBehaved(weather(n))
    ensures Cas.StoreOk(stores[|visits|]) && Cas.Grown(stores[0], stores[|visits|])
    ensures Holds(visits, stores[|visits|]) && UndisturbedAreSettled(visits, stores[0], weather, faults)
    ensures AllCalm(weather, faults) ==> SettledIffPresent(visits, stores[0], stores[|visits|])
  {
    ChainGrows(visits, stores, weather, faults, 0, |visits|);
    ChainHolds(visits, stores, weather, faults);
    ChainSettles(visits, stores, weather, faults);
    if AllCalm(weather, faults) {
      ChainIsCalm(visits, stores, weather, faults);
    }
  }
}
