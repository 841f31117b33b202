/** Any number of SaveFeatureIfNewer calls, each stopped anywhere between its requests. */
module CasProtocol {
  import opened Model
  import opened Etcd

  datatype System = System(store: Store, calls: map<nat, Call>)

  datatype Step =
    | Begin(id: nat, key: string, flag: Flag)
    | Get(id: nat, fault: Fault)
    | Txn(id: nat, fault: Fault)
    | Forget(id: nat)  // the call returned, or its process crashed

  predicate Enabled(s: System, step: Step) {
    match step
    case Begin(id, _, _) => id !in s.calls
    case Get(id, _) => id in s.calls && s.calls[id].Getting?
    case Txn(id, _) => id in s.calls && s.calls[id].Committing?
    case Forget(id) => id in s.calls
  }

  function Next(s: System, step: Step): System
    requires Enabled(s, step)
  {
    match step
    case Begin(id, key, flag) => s.(calls := s.calls[id := Getting(key, flag, 0)])
    case Get(id, fault) =>
      s.(calls := s.calls[id := AfterGet(s.calls[id], Read(s.store, s.calls[id].key), fault)])
    case Txn(id, fault) =>
      var (call, store) := AfterTxn(s.calls[id], s.store, fault);
      System(store, s.calls[id := call])
    case Forget(id) => s.(calls := s.calls - {id})
  }

  // ----- the store -----

  /** Stored payloads are flags, and no mod revision lies beyond the global revision. */
  ghost predicate StoreOk(s: Store) {
    forall key | key in s.data :: s.data[key].payload.Some? && 0 < s.data[key].modRevision <= s.revision
  }

  function VersionOf(s: Store, key: string): int {
    if key in s.data && s.data[key].payload.Some? then s.data[key].payload.value.version else -1
  }

  /** Between two states of the store every key keeps its entry or has been given a strictly
      newer version at a strictly newer revision. */
  ghost predicate Grown(before: Store, after: Store) {
    && before.revision <= after.revision
    && forall key | key in before.data :: Advanced(before, after, key)
  }

  ghost predicate Advanced(before: Store, after: Store, key: string) {
    key in before.data && key in after.data &&
    (|| after.data[key] == before.data[key]
     || (&& before.data[key].modRevision < after.data[key].modRevision
         && VersionOf(before, key) < VersionOf(after, key)))
  }

  lemma {:induction false} GrownTransitive(a: Store, b: Store, c: Store)
    requires Grown(a, b) && Grown(b, c)
    ensures Grown(a, c)
  {
    forall key | key in a.data
      ensures Advanced(a, c, key)
    {
      assert Advanced(a, b, key) && Advanced(b, c, key);
    }
  }

  // ----- the calls -----

  /** What a pending call knows about the store it read, and what a returned one has achieved.
      An unchanged mod revision means an unchanged entry: there is no ABA. */
  ghost predicate CallOk(s: Store, c: Call) {
    match c
    case Getting(_, _, _) => true
    case Committing(key, flag, _, None) => true
    case Committing(key, flag, _, Some(e)) =>
      && key in s.data
      && e.payload.Some? && e.payload.value.version < flag.version
      && e.modRevision <= s.data[key].modRevision
      && (e.modRevision == s.data[key].modRevision ==> s.data[key] == e)
    case Done(key, flag, result) => result.Ok? ==> AtLeast(s, key, flag.version)
  }

  ghost predicate Inv(s: System) {
    && StoreOk(s.store)
    && forall id | id in s.calls :: CallOk(s.store, s.calls[id])
  }

  /** What a call knows survives every growth of the store. */
  lemma {:induction false} CallOkStable(before: Store, after: Store, c: Call)
    requires StoreOk(before) && StoreOk(after) && Grown(before, after) && CallOk(before, c)
    ensures CallOk(after, c)
  {
    match c {
      case Committing(key, flag, _, Some(e)) => assert Advanced(before, after, key);
      case Done(key, flag, result) =>
        if result.Ok? {
          assert Advanced(before, after, key);
        }
      case _ =>
    }
  }

  /** A commit that passes its comparison raises the version. */
  lemma {:induction false} CommitGrows(s: Store, c: Call)
    requires StoreOk(s) && CallOk(s, c) && c.Committing? && Unchanged(s, c.key, c.seen)
    ensures var s' := Commit(s, c.key, c.flag);
            StoreOk(s') && Grown(s, s') && VersionOf(s, c.key) < c.flag.version
  {
    var s' := Commit(s, c.key, c.flag);
    forall key | key in s.data
      ensures Advanced(s, s', key)
    {
    }
  }

  lemma {:induction false} StepKeepsInv(s: System, step: Step)
    requires Inv(s) && Enabled(s, step)
    ensures Inv(Next(s, step)) && Grown(s.store, Next(s, step).store)
  {
    var t := Next(s, step);
    if step.Txn? && Unchanged(s.store, s.calls[step.id].key, s.calls[step.id].seen) {
      CommitGrows(s.store, s.calls[step.id]);
    }
    assert Grown(s.store, t.store) && StoreOk(t.store);
    forall id | id in t.calls
      ensures CallOk(t.store, t.calls[id])
    {
      if id in s.calls && t.calls[id] == s.calls[id] {
        CallOkStable(s.store, t.store, s.calls[id]);
      }
    }
  }

  /** The other clients only ever do what some run of calls could do. */
  ghost predicate WellBehaved(w: Weather) {
    forall n: nat, s: Store | StoreOk(s) :: StoreOk(w.others(n, s)) && Grown(s, w.others(n, s))
  }

  /** Among such clients one call of the retry loop lowers no version. */
  lemma {:induction false} CallGrows(c: Call, s: Store, w: Weather, n: nat)
    requires WellBehaved(w) && StoreOk(s) && CallOk(s, c)
    ensures StoreOk(Run(c, s, w, n).1) && Grown(s, Run(c, s, w, n).1)
    decreases Remaining(c)
  {
    if !c.Done? {
      var s1 := w.others(n, s);
      CallOkStable(s, s1, c);
      if c.Getting? {
        CallGrows(AfterGet(c, Read(s1, c.key), w.fault(n)), s1, w, n + 1);
      } else {
        var (c2, s2) := AfterTxn(c, s1, w.fault(n));
        if Unchanged(s1, c.key, c.seen) {
          CommitGrows(s1, c);
        }
        CallGrows(c2, s2, w, n + 1);
        GrownTransitive(s1, s2, Run(c2, s2, w, n + 1).1);
      }
      GrownTransitive(s, s1, Run(c, s, w, n).1);
    }
  }

  /** Such clients leave nothing behind that does not parse. */
  lemma {:induction false} LeftIsOk(w: Weather, s: Store, n: nat)
    requires WellBehaved(w) && StoreOk(s)
    ensures StoreOk(Left(w, s, n)) && Grown(s, Left(w, s, n))
  {
    if n > 0 {
      LeftIsOk(w, s, n - 1);
      GrownTransitive(s, Left(w, s, n - 1), Left(w, s, n));
    }
  }

  /** Among such clients a call without faults fails only if its rivals have stored a newer version four
      times in a row, each time between its read and its transaction. */
  lemma {:induction false} ErrorMeansNewerVersions(w: Weather, s: Store, key: string, flag: Flag, r: Result<int>,
        after: Store)
    requires WellBehaved(w) && StoreOk(s) && (forall n: nat :: w.fault(n) == NoFault)
    requires Answered(w, s, key, flag, r, after) && r == Err
    ensures forall k: nat | k < 4 :: VersionOf(Left(w, s, 2 * k + 1), key) < VersionOf(Left(w, s, 2 * k + 2), key)
    ensures after == Left(w, s, 8)
  {
    hide Answered, WellBehaved;
    forall n: nat
      ensures StoreOk(Left(w, s, n))
    {
      LeftIsOk(w, s, n);
    }
    ErrorMeansFourRaces(w, s, key, flag, r, after);
    forall k: nat | k < 4
      ensures VersionOf(Left(w, s, 2 * k + 1), key) < VersionOf(Left(w, s, 2 * k + 2), key)
    {
      assert RaceLost(w, s, key, flag.version, k);
      NextIsGrown(w, s, 2 * k + 1);
    }
  }

  lemma {:induction false} NextIsGrown(w: Weather, s: Store, n: nat)
    requires WellBehaved(w) && StoreOk(s)
    ensures Grown(Left(w, s, n), Left(w, s, n + 1)) && StoreOk(Left(w, s, n + 1))
    ensures forall key | key in Left(w, s, n).data :: Advanced(Left(w, s, n), Left(w, s, n + 1), key)
  {
    LeftIsOk(w, s, n);
    assert Left(w, s, n + 1) == w.others(n, Left(w, s, n));
  }

  // ----- runs -----

  predicate Runs(s: System, steps: seq<Step>)
    decreases |steps|
  {
    steps == [] || (Enabled(s, steps[0]) && Runs(Next(s, steps[0]), steps[1..]))
  }

  function Exec(s: System, steps: seq<Step>): System
    requires Runs(s, steps)
    decreases |steps|
  {
    if steps == [] then s else Exec(Next(s, steps[0]), steps[1..])
  }

  /** Over any run no stored version ever decreases, and no entry changes without its version
      and its mod revision increasing. */
  lemma {:induction false} VersionsNeverDecrease(s: System, steps: seq<Step>)
    requires Inv(s) && Runs(s, steps)
    ensures Inv(Exec(s, steps)) && Grown(s.store, Exec(s, steps).store)
    decreases |steps|
  {
    if steps != [] {
      StepKeepsInv(s, steps[0]);
      VersionsNeverDecrease(Next(s, steps[0]), steps[1..]);
      GrownTransitive(s.store, Next(s, steps[0]).store, Exec(s, steps).store);
    }
  }

  /** A call that has returned without an error finds the stored version at least its own, from
      then on and for ever. */
  lemma {:induction false} SuccessIsForever(s: System, id: nat, steps: seq<Step>)
    requires Inv(s) && id in s.calls && s.calls[id].Done? && s.calls[id].result.Ok? && Runs(s, steps)
    ensures AtLeast(Exec(s, steps).store, s.calls[id].key, s.calls[id].flag.version)
  {
    VersionsNeverDecrease(s, steps);
    CallOkStable(s.store, Exec(s, steps).store, s.calls[id]);
  }

  // ----- the event log -----

  /** The writes since `base`: revisions ascend, every write of a key has a greater version than
      all before it, and the store holds the last one. */
  ghost predicate LogOk(base: Store, s: Store) {
    && (forall i | 0 <= i < |s.log| :: base.revision < s.log[i].revision <= s.revision)
    && (forall i, j | 0 <= i < j < |s.log| :: s.log[i].revision < s.log[j].revision)
    && (forall i, j | 0 <= i < j < |s.log| && s.log[i].key == s.log[j].key ::
          s.log[i].flag.version < s.log[j].flag.version)
    && (forall i | 0 <= i < |s.log| :: VersionOf(base, s.log[i].key) < s.log[i].flag.version)
    && (forall key :: Read(s, key) == LastWrite(s.log, key, Read(base, key)))
  }

  function LastWrite(log: seq<Write>, key: string, before: Option<Entry>): Option<Entry> {
    if log == [] then before
    else if log[|log| - 1].key == key then Some(Entry(Some(log[|log| - 1].flag), log[|log| - 1].revision))
    else LastWrite(log[..|log| - 1], key, before)
  }

  lemma {:induction false} LastWriteIsNewest(base: Store, log: seq<Write>, key: string)
    requires forall i, j | 0 <= i < j < |log| && log[i].key == log[j].key :: log[i].flag.version < log[j].flag.version
    ensures match LastWrite(log, key, Read(base, key))
            case None => Read(base, key) == None && forall w | w in log :: w.key != key
            case Some(e) =>
              || (e == Entry(e.payload, e.modRevision) && Read(base, key) == Some(e) && forall w | w in log :: w.key != key)
              || (exists w :: w in log && w.key == key && e == Entry(Some(w.flag), w.revision)
                              && forall x | x in log && x.key == key :: x.flag.version <= w.flag.version)
  {
    if log != [] {
      var rest, w := log[..|log| - 1], log[|log| - 1];
      assert log == rest + [w];
      LastWriteIsNewest(base, rest, key);
      if w.key == key {
        forall x | x in log && x.key == key
          ensures x.flag.version <= w.flag.version
        {
          var i :| 0 <= i < |log| && log[i] == x;
        }
        assert w in log;
      }
    }
  }

  lemma {:induction false} CommitKeepsLog(base: Store, s: Store, c: Call)
    requires StoreOk(s) && base.revision <= s.revision && LogOk(base, s)
    requires CallOk(s, c) && c.Committing? && Unchanged(s, c.key, c.seen)
    ensures LogOk(base, Commit(s, c.key, c.flag))
  {
    CommitGrows(s, c);
    var t := Commit(s, c.key, c.flag);
    assert t.log[..|t.log| - 1] == s.log;
    VersionAboveLog(base, s, c.key);
    VersionAboveBase(base, s, c.key);
    forall key
      ensures Read(t, key) == LastWrite(t.log, key, Read(base, key))
    {
      assert Read(s, key) == LastWrite(s.log, key, Read(base, key));
    }
  }

  lemma {:induction false} VersionAboveLog(base: Store, s: Store, key: string)
    requires LogOk(base, s)
    ensures forall i | 0 <= i < |s.log| && s.log[i].key == key :: s.log[i].flag.version <= VersionOf(s, key)
  {
    LastWriteIsNewest(base, s.log, key);
    assert Read(s, key) == LastWrite(s.log, key, Read(base, key));
    forall i | 0 <= i < |s.log| && s.log[i].key == key
      ensures s.log[i].flag.version <= VersionOf(s, key)
    {
      assert s.log[i] in s.log;
    }
  }

  lemma {:induction false} VersionAboveBase(base: Store, s: Store, key: string)
    requires LogOk(base, s)
    ensures VersionOf(base, key) <= VersionOf(s, key)
  {
    assert Read(s, key) == LastWrite(s.log, key, Read(base, key));
    LastWriteIsNewest(base, s.log, key);
  }

  lemma {:induction false} RunKeepsLog(base: Store, s: System, steps: seq<Step>)
    requires StoreOk(base) && base.revision <= s.store.revision
    requires Inv(s) && LogOk(base, s.store) && Runs(s, steps)
    ensures LogOk(base, Exec(s, steps).store)
    decreases |steps|
  {
    if steps != [] {
      var step := steps[0];
      StepKeepsInv(s, step);
      if step.Txn? && Unchanged(s.store, s.calls[step.id].key, s.calls[step.id].seen) {
        CommitKeepsLog(base, s.store, s.calls[step.id]);
      }
      RunKeepsLog(base, Next(s, step), steps[1..]);
    }
  }

  function Start(store: Store): System {
    System(store.(log := []), map[])
  }

  /** After any run a key holds the greatest version of all: that of the start and those of every
      committed call; and it is the one the last commit wrote. */
  lemma {:induction false} FinalVersionIsMaximum(store: Store, steps: seq<Step>, key: string)
    requires StoreOk(store) && Runs(Start(store), steps)
    ensures var end := Exec(Start(store), steps).store;
            && VersionOf(store, key) <= VersionOf(end, key)
            && (forall w | w in end.log && w.key == key :: w.flag.version <= VersionOf(end, key))
            && (VersionOf(end, key) == VersionOf(store, key)
                || exists w :: w in end.log && w.key == key && end.data[key] == Entry(Some(w.flag), w.revision))
  {
    RunKeepsLog(store, Start(store), steps);
    var end := Exec(Start(store), steps).store;
    LastWriteIsNewest(store, end.log, key);
    VersionAboveBase(store, end, key);
    assert Read(end, key) == LastWrite(end.log, key, Read(store, key));
  }
}
