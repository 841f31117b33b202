/** What the loops of the worker and the reconciler do are steps of the synchronisation, so what holds of
    every run of it holds of them. */
module SyncRefinement {
  import opened Model
  import opened FeatureKey
  import opened FeatureStore
  import opened SyncSystem
  import Outbox = OutboxWorker
  import Recon = Reconciler

  /** What the worker makes of a row it has tried is what the synchronisation reports of it. */
  lemma {:induction false} MarkIsReport(db: Db, i: nat, ok: bool, after: Task)
    requires i < |db.tasks| && db.tasks[i].status == Pending && db.tasks[i].payload.Some?
    requires Outbox.Marked(db.tasks[i], after, ok)
    ensures db.(tasks := db.tasks[i := after]) == Report(db, Worker(i, db.tasks[i].retryCount), ok)
  {
  }

  // ----- the reconciler -----

  /** MySQL has held this content of the feature. */
  predicate Held(db: Db, id: FeatureId, content: Setting) {
    (id, content) in Seeded(db.seeds) + History(db.tasks)
  }

  /** Whatever was saved, every master is content that has been committed. */
  ghost predicate MastersHeld(db: Db) {
    forall id | id in db.masters :: Held(db, id, ContentOf(db.masters[id]))
  }

  lemma {:induction false} CommitHolds(db: Db, read: Option<Master>, flag: Flag, operator: string, saved: bool)
    requires MastersHeld(db)
    ensures var db' := Commit(db, read, flag, operator, saved);
            MastersHeld(db') && forall id, content | Held(db, id, content) :: Held(db', id, content)
  {
    var db' := Commit(db, read, flag, operator, saved);
    assert db'.tasks[..|db'.tasks| - 1] == db.tasks;
    assert flag.(version := VersionOf(read) + 1).Id() == flag.Id();
  }

  lemma {:induction false} StepHolds(p: System, s: Step)
    requires Inv(p) && Enabled(p, s) && MastersHeld(p.db)
    ensures MastersHeld(Next(p, s).db)
    ensures forall id, content | Held(p.db, id, content) :: Held(Next(p, s).db, id, content)
  {
    match s {
      case Save(read, flag, operator, saved) => CommitHolds(p.db, read, flag, operator, saved);
      case Mark(id, written) => MarkKeepsHistory(p, id);
      case _ => assert Next(p, s).db == p.db;
    }
  }

  lemma {:induction false} RunHolds(p: System, steps: seq<Step>)
    requires Inv(p) && MastersHeld(p.db) && Runs(p, steps)
    ensures Inv(Exec(p, steps)) && MastersHeld(Exec(p, steps).db)
    ensures forall id, content | Held(p.db, id, content) :: Held(Exec(p, steps).db, id, content)
    decreases |steps|
  {
    hide Inv, Held, Next, Enabled;
    if steps != [] {
      StepKeepsInv(p, steps[0]);
      StepHolds(p, steps[0]);
      RunHolds(Next(p, steps[0]), steps[1..]);
    }
  }

  /** The reconciler reads a master, and much later, saves racing or lost in between, turns to its row: if
      the key is in etcd by then and the row has a version, pushing the row's flag is a step of the
      synchronisation. */
  lemma {:induction false} PushIsInspect(seeds: map<FeatureId, Master>, before: seq<Step>, after: seq<Step>,
        id: FeatureId, flag: Flag, call: nat)
    requires Runs(Initial(seeds), before) && Runs(Exec(Initial(seeds), before), after)
    requires id in Exec(Initial(seeds), before).db.masters
    requires Recon.IsFlagOf(flag, Recon.Row(id, Exec(Initial(seeds), before).db.masters[id])) && flag.version > 0
    requires var p := Exec(Exec(Initial(seeds), before), after);
             call !in p.cas.calls && BuildFeatureKey(id) in p.cas.store.data
    ensures Enabled(Exec(Exec(Initial(seeds), before), after), Inspect(call, flag))
  {
    hide Inv, Exec, Runs;
    StartHolds(seeds);
    RunHolds(Initial(seeds), before);
    RunHolds(Exec(Initial(seeds), before), after);
    assert flag.Id() == id && flag.Content() == ContentOf(Exec(Initial(seeds), before).db.masters[id]);
  }

  lemma {:induction false} StartHolds(seeds: map<FeatureId, Master>)
    ensures Inv(Initial(seeds)) && MastersHeld(Initial(seeds).db)
  {
    Reachable(seeds, []);
  }
}
