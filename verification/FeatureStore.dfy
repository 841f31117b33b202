/** The MySQL side: the master record of each feature, its audit trail, and the outbox rows
    that announce every change. */
module FeatureStore {
  import opened Model

  datatype Master = Master(value: string, kind: string, version: nat)

  /** Row identifiers are positions: both tables only ever grow. */
  datatype Audit = Audit(id: FeatureId, oldValue: string, newValue: string, kind: string, operator: string)

  datatype Status = Pending | Completed | Failed

  /** An outbox row; a payload that is not a flag does not parse. */
  datatype Task = Task(payload: Option<Flag>, status: Status, retryCount: nat)

  /** `seeds` are the masters the database was set up with, which have no audit and no outbox row. */
  datatype Db = Db(masters: map<FeatureId, Master>, audits: seq<Audit>, tasks: seq<Task>,
                   seeds: map<FeatureId, Master>)

  function NewDb(seeds: map<FeatureId, Master>): Db {
    Db(seeds, [], [], seeds)
  }

  function Seed(db: Db, id: FeatureId): Option<Master> {
    if id in db.seeds then Some(db.seeds[id]) else None
  }

  function Current(db: Db, id: FeatureId): Option<Master> {
    if id in db.masters then Some(db.masters[id]) else None
  }

  function VersionOf(m: Option<Master>): nat {
    match m case None => 0 case Some(x) => x.version
  }

  function Successor(read: Option<Master>, flag: Flag): Master {
    Master(flag.value, flag.kind, VersionOf(read) + 1)
  }

  /** What the transaction commits, given the master it read and whether its Save took effect.
      Its read takes no lock, and the error of Save is dropped. */
  function Commit(db: Db, read: Option<Master>, flag: Flag, operator: string, saved: bool): Db {
    var next := Successor(read, flag);
    Db(if saved then db.masters[flag.Id() := next] else db.masters,
       db.audits + [Audit(flag.Id(), if read.Some? then read.value.value else "", flag.value, flag.kind, operator)],
       db.tasks + [Task(Some(flag.(version := next.version)), Pending, 0)],
       db.seeds)
  }

  /** Which statements of the transaction fail. */
  datatype Faults = Faults(read: bool, save: bool, audit: bool, outbox: bool)

  /** The outcome of SaveFeature: the new version, the outbox row, and the database. */
  function Saved(db: Db, flag: Flag, operator: string, valid: bool, faults: Faults): (Result<(nat, nat)>, Db) {
    if !valid || faults.read || faults.audit || faults.outbox then (Err, db)
    else
      var read := Current(db, flag.Id());
      (Ok((VersionOf(read) + 1, |db.tasks|)), Commit(db, read, flag, operator, !faults.save))
  }

  /** The flag a rollback saves: the audit's old value with the audit's own type. The current
      version it carries is overwritten by the save. */
  function RollbackFlag(db: Db, id: FeatureId, auditId: nat): Option<Flag> {
    if auditId < |db.audits| && db.audits[auditId].id == id then
      Some(Flag(id.namespace, id.env, id.key, db.audits[auditId].oldValue,
                VersionOf(Current(db, id)), 0, db.audits[auditId].kind))
    else None
  }

  /** A save that is answered with an error has changed nothing: the value was refused, or one of the
      checked statements failed. Any other has appended an audit from the old value to the new one and a
      pending outbox row with the flag at the next version, has told the caller that version and row, and
      has made the flag the master, unless its Save failed. */
  ghost predicate Recorded(db: Db, flag: Flag, operator: string, valid: bool, faults: Faults, r: Result<(nat, nat)>,
        after: Db)
  {
    && (r.Err? <==> !valid || faults.read || faults.audit || faults.outbox)
    && (r.Err? ==> after == db)
    && (r.Ok? ==>
          var (version, row) := r.value;
          && version == (if flag.Id() in db.masters then db.masters[flag.Id()].version else 0) + 1
          && row == |db.tasks| && |after.tasks| == row + 1 && after.tasks[..row] == db.tasks
          && after.tasks[row].status == Pending && after.tasks[row].retryCount == 0
          && after.tasks[row].payload == Some(flag.(version := version))
          && after.seeds == db.seeds
          && after.masters == (if faults.save then db.masters
                               else db.masters[flag.Id() := Master(flag.value, flag.kind, version)])
          && |after.audits| == |db.audits| + 1 && after.audits[..|db.audits|] == db.audits
          && var a := after.audits[|db.audits|];
             && a.id == flag.Id() && a.newValue == flag.value && a.kind == flag.kind && a.operator == operator
             && a.oldValue == if flag.Id() in db.masters then db.masters[flag.Id()].value else "")
  }

  lemma {:induction false} SavedRecords(db: Db, flag: Flag, operator: string, valid: bool, faults: Faults)
    ensures var (r, after) := Saved(db, flag, operator, valid, faults);
            Recorded(db, flag, operator, valid, faults, r, after)
  {
    var after := Saved(db, flag, operator, valid, faults).1;
    if after != db {
      assert after.tasks[..|db.tasks|] == db.tasks && after.audits[..|db.audits|] == db.audits;
    }
  }

  class FeatureService {
    var db: Db

    constructor (seeds: map<FeatureId, Master>)
      ensures db == NewDb(seeds)
    {
      db := NewDb(seeds);
    }

    /** One transaction on a private copy, published only if every checked statement succeeds. */
    method SaveFeature(flag: Flag, operator: string, valid: bool, faults: Faults)
      returns (r: Result<(nat, nat)>)
      modifies this
      ensures (r, db) == Saved(old(db), flag, operator, valid, faults)
      ensures Recorded(old(db), flag, operator, valid, faults, r, db)
    {
      SavedRecords(db, flag, operator, valid, faults);
      if !valid {
        return Err;
      }
      var tx := db;
      if faults.read {
        return Err;
      }
      var read := Current(tx, flag.Id());
      var master := Master(flag.value, flag.kind, 1);
      var oldValue := "";
      if read.Some? {
        oldValue := read.value.value;
        master := Master(flag.value, flag.kind, read.value.version + 1);
      }
      if !faults.save {
        tx := tx.(masters := tx.masters[flag.Id() := master]);
      }
      if faults.audit {
        return Err;
      }
      tx := tx.(audits := tx.audits + [Audit(flag.Id(), oldValue, flag.value, flag.kind, operator)]);
      if faults.outbox {
        return Err;
      }
      var outboxId := |tx.tasks|;
      tx := tx.(tasks := tx.tasks + [Task(Some(flag.(version := master.version)), Pending, 0)]);
      db := tx;
      r := Ok((master.version, outboxId));
    }

    method RollbackFeature(id: FeatureId, auditId: nat, operator: string, valid: Flag -> bool, faults: Faults)
      returns (r: Result<(nat, nat)>)
      modifies this
      ensures match RollbackFlag(old(db), id, auditId)
              case None => r == Err && db == old(db)
              case Some(f) => (r, db) == Saved(old(db), f, operator, valid(f), faults)
      ensures auditId >= |old(db).audits| || old(db).audits[auditId].id != id ==> r == Err && db == old(db)
      ensures r.Ok? ==>
                && auditId < |old(db).audits| && old(db).audits[auditId].id == id
                && var (version, row) := r.value;
                   && row < |db.tasks| && db.tasks[row].payload.Some?
                   && var f := db.tasks[row].payload.value;
                      && f.Id() == id && f.version == version
                      && f.value == old(db).audits[auditId].oldValue && f.kind == old(db).audits[auditId].kind
                      && (!faults.save ==> Current(db, id) == Some(Master(f.value, f.kind, version)))
    {
      if auditId >= |db.audits| {
        return Err;
      }
      var audit := db.audits[auditId];
      if audit.id.key != id.key || audit.id.env != id.env || audit.id.namespace != id.namespace {
        return Err;
      }
      var currentVersion := VersionOf(Current(db, id));
      var flag := Flag(id.namespace, id.env, id.key, audit.oldValue, currentVersion, 0, audit.kind);
      r := SaveFeature(flag, operator, valid(flag), faults);
    }
  }

  // ----- the trail of one feature -----

  function AuditsOf(audits: seq<Audit>, id: FeatureId): seq<Audit> {
    if audits == [] then []
    else
      var rest, a := AuditsOf(audits[..|audits| - 1], id), audits[|audits| - 1];
      if a.id == id then rest + [a] else rest
  }

  function FlagsOf(tasks: seq<Task>, id: FeatureId): seq<Flag> {
    if tasks == [] then []
    else
      var rest, t := FlagsOf(tasks[..|tasks| - 1], id), tasks[|tasks| - 1];
      if t.payload.Some? && t.payload.value.Id() == id then rest + [t.payload.value] else rest
  }

  /** The value a feature had after these audits, starting from its seed. */
  function LastValue(seed: Option<Master>, audits: seq<Audit>): string {
    if audits == [] then ValueOf(seed) else audits[|audits| - 1].newValue
  }

  /** Each audit starts from the value the one before it ended with, the first from the seed, and
      each outbox row announces its audit as the next version. */
  ghost predicate Linked(seed: Option<Master>, audits: seq<Audit>, flags: seq<Flag>) {
    && |audits| == |flags|
    && (forall i | 0 <= i < |audits| :: audits[i].oldValue == LastValue(seed, audits[..i]))
    && (forall i | 0 <= i < |flags| ::
          flags[i].Content() == Setting(audits[i].newValue, audits[i].kind, VersionOf(seed) + i + 1))
  }

  /** One audit and one outbox row for each version since the seed, linked, and the last of them,
      or the seed, is the master. */
  ghost predicate Ledger(seed: Option<Master>, current: Option<Master>, audits: seq<Audit>, flags: seq<Flag>) {
    && Linked(seed, audits, flags)
    && current == LastMaster(seed, audits)
  }

  function LastMaster(seed: Option<Master>, audits: seq<Audit>): Option<Master> {
    if audits == [] then seed
    else
      var last := audits[|audits| - 1];
      Some(Master(last.newValue, last.kind, VersionOf(seed) + |audits|))
  }

  /** The ledger of a feature is in order. */
  ghost predicate Trail(db: Db, id: FeatureId) {
    Ledger(Seed(db, id), Current(db, id), AuditsOf(db.audits, id), FlagsOf(db.tasks, id))
  }

  lemma {:induction false} TablesGrow(db: Db, read: Option<Master>, flag: Flag, operator: string, saved: bool,
        id: FeatureId)
    ensures var db' := Commit(db, read, flag, operator, saved);
            && AuditsOf(db'.audits, id)
               == AuditsOf(db.audits, id) + (if id == flag.Id() then [db'.audits[|db.audits|]] else [])
            && FlagsOf(db'.tasks, id)
               == FlagsOf(db.tasks, id) + (if id == flag.Id() then [flag.(version := VersionOf(read) + 1)] else [])
  {
    var db' := Commit(db, read, flag, operator, saved);
    assert db'.audits[..|db'.audits| - 1] == db.audits;
    assert db'.tasks[..|db'.tasks| - 1] == db.tasks;
    assert flag.(version := VersionOf(read) + 1).Id() == flag.Id();
  }

  lemma {:induction false} LinkedAppend(seed: Option<Master>, audits: seq<Audit>, flags: seq<Flag>, a: Audit, f: Flag)
    requires Linked(seed, audits, flags)
    ensures Linked(seed, audits + [a], flags + [f])
        <==> && a.oldValue == LastValue(seed, audits)
             && f.Content() == Setting(a.newValue, a.kind, VersionOf(seed) + |audits| + 1)
  {
    var audits', flags' := audits + [a], flags + [f];
    var n := |audits|;
    assert audits'[..n] == audits && audits'[n] == a && flags'[n] == f;
    if a.oldValue == LastValue(seed, audits) && f.Content() == Setting(a.newValue, a.kind, VersionOf(seed) + n + 1) {
      forall i | 0 <= i <= n
        ensures audits'[i].oldValue == LastValue(seed, audits'[..i])
      {
        if i < n {
          assert audits'[..i] == audits[..i];
        }
      }
    } else {
      assert audits'[n].oldValue != LastValue(seed, audits'[..n])
          || flags'[n].Content() != Setting(audits'[n].newValue, audits'[n].kind, VersionOf(seed) + n + 1);
    }
  }

  /** Appending to the ledger keeps it exactly when the audit and the outbox row continue from the
      current master and the new master is what they announce. */
  lemma {:induction false} LedgerAppend(seed: Option<Master>, current: Option<Master>, audits: seq<Audit>,
        flags: seq<Flag>, a: Audit, f: Flag, next: Option<Master>)
    requires Ledger(seed, current, audits, flags)
    ensures Ledger(seed, next, audits + [a], flags + [f])
        <==> && a.oldValue == ValueOf(current)
             && f.Content() == Setting(a.newValue, a.kind, VersionOf(current) + 1)
             && next == Some(Master(a.newValue, a.kind, VersionOf(current) + 1))
  {
    hide Linked;
    LinkedAppend(seed, audits, flags, a, f);
    assert LastValue(seed, audits) == ValueOf(current);
    assert VersionOf(current) == VersionOf(seed) + |audits|;
    assert LastMaster(seed, audits + [a]) == Some(Master(a.newValue, a.kind, VersionOf(current) + 1));
  }

  /** A read of the master that no other transaction has overtaken. */
  predicate UpToDate(db: Db, read: Option<Master>, id: FeatureId) {
    VersionOf(read) == VersionOf(Current(db, id)) && ValueOf(read) == ValueOf(Current(db, id))
  }

  function ValueOf(m: Option<Master>): string {
    match m case None => "" case Some(x) => x.value
  }

  /** A commit keeps the trail of the feature it saves exactly when what the transaction read is
      still the current master and its Save took effect. A concurrent save in between, or a
      dropped Save error, breaks the trail whatever values are written. */
  lemma {:induction false} CommitKeepsTrail(db: Db, read: Option<Master>, flag: Flag, operator: string, saved: bool)
    requires Trail(db, flag.Id())
    ensures Trail(Commit(db, read, flag, operator, saved), flag.Id()) <==> saved && UpToDate(db, read, flag.Id())
  {
    hide Ledger;
    var id, db' := flag.Id(), Commit(db, read, flag, operator, saved);
    var audits, flags := AuditsOf(db.audits, id), FlagsOf(db.tasks, id);
    var a, f := Audit(id, ValueOf(read), flag.value, flag.kind, operator), flag.(version := VersionOf(read) + 1);
    assert db'.audits[|db.audits|] == a;
    TablesGrow(db, read, flag, operator, saved, id);
    LedgerAppend(Seed(db, id), Current(db, id), audits, flags, a, f, Current(db', id));
    assert f.Content() == Setting(flag.value, flag.kind, VersionOf(read) + 1);
    assert Current(db', id) == if saved then Some(Successor(read, flag)) else Current(db, id);
    assert Seed(db', id) == Seed(db, id);
  }

  /** Other features are not touched. */
  lemma {:induction false} CommitKeepsOthers(db: Db, read: Option<Master>, flag: Flag, operator: string, saved: bool,
        id: FeatureId)
    requires Trail(db, id) && id != flag.Id()
    ensures Trail(Commit(db, read, flag, operator, saved), id)
  {
    hide Ledger;
    TablesGrow(db, read, flag, operator, saved, id);
    var db' := Commit(db, read, flag, operator, saved);
    assert AuditsOf(db'.audits, id) == AuditsOf(db.audits, id);
    assert FlagsOf(db'.tasks, id) == FlagsOf(db.tasks, id);
    assert Current(db', id) == Current(db, id);
  }

  // ----- any mix of saves and rollbacks -----

  datatype Request =
    | SaveCall(flag: Flag, operator: string, valid: bool, faults: Faults)
    | RollbackCall(id: FeatureId, auditId: nat, operator: string, valid: bool, faults: Faults)

  function Served(db: Db, r: Request): (Result<(nat, nat)>, Db) {
    match r
    case SaveCall(flag, operator, valid, faults) => Saved(db, flag, operator, valid, faults)
    case RollbackCall(id, auditId, operator, valid, faults) =>
      match RollbackFlag(db, id, auditId)
      case None => (Err, db)
      case Some(f) => Saved(db, f, operator, valid, faults)
  }

  function ServedAll(db: Db, requests: seq<Request>): Db {
    if requests == [] then db
    else Served(ServedAll(db, requests[..|requests| - 1]), requests[|requests| - 1]).1
  }

  function AboutOf(r: Request): FeatureId {
    if r.SaveCall? then r.flag.Id() else r.id
  }

  /** The request commits a change of the feature, and the error of its Save is dropped. */
  predicate DropsSave(db: Db, r: Request, id: FeatureId) {
    AboutOf(r) == id && r.faults.save && Served(db, r).0.Ok?
  }

  lemma {:induction false} ServedKeepsTrail(db: Db, r: Request, id: FeatureId)
    requires Trail(db, id) && !DropsSave(db, r, id)
    ensures Trail(Served(db, r).1, id)
  {
    hide Trail;
    var flag := if r.SaveCall? then Some(r.flag) else RollbackFlag(db, r.id, r.auditId);
    if flag.Some? {
      if flag.value.Id() == id {
        CommitKeepsTrail(db, Current(db, id), flag.value, r.operator, !r.faults.save);
      } else {
        CommitKeepsOthers(db, Current(db, flag.value.Id()), flag.value, r.operator, !r.faults.save, id);
      }
    }
  }

  /** How many audits of the feature its master is behind. */
  function Behind(db: Db, id: FeatureId): int {
    VersionOf(Seed(db, id)) + |AuditsOf(db.audits, id)| - VersionOf(Current(db, id))
  }

  lemma {:induction false} TrailIsNotBehind(db: Db, id: FeatureId)
    requires Trail(db, id)
    ensures Behind(db, id) == 0
  {
  }

  /** A dropped Save leaves the master one audit further behind, and nothing makes up for it. */
  lemma {:induction false} ServedFallsBehind(db: Db, r: Request, id: FeatureId)
    ensures Behind(Served(db, r).1, id) == Behind(db, id) + if DropsSave(db, r, id) then 1 else 0
  {
    hide AuditsOf;
    var flag := if r.SaveCall? then Some(r.flag) else RollbackFlag(db, r.id, r.auditId);
    if flag.Some? {
      TablesGrow(db, Current(db, flag.value.Id()), flag.value, r.operator, !r.faults.save, id);
    }
  }

  /** No request of the run drops a Save of the feature. */
  ghost predicate SavesTakeEffect(db: Db, requests: seq<Request>, id: FeatureId) {
    requests == []
    || (var rest, r := requests[..|requests| - 1], requests[|requests| - 1];
        SavesTakeEffect(db, rest, id) && !DropsSave(ServedAll(db, rest), r, id))
  }

  lemma {:induction false} FallsBehindOverRun(db: Db, requests: seq<Request>, id: FeatureId)
    ensures Behind(ServedAll(db, requests), id) >= Behind(db, id)
    ensures SavesTakeEffect(db, requests, id) <==> Behind(ServedAll(db, requests), id) == Behind(db, id)
  {
    if requests != [] {
      var rest, r := requests[..|requests| - 1], requests[|requests| - 1];
      FallsBehindOverRun(db, rest, id);
      ServedFallsBehind(ServedAll(db, rest), r, id);
    }
  }

  /** A database as it was set up has the trail of every feature, seeded or not. */
  lemma {:induction false} NewDbHasTrails(seeds: map<FeatureId, Master>, id: FeatureId)
    ensures Trail(NewDb(seeds), id)
  {
    assert AuditsOf([], id) == [] && FlagsOf([], id) == [];
  }

  /** Transactions one after another keep the trail of a feature, whatever statements fail and whatever
      is saved of other features, exactly when none of them commits a change of this one whose Save
      error was dropped. A trail once broken stays so. */
  lemma {:induction false} TrailOverAnyRun(db: Db, requests: seq<Request>, id: FeatureId)
    requires Trail(db, id)
    ensures Trail(ServedAll(db, requests), id) <==> SavesTakeEffect(db, requests, id)
  {
    hide Trail, Behind, DropsSave;
    FallsBehindOverRun(db, requests, id);
    TrailIsNotBehind(db, id);
    if Trail(ServedAll(db, requests), id) {
      TrailIsNotBehind(ServedAll(db, requests), id);
    }
    if SavesTakeEffect(db, requests, id) && requests != [] {
      var rest, r := requests[..|requests| - 1], requests[|requests| - 1];
      TrailOverAnyRun(db, rest, id);
      ServedKeepsTrail(ServedAll(db, rest), r, id);
    }
  }

  /** A rollback takes an audit of the feature itself, or is refused and changes nothing. */
  lemma {:induction false} RollbackIsOwn(db: Db, id: FeatureId, auditId: nat, operator: string, valid: bool,
        faults: Faults)
    ensures var (r, after) := Served(db, RollbackCall(id, auditId, operator, valid, faults));
            && (r.Ok? <==> && auditId < |db.audits| && db.audits[auditId].id == id
                           && valid && !faults.read && !faults.audit && !faults.outbox)
            && (r.Err? ==> after == db)
            && (forall other | other != id :: Current(after, other) == Current(db, other))
  {
    assert RollbackFlag(db, id, auditId).Some? ==> RollbackFlag(db, id, auditId).value.Id() == id;
  }

  /** What a successful rollback commits: the audit's old value and type, as the next version. */
  lemma {:induction false} RollbackCommits(db: Db, id: FeatureId, auditId: nat, operator: string, valid: bool,
        faults: Faults)
    requires auditId < |db.audits| && db.audits[auditId].id == id && !faults.save
    ensures var (r, db') := Served(db, RollbackCall(id, auditId, operator, valid, faults));
            r.Ok? ==>
              && id in db'.masters
              && r.value.0 == db'.masters[id].version
              && db'.masters[id]
                 == Master(db.audits[auditId].oldValue, db.audits[auditId].kind, VersionOf(Current(db, id)) + 1)
  {
    assert RollbackFlag(db, id, auditId).value.Id() == id;
  }

  /** A successful rollback makes the value before the chosen change current again, as one more
      version. The type it restores is the audit's own, which is the type of the change it undoes:
      the state before that change is back, type and all, exactly when the change kept the type. */
  lemma {:induction false} RollbackRestores(db: Db, id: FeatureId, auditId: nat, n: nat, operator: string,
        valid: bool, faults: Faults)
    requires Trail(db, id) && !faults.save
    requires n < |AuditsOf(db.audits, id)|
    requires auditId < |db.audits| && db.audits[auditId] == AuditsOf(db.audits, id)[n]
    ensures var (r, db') := Served(db, RollbackCall(id, auditId, operator, valid, faults));
            var audits := AuditsOf(db.audits, id);
            r.Ok? ==>
              && id in db'.masters
              && r.value.0 == db'.masters[id].version == VersionOf(Seed(db, id)) + |audits| + 1
              && db'.masters[id].value == LastValue(Seed(db, id), audits[..n])
              && (n == 0 && id in db.seeds ==>
                    (db'.masters[id].kind == db.seeds[id].kind <==> audits[0].kind == db.seeds[id].kind))
              && (n > 0 ==> (db'.masters[id].kind == audits[n - 1].kind <==> audits[n].kind == audits[n - 1].kind))
  {
    var audits := AuditsOf(db.audits, id);
    AuditsOfSound(db.audits, id);
    assert audits[n].oldValue == LastValue(Seed(db, id), audits[..n]);
    assert audits[n] in audits;
    RollbackCommits(db, id, auditId, operator, valid, faults);
  }

  lemma {:induction false} AuditsOfSound(audits: seq<Audit>, id: FeatureId)
    ensures forall a | a in AuditsOf(audits, id) :: a in audits && a.id == id
  {
    if audits != [] {
      AuditsOfSound(audits[..|audits| - 1], id);
    }
  }

  /** Undoing a change from bool to string leaves the bool's text as a string. */
  lemma {:induction false} RollbackKeepsTheLaterType(first: Flag, second: Flag, valid: bool)
    requires first.Id() == second.Id() && first.kind == "bool" && second.kind == "string" && valid
    ensures var none := Faults(false, false, false, false);
            var db1 := Saved(NewDb(map[]), first, "op", true, none).1;
            var db2 := Saved(db1, second, "op", true, none).1;
            var db3 := Served(db2, RollbackCall(first.Id(), 1, "op", valid, none)).1;
            first.Id() in db3.masters && db3.masters[first.Id()] == Master(first.value, "string", 3)
  {
  }
}
