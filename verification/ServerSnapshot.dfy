/** The snapshot a server hands out: its initial load of etcd, in whatever order etcd lists the keys,
    and the watched events on top, against the log of everything etcd ever wrote. */
module ServerSnapshot {
  import opened Model
  import opened EventLog
  import opened FeatureCache
  import opened FeatureWatcher
  import opened FeatureKey
  import opened SdkClient
  import StreamHandler
  import Etcd
  import Cas = CasProtocol
  import Client = ClientSystem

  function KvFlags(kvs: seq<Kv>): seq<Flag> {
    if kvs == [] then []
    else
      var rest, kv := KvFlags(kvs[..|kvs| - 1]), kvs[|kvs| - 1];
      if kv.payload.Some? then rest + [kv.payload.value.(revision := kv.modRevision)] else rest
  }

  function EventFlags(events: seq<WatchEvent>): seq<Flag> {
    if events == [] then []
    else
      var rest, e := EventFlags(events[..|events| - 1]), events[|events| - 1];
      if e.PutEvent? && e.payload.Some? then rest + [e.payload.value] else rest
  }

  lemma {:induction false} LoadMerges(kvs: seq<Kv>)
    ensures AfterLoad(kvs).data == Merge(map[], KvFlags(kvs))
  {
    if kvs != [] {
      var rest := kvs[..|kvs| - 1];
      LoadMerges(rest);
      assert kvs[|kvs| - 1].payload.Some? ==> KvFlags(kvs)[..|KvFlags(rest)|] == KvFlags(rest);
    }
  }

  /** No flag has the full key of a deleted one for its short key: deletes miss everything cached. */
  ghost predicate DeletesMiss(flags: seq<Flag>, events: seq<WatchEvent>) {
    forall e, f | e in events && e.DeleteEvent? && f in flags :: f.key != e.fullKey
  }

  lemma {:induction false} EventSplits(events: seq<WatchEvent>)
    requires events != []
    ensures var rest, e := events[..|events| - 1], events[|events| - 1];
            match e
            case PutEvent(_, Some(f), rev) =>
              && EventFlags(events) == EventFlags(rest) + [f]
              && Announced(events) == Announced(rest) + [PutMessage(f, rev)]
            case PutEvent(_, None, _) =>
              EventFlags(events) == EventFlags(rest) && Announced(events) == Announced(rest)
            case DeleteEvent(_, _) =>
              && EventFlags(events) == EventFlags(rest)
              && Announce(e).Some? && Announce(e).value.action == Delete
              && Announced(events) == Announced(rest) + [Announce(e).value]
  {
  }

  lemma {:induction false} DeleteMisses(flags: seq<Flag>, key: string)
    requires forall f | f in flags :: f.key != key
    ensures Merge(map[], flags) - {key} == Merge(map[], flags)
  {
    MergeIsLast(map[], flags, key);
    LastForSound(flags, key);
  }

  lemma {:induction false} PutMerges(flags: seq<Flag>, f: Flag)
    ensures Merge(map[], flags + [f]) == Merge(map[], flags)[f.key := f]
  {
    assert (flags + [f])[..|flags|] == flags;
  }

  lemma {:induction false} DeletesMissedBefore(flags: seq<Flag>, events: seq<WatchEvent>)
    requires events != [] && DeletesMiss(flags + EventFlags(events), events)
    ensures var rest, e := events[..|events| - 1], events[|events| - 1];
            && DeletesMiss(flags + EventFlags(rest), rest)
            && (e.DeleteEvent? ==> forall f | f in flags + EventFlags(rest) :: f.key != e.fullKey)
  {
    var rest, e := events[..|events| - 1], events[|events| - 1];
    EventSplits(events);
    hide EventFlags;
    assert e in events && forall x | x in rest :: x in events;
    assert forall f | f in EventFlags(rest) :: f in EventFlags(events);
    assert forall f | f in flags + EventFlags(rest) :: f in flags + EventFlags(events);
  }

  lemma {:induction false} EventsMerge(s: Snapshot, flags: seq<Flag>, events: seq<WatchEvent>)
    requires s.data == Merge(map[], flags) && DeletesMiss(flags + EventFlags(events), events)
    ensures AfterEvents(s, events).data == Merge(map[], flags + EventFlags(events))
  {
    hide Merge, DeletesMiss, EventFlags;
    if events == [] {
      NoFlags();
      assert flags + [] == flags;
    } else {
      var rest, e := events[..|events| - 1], events[|events| - 1];
      DeletesMissedBefore(flags, events);
      EventsMerge(s, flags, rest);
      EventSplits(events);
      match e {
        case PutEvent(_, Some(f), _) =>
          assert flags + EventFlags(events) == (flags + EventFlags(rest)) + [f];
          PutMerges(flags + EventFlags(rest), f);
        case PutEvent(_, None, _) =>
        case DeleteEvent(fullKey, _) => DeleteMisses(flags + EventFlags(rest), fullKey);
      }
    }
  }

  lemma {:induction false} NoFlags()
    ensures EventFlags([]) == []
  {
  }

  /** The puts among the messages of a scope. */
  function OwnPuts(messages: seq<Message>, scope: Scope): seq<Message> {
    Puts(Wanted(messages, scope))
  }

  lemma {:induction false} OwnPutsMore(messages: seq<Message>, m: Message, scope: Scope)
    ensures OwnPuts(messages + [m], scope)
         == if scope.Wants(m) && m.action.Put? then OwnPuts(messages, scope) + [m] else OwnPuts(messages, scope)
  {
    WantedMore(messages, m, scope);
    var wanted := Wanted(messages, scope);
    assert (wanted + [m])[..|wanted|] == wanted;
  }

  lemma {:induction false} OwnPutsConcat(a: seq<Message>, b: seq<Message>, scope: Scope)
    ensures OwnPuts(a + b, scope) == OwnPuts(a, scope) + OwnPuts(b, scope)
  {
    WantedConcat(a, b, scope);
    PutsConcat(Wanted(a, scope), Wanted(b, scope));
  }

  /** The caller's own puts, written over what it saw before, are the replay of its put messages. */
  lemma {:induction false} OwnEventsReplay(flags: seq<Flag>, events: seq<WatchEvent>, scope: Scope)
    requires StreamHandler.Admitted(scope)
    ensures Observed(Merge(map[], Visible(flags + EventFlags(events), scope)))
         == Replay(Observed(Merge(map[], Visible(flags, scope))), OwnPuts(Announced(events), scope))
  {
    if events == [] {
      assert flags + [] == flags;
    } else {
      hide Merge, Visible, Observed, Replay, OwnPuts, EventFlags, Announced;
      var rest, e := events[..|events| - 1], events[|events| - 1];
      OwnEventsReplay(flags, rest, scope);
      EventSplits(events);
      match e {
        case PutEvent(_, Some(f), rev) =>
          OneMoreEvent(flags + EventFlags(rest), f, rev, Announced(rest), scope, Observed(Merge(map[], Visible(flags, scope))));
          assert flags + EventFlags(events) == (flags + EventFlags(rest)) + [f];
        case PutEvent(_, None, _) =>
        case DeleteEvent(_, _) => OwnPutsMore(Announced(rest), Announce(e).value, scope);
      }
    }
  }

  lemma {:induction false} OneMoreEvent(flags: seq<Flag>, f: Flag, rev: int, messages: seq<Message>, scope: Scope,
        before: Settings)
    requires StreamHandler.Admitted(scope)
    requires Observed(Merge(map[], Visible(flags, scope))) == Replay(before, OwnPuts(messages, scope))
    ensures Observed(Merge(map[], Visible(flags + [f], scope)))
         == Replay(before, OwnPuts(messages + [PutMessage(f, rev)], scope))
  {
    VisibleMore(flags, f, scope);
    OwnPutsMore(messages, PutMessage(f, rev), scope);
    hide Visible, OwnPuts, Replay, Merge;
    assert Shows(scope, f) <==> scope.Wants(PutMessage(f, rev));
    if Shows(scope, f) {
      MergeMore(Visible(flags, scope), f);
      ReplayOne(before, OwnPuts(messages, scope), PutMessage(f, rev));
    }
  }

  lemma {:induction false} VisibleMore(flags: seq<Flag>, f: Flag, scope: Scope)
    ensures Visible(flags + [f], scope) == if Shows(scope, f) then Visible(flags, scope) + [f] else Visible(flags, scope)
  {
    assert (flags + [f])[..|flags|] == flags;
  }

  lemma {:induction false} WantedMore(messages: seq<Message>, m: Message, scope: Scope)
    ensures Wanted(messages + [m], scope)
         == if scope.Wants(m) then Wanted(messages, scope) + [m] else Wanted(messages, scope)
  {
    assert (messages + [m])[..|messages|] == messages;
  }

  lemma {:induction false} MergeMore(flags: seq<Flag>, f: Flag)
    ensures Observed(Merge(map[], flags + [f])) == Observed(Merge(map[], flags))[f.key := f.Content()]
  {
    assert (flags + [f])[..|flags|] == flags;
  }

  /** The snapshot a stream's client is given is the replay of its own puts over its own part of
      the initial load exactly when no flag of another environment or namespace has been written
      over one of its flags. */
  lemma {:induction false} SnapshotIsHistory(kvs: seq<Kv>, events: seq<WatchEvent>, scope: Scope)
    requires StreamHandler.Admitted(scope) && DeletesMiss(KvFlags(kvs) + EventFlags(events), events)
    ensures Observed(VisibleData(AfterEvents(AfterLoad(kvs), events).data, scope))
            == Replay(Observed(Merge(map[], Visible(KvFlags(kvs), scope))), OwnPuts(Announced(events), scope))
        <==> NotShadowed(KvFlags(kvs) + EventFlags(events), scope)
  {
    var flags := KvFlags(kvs) + EventFlags(events);
    LoadMerges(kvs);
    EventsMerge(AfterLoad(kvs), KvFlags(kvs), events);
    OwnEventsReplay(KvFlags(kvs), events, scope);
    SameDomainSameData(flags, scope);
    SnapshotIsolation(flags, scope);
  }

  /** Two views that agree on what can be observed are the same view. */
  lemma {:induction false} SameDomainSameData(flags: seq<Flag>, scope: Scope)
    ensures var seen, own := VisibleData(Merge(map[], flags), scope), Merge(map[], Visible(flags, scope));
            Observed(seen) == Observed(own) <==> seen == own
  {
    var seen, own := VisibleData(Merge(map[], flags), scope), Merge(map[], Visible(flags, scope));
    if Observed(seen) == Observed(own) {
      assert Observed(seen).Keys == seen.Keys && Observed(own).Keys == own.Keys;
      forall key | key in seen
        ensures seen[key] == own[key]
      {
        VisibleAt(flags, scope, key);
      }
    }
  }

  // ----- the log of etcd -----

  /** The watch events of etcd's writes. */
  function Events(writes: seq<Etcd.Write>): seq<WatchEvent> {
    seq(|writes|, i requires 0 <= i < |writes| => PutEvent(writes[i].key, Some(writes[i].flag), writes[i].revision))
  }

  lemma {:induction false} AnnouncedOfWrites(writes: seq<Etcd.Write>)
    ensures |Announced(Events(writes))| == |writes|
    ensures forall i | 0 <= i < |writes| :: Announced(Events(writes))[i] == PutMessage(writes[i].flag, writes[i].revision)
  {
    if writes != [] {
      AnnouncedOfWrites(writes[..|writes| - 1]);
      assert Events(writes)[..|writes| - 1] == Events(writes[..|writes| - 1]);
    }
  }

  predicate Covers(scope: Scope, f: Flag) {
    f.env == scope.env && f.namespace in scope.namespaces
  }

  /** The position of the last write of a short key within the scope, or -1. */
  function LastIn(writes: seq<Etcd.Write>, scope: Scope, key: string): (last: int)
    ensures last == -1 || (0 <= last < |writes| && Covers(scope, writes[last].flag) && writes[last].flag.key == key)
  {
    if writes == [] then -1
    else if Covers(scope, writes[|writes| - 1].flag) && writes[|writes| - 1].flag.key == key then |writes| - 1
    else LastIn(writes[..|writes| - 1], scope, key)
  }

  lemma {:induction false} LastInIsLast(writes: seq<Etcd.Write>, scope: Scope, i: nat)
    requires i < |writes| && Covers(scope, writes[i].flag)
    ensures i <= LastIn(writes, scope, writes[i].flag.key)
  {
    if i < |writes| - 1 {
      LastInIsLast(writes[..|writes| - 1], scope, i);
    }
  }

  /** The position of the last write of an etcd key, or -1. */
  function LastOf(writes: seq<Etcd.Write>, key: string): (last: int)
    ensures last == -1 || (0 <= last < |writes| && writes[last].key == key)
    ensures Cas.LastWrite(writes, key, None)
         == if last == -1 then None else Some(Etcd.Entry(Some(writes[last].flag), writes[last].revision))
  {
    if writes == [] then -1
    else if writes[|writes| - 1].key == key then |writes| - 1
    else LastOf(writes[..|writes| - 1], key)
  }

  lemma {:induction false} LastOfIsLast(writes: seq<Etcd.Write>, i: nat)
    requires i < |writes|
    ensures i <= LastOf(writes, writes[i].key)
  {
    if i < |writes| - 1 {
      LastOfIsLast(writes[..|writes| - 1], i);
    }
  }

  lemma {:induction false} OneMoreWrite(writes: seq<Etcd.Write>, scope: Scope, key: string)
    requires writes != []
    ensures var before := LastChange(Wanted(Announced(Events(writes[..|writes| - 1])), scope), key);
            var w := writes[|writes| - 1];
            LastChange(Wanted(Announced(Events(writes)), scope), key)
            == if Covers(scope, w.flag) && w.flag.key == key then Some(PutMessage(w.flag, w.revision)) else before
  {
    var rest, w := writes[..|writes| - 1], writes[|writes| - 1];
    assert Events(writes)[..|writes| - 1] == Events(rest);
    var messages, m := Announced(Events(rest)), PutMessage(w.flag, w.revision);
    assert Announced(Events(writes)) == messages + [m];
    WantedMore(messages, m, scope);
    var wanted := Wanted(messages, scope);
    assert (wanted + [m])[..|wanted|] == wanted;
  }

  lemma {:induction false} LastChangeIsLastIn(writes: seq<Etcd.Write>, scope: Scope, key: string)
    ensures LastChange(Wanted(Announced(Events(writes)), scope), key)
         == var last := LastIn(writes, scope, key);
            if last == -1 then None else Some(PutMessage(writes[last].flag, writes[last].revision))
  {
    if writes != [] {
      OneMoreWrite(writes, scope, key);
      LastChangeIsLastIn(writes[..|writes| - 1], scope, key);
    }
  }

  /** The content the log last wrote of a short key within the scope. */
  function LastWritten(writes: seq<Etcd.Write>, scope: Scope, key: string): Option<Setting> {
    var last := LastIn(writes, scope, key);
    if last == -1 then None else Some(writes[last].flag.Content())
  }

  lemma {:induction false} ReplayShowsLastWritten(writes: seq<Etcd.Write>, scope: Scope, key: string)
    ensures Lookup(Replay(map[], Wanted(Announced(Events(writes)), scope)), key) == LastWritten(writes, scope, key)
  {
    ReplayIsLastChange(map[], Wanted(Announced(Events(writes)), scope), key);
    LastChangeIsLastIn(writes, scope, key);
  }

  // ----- the initial load -----

  /** The revisions of the writes ascend. */
  ghost predicate InOrder(writes: seq<Etcd.Write>) {
    forall i, j | 0 <= i < j < |writes| :: writes[i].revision < writes[j].revision
  }

  /** What the scope last wrote of a short key is still there: no other feature with the same etcd key
      has written over it since. */
  predicate Kept(writes: seq<Etcd.Write>, scope: Scope, key: string) {
    var last := LastIn(writes, scope, key);
    last >= 0 ==> LastOf(writes, writes[last].key) == last
  }

  /** The writes are in order, each under its feature's key, and no two features share a key. */
  ghost predicate WritesOk(writes: seq<Etcd.Write>) {
    && InOrder(writes)
    && (forall w | w in writes :: w.key == BuildFeatureKey(w.flag.Id()))
    && (forall v, w | v in writes && w in writes && v.key == w.key :: v.flag.Id() == w.flag.Id())
  }

  /** The load lists, in any order, every key ever written with what was last written to it. */
  ghost predicate LoadedFrom(kvs: seq<Kv>, writes: seq<Etcd.Write>) {
    && (forall kv | kv in kvs ::
          kv.payload.Some? && Cas.LastWrite(writes, kv.fullKey, None) == Some(Etcd.Entry(kv.payload, kv.modRevision)))
    && (forall w | w in writes :: HasKey(kvs, w.key))
  }

  ghost predicate HasKey(kvs: seq<Kv>, key: string) {
    exists kv :: kv in kvs && kv.fullKey == key
  }

  /** The most recently written flag of a short key. */
  function NewestFor(flags: seq<Flag>, key: string): Option<Flag> {
    if flags == [] then None
    else
      var rest, f := NewestFor(flags[..|flags| - 1], key), flags[|flags| - 1];
      if f.key == key && (rest.None? || rest.value.revision < f.revision) then Some(f) else rest
  }

  lemma {:induction false} NewestIsNewest(flags: seq<Flag>, key: string)
    ensures match NewestFor(flags, key)
            case Some(f) => f in flags && f.key == key && forall g | g in flags && g.key == key :: g.revision <= f.revision
            case None => forall g | g in flags :: g.key != key
  {
    if flags != [] {
      NewestIsNewest(flags[..|flags| - 1], key);
    }
  }

  lemma {:induction false} KvFlagIsListed(kvs: seq<Kv>, kv: Kv)
    requires kv in kvs && kv.payload.Some?
    ensures kv.payload.value.(revision := kv.modRevision) in KvFlags(kvs)
  {
    if kv != kvs[|kvs| - 1] {
      KvFlagIsListed(kvs[..|kvs| - 1], kv);
    }
  }

  lemma {:induction false} ListedIsKvFlag(kvs: seq<Kv>, f: Flag) returns (kv: Kv)
    requires f in KvFlags(kvs)
    ensures kv in kvs && kv.payload.Some? && f == kv.payload.value.(revision := kv.modRevision)
  {
    var last := kvs[|kvs| - 1];
    if last.payload.Some? && f == last.payload.value.(revision := last.modRevision) {
      kv := last;
    } else {
      kv := ListedIsKvFlag(kvs[..|kvs| - 1], f);
    }
  }

  lemma {:induction false} VisibleMembers(flags: seq<Flag>, scope: Scope, f: Flag)
    ensures f in Visible(flags, scope) <==> f in flags && Shows(scope, f)
  {
    if flags != [] {
      VisibleMembers(flags[..|flags| - 1], scope, f);
      assert flags == flags[..|flags| - 1] + [flags[|flags| - 1]];
    }
  }

  /** A loaded flag is the last write of its etcd key, at most as recent as the scope's last write of
      its short key. */
  lemma {:induction false} LoadedIsWritten(kvs: seq<Kv>, writes: seq<Etcd.Write>, scope: Scope, f: Flag)
    returns (i: nat)
    requires LoadedFrom(kvs, writes) && f in KvFlags(kvs) && Covers(scope, f)
    ensures i < |writes| && writes[i].flag.Content() == f.Content() && writes[i].revision == f.revision
    ensures i == LastOf(writes, writes[i].key) <= LastIn(writes, scope, f.key)
  {
    var kv := ListedIsKvFlag(kvs, f);
    i := LastOf(writes, kv.fullKey);
    LastInIsLast(writes, scope, i);
  }

  /** The scope's last write of a short key, if it is still there, has been loaded. */
  lemma {:induction false} LastIsLoaded(kvs: seq<Kv>, writes: seq<Etcd.Write>, scope: Scope, key: string)
    returns (f: Flag)
    requires LoadedFrom(kvs, writes) && LastIn(writes, scope, key) >= 0 && Kept(writes, scope, key)
    ensures f in KvFlags(kvs) && Covers(scope, f) && f.key == key
    ensures f.revision == writes[LastIn(writes, scope, key)].revision
  {
    var last := LastIn(writes, scope, key);
    assert writes[last] in writes && HasKey(kvs, writes[last].key);
    var kv :| kv in kvs && kv.fullKey == writes[last].key;
    f := kv.payload.value.(revision := kv.modRevision);
    KvFlagIsListed(kvs, kv);
  }

  function SettingOf(f: Option<Flag>): Option<Setting> {
    match f case None => None case Some(x) => Some(x.Content())
  }

  /** The newest flag of a short key is its last write, or there is neither. */
  predicate IsLastWrite(newest: Option<Flag>, writes: seq<Etcd.Write>, last: int)
    requires -1 <= last < |writes|
  {
    match newest
    case None => last == -1
    case Some(f) => last >= 0 && f.revision == writes[last].revision && f.Content() == writes[last].flag.Content()
  }

  /** The newest visible flag of the load is what the log last wrote of the short key, exactly when
      that is still there. */
  lemma {:induction false} NewestIsLastWritten(kvs: seq<Kv>, writes: seq<Etcd.Write>, scope: Scope, key: string)
    requires StreamHandler.Admitted(scope) && InOrder(writes) && LoadedFrom(kvs, writes)
    ensures IsLastWrite(NewestFor(Visible(KvFlags(kvs), scope), key), writes, LastIn(writes, scope, key))
        <==> Kept(writes, scope, key)
  {
    var flags := Visible(KvFlags(kvs), scope);
    var last := LastIn(writes, scope, key);
    NewestIsNewest(flags, key);
    hide LastIn, LastOf, NewestFor, Visible, KvFlags, LoadedFrom, InOrder;
    if NewestFor(flags, key).Some? {
      var f := NewestFor(flags, key).value;
      VisibleMembers(KvFlags(kvs), scope, f);
      var i := LoadedIsWritten(kvs, writes, scope, f);
      if Kept(writes, scope, key) {
        var g := LastIsLoaded(kvs, writes, scope, key);
        VisibleMembers(KvFlags(kvs), scope, g);
        SameRevision(writes, i, last);
      } else if f.revision == writes[last].revision {
        SameRevision(writes, i, last);
      }
    } else if last >= 0 && Kept(writes, scope, key) {
      var g := LastIsLoaded(kvs, writes, scope, key);
      VisibleMembers(KvFlags(kvs), scope, g);
      assert false;
    }
  }

  lemma {:induction false} SameRevision(writes: seq<Etcd.Write>, i: nat, j: nat)
    requires InOrder(writes) && i <= j < |writes| && writes[j].revision <= writes[i].revision
    ensures i == j
  {
  }

  /** Where no two features share an etcd key, nothing is written over. */
  lemma {:induction false} OkIsKept(writes: seq<Etcd.Write>, scope: Scope, key: string)
    requires WritesOk(writes)
    ensures InOrder(writes) && Kept(writes, scope, key)
  {
    var last := LastIn(writes, scope, key);
    if last >= 0 {
      LastOfIsLast(writes, last);
      var other := LastOf(writes, writes[last].key);
      assert writes[other] in writes && writes[last] in writes;
      LastInIsLast(writes, scope, other);
    }
  }

  /** The initial load files flags by short key in the order etcd lists its keys. For every short key,
      unless an event has rewritten it since, the flag listed last has the content last written. */
  ghost predicate LoadedIsLatest(kvs: seq<Kv>, writes: seq<Etcd.Write>, events: seq<WatchEvent>, scope: Scope) {
    forall key | LastFor(Visible(EventFlags(events), scope), key).None? ::
      SettingOf(LastFor(Visible(KvFlags(kvs), scope), key)) == LastWritten(writes, scope, key)
  }

  /** The same in terms of the load alone: the flag listed last has the content of the newest. */
  ghost predicate LoadedInOrder(kvs: seq<Kv>, events: seq<WatchEvent>, scope: Scope) {
    forall key | LastFor(Visible(EventFlags(events), scope), key).None? ::
      SettingOf(LastFor(Visible(KvFlags(kvs), scope), key)) == SettingOf(NewestFor(Visible(KvFlags(kvs), scope), key))
  }

  /** Where the last writes of the short keys concerned are still there, the load alone tells. */
  lemma {:induction false} LatestIsInOrder(kvs: seq<Kv>, writes: seq<Etcd.Write>, events: seq<WatchEvent>, scope: Scope)
    requires StreamHandler.Admitted(scope) && InOrder(writes) && LoadedFrom(kvs, writes)
    requires forall key | LastFor(Visible(EventFlags(events), scope), key).None? :: Kept(writes, scope, key)
    ensures LoadedIsLatest(kvs, writes, events, scope) <==> LoadedInOrder(kvs, events, scope)
  {
    hide LastFor, NewestFor, Visible, KvFlags, EventFlags, LastIn, InOrder, LoadedFrom, Kept;
    forall key | LastFor(Visible(EventFlags(events), scope), key).None?
      ensures SettingOf(NewestFor(Visible(KvFlags(kvs), scope), key)) == LastWritten(writes, scope, key)
    {
      NewestIsLastWritten(kvs, writes, scope, key);
    }
  }

  // ----- one key of the snapshot -----

  lemma {:induction false} LastForConcat(a: seq<Flag>, b: seq<Flag>, key: string)
    ensures LastFor(a + b, key) == if LastFor(b, key).Some? then LastFor(b, key) else LastFor(a, key)
  {
    if b == [] {
      assert a + b == a;
    } else {
      assert (a + b)[..|a + b| - 1] == a + b[..|b| - 1];
      LastForConcat(a, b[..|b| - 1], key);
    }
  }

  lemma {:induction false} VisibleConcat(a: seq<Flag>, b: seq<Flag>, scope: Scope)
    ensures Visible(a + b, scope) == Visible(a, scope) + Visible(b, scope)
  {
    if b == [] {
      assert a + b == a;
    } else {
      assert (a + b)[..|a + b| - 1] == a + b[..|b| - 1];
      VisibleConcat(a, b[..|b| - 1], scope);
    }
  }

  /** What the log's puts show of a key that showed `before`. */
  function Logged(watched: seq<Flag>, scope: Scope, key: string, before: Option<Setting>): Option<Setting> {
    var last := LastFor(Visible(watched, scope), key);
    if last.Some? then SettingOf(last) else before
  }

  /** Replaying the scope's puts shows the last of them, or what was there before. */
  lemma {:induction false} EventsShow(s: Settings, events: seq<WatchEvent>, scope: Scope, key: string)
    requires StreamHandler.Admitted(scope)
    ensures Lookup(Replay(s, OwnPuts(Announced(events), scope)), key)
         == Logged(EventFlags(events), scope, key, Lookup(s, key))
  {
    if events != [] {
      var rest, e := events[..|events| - 1], events[|events| - 1];
      EventsShow(s, rest, scope, key);
      EventSplits(events);
      hide EventFlags, Announced, Visible, OwnPuts, Replay, LastFor;
      match e {
        case PutEvent(_, Some(f), rev) => OneEventShows(s, EventFlags(rest), Announced(rest), f, rev, scope, key);
        case PutEvent(_, None, _) =>
        case DeleteEvent(_, _) => OwnPutsMore(Announced(rest), Announce(e).value, scope);
      }
    } else {
      assert Visible([], scope) == [] && OwnPuts([], scope) == [];
    }
  }

  lemma {:induction false} OneEventShows(s: Settings, flags: seq<Flag>, messages: seq<Message>, f: Flag, rev: int,
        scope: Scope, key: string)
    requires StreamHandler.Admitted(scope)
    requires Lookup(Replay(s, OwnPuts(messages, scope)), key) == Logged(flags, scope, key, Lookup(s, key))
    ensures Lookup(Replay(s, OwnPuts(messages + [PutMessage(f, rev)], scope)), key)
         == Logged(flags + [f], scope, key, Lookup(s, key))
  {
    VisibleMore(flags, f, scope);
    OwnPutsMore(messages, PutMessage(f, rev), scope);
    ReplayOne(s, OwnPuts(messages, scope), PutMessage(f, rev));
    LastForOne(Visible(flags, scope), f, key);
    hide Visible, OwnPuts, Replay, LastFor;
    assert Shows(scope, f) <==> scope.Wants(PutMessage(f, rev));
  }

  lemma {:induction false} LastForOne(flags: seq<Flag>, f: Flag, key: string)
    ensures LastFor(flags + [f], key) == if f.key == key then Some(f) else LastFor(flags, key)
  {
    assert (flags + [f])[..|flags|] == flags;
  }

  /** What the snapshot shows of a key. */
  function Served(flags: seq<Flag>, scope: Scope, key: string): Option<Setting> {
    var last := LastFor(flags, key);
    if last.Some? && Shows(scope, last.value) then Some(last.value.Content()) else None
  }

  lemma {:induction false} ServedIsLookup(flags: seq<Flag>, scope: Scope, key: string)
    ensures Lookup(Observed(VisibleData(Merge(map[], flags), scope)), key) == Served(flags, scope, key)
  {
    VisibleAt(flags, scope, key);
    MergeIsLast(map[], flags, key);
  }

  /** A visible flag is the last visible one of its key, whatever hides it. */
  lemma {:induction false} LastVisibleOf(loaded: seq<Flag>, watched: seq<Flag>, scope: Scope, key: string)
    ensures var all := loaded + watched;
            var own := LastFor(Visible(watched, scope), key);
            var last := if own.Some? then own else LastFor(Visible(loaded, scope), key);
            && (LastFor(all, key).Some? && Shows(scope, LastFor(all, key).value) ==> LastFor(all, key) == last)
            && (last.Some? <==> exists f :: f in all && f.key == key && Shows(scope, f))
  {
    VisibleConcat(loaded, watched, scope);
    LastForConcat(Visible(loaded, scope), Visible(watched, scope), key);
    LastVisible(loaded + watched, scope, key);
    VisibleHasIt(loaded + watched, scope, key);
  }

  lemma {:induction false} AgreeForwards(loaded: seq<Flag>, watched: seq<Flag>, scope: Scope, key: string,
        before: Option<Setting>)
    requires NotShadowed(loaded + watched, scope)
    requires LastFor(Visible(watched, scope), key).None? ==> SettingOf(LastFor(Visible(loaded, scope), key)) == before
    ensures Served(loaded + watched, scope, key) == Logged(watched, scope, key, before)
  {
    hide Visible, LastFor, Shows;
    LastVisibleOf(loaded, watched, scope, key);
  }

  /** A visible flag of the key in the load has been written before. */
  lemma {:induction false} AgreeBackwards(loaded: seq<Flag>, watched: seq<Flag>, scope: Scope, key: string,
        before: Option<Setting>)
    requires LastFor(Visible(loaded, scope), key).Some? ==> before.Some?
    requires Served(loaded + watched, scope, key) == Logged(watched, scope, key, before)
    ensures forall f | f in loaded + watched && Shows(scope, f) && f.key == key ::
              LastFor(loaded + watched, key).Some? && Shows(scope, LastFor(loaded + watched, key).value)
    ensures LastFor(Visible(watched, scope), key).None? ==> SettingOf(LastFor(Visible(loaded, scope), key)) == before
  {
    hide Visible, LastFor, Shows;
    LastVisibleOf(loaded, watched, scope, key);
  }

  lemma {:induction false} LoadedIsKnown(kvs: seq<Kv>, writes: seq<Etcd.Write>, scope: Scope, key: string)
    requires StreamHandler.Admitted(scope) && LoadedFrom(kvs, writes)
    ensures LastFor(Visible(KvFlags(kvs), scope), key).Some? ==> LastWritten(writes, scope, key).Some?
  {
    var last := LastFor(Visible(KvFlags(kvs), scope), key);
    LastForSound(Visible(KvFlags(kvs), scope), key);
    hide LastFor, Visible, KvFlags, LoadedFrom;
    if last.Some? {
      VisibleMembers(KvFlags(kvs), scope, last.value);
      var i := LoadedIsWritten(kvs, writes, scope, last.value);
    }
  }

  // ----- the whole snapshot -----

  /** What a server shows a scope, having loaded etcd and watched it since, is the replay of
      everything ever put in etcd for that scope exactly when no flag of another environment or
      namespace hides one of the scope's, and the load has left no short key that nothing rewrote
      since at another content than was last written of it. */
  lemma {:induction false} SnapshotIsLog(kvs: seq<Kv>, writes: seq<Etcd.Write>, events: seq<WatchEvent>, scope: Scope)
    requires StreamHandler.Admitted(scope) && DeletesMiss(KvFlags(kvs) + EventFlags(events), events)
    requires LoadedFrom(kvs, writes)
    ensures Observed(VisibleData(AfterEvents(AfterLoad(kvs), events).data, scope))
            == Replay(map[], OwnPuts(Announced(Events(writes)) + Announced(events), scope))
        <==> NotShadowed(KvFlags(kvs) + EventFlags(events), scope) && LoadedIsLatest(kvs, writes, events, scope)
  {
    var loaded, watched := KvFlags(kvs), EventFlags(events);
    var shown := Observed(VisibleData(AfterEvents(AfterLoad(kvs), events).data, scope));
    var logged := Replay(map[], OwnPuts(Announced(Events(writes)) + Announced(events), scope));
    LoadMerges(kvs);
    EventsMerge(AfterLoad(kvs), loaded, events);
    forall key
      ensures Lookup(shown, key) == Served(loaded + watched, scope, key)
      ensures Lookup(logged, key) == Logged(watched, scope, key, LastWritten(writes, scope, key))
    {
      ServedIsLookup(loaded + watched, scope, key);
      LogShows(writes, events, scope, key);
    }
    hide Served, Logged, Observed, VisibleData, AfterEvents, Replay, OwnPuts, Announced, KvFlags, EventFlags,
      LastWritten, Shows, Visible, LastFor, LoadedFrom;
    if shown == logged {
      forall key
        ensures forall f | f in loaded + watched && Shows(scope, f) && f.key == key ::
                  LastFor(loaded + watched, key).Some? && Shows(scope, LastFor(loaded + watched, key).value)
        ensures LastFor(Visible(watched, scope), key).None? ==>
                  SettingOf(LastFor(Visible(loaded, scope), key)) == LastWritten(writes, scope, key)
      {
        LoadedIsKnown(kvs, writes, scope, key);
        assert Served(loaded + watched, scope, key) == Lookup(shown, key);
        AgreeBackwards(loaded, watched, scope, key, LastWritten(writes, scope, key));
      }
    }
    if NotShadowed(loaded + watched, scope) && LoadedIsLatest(kvs, writes, events, scope) {
      forall key
        ensures Lookup(shown, key) == Lookup(logged, key)
      {
        AgreeForwards(loaded, watched, scope, key, LastWritten(writes, scope, key));
      }
      SameSettings(shown, logged);
    }
  }

  lemma {:induction false} LogShows(writes: seq<Etcd.Write>, events: seq<WatchEvent>, scope: Scope, key: string)
    requires StreamHandler.Admitted(scope)
    ensures Lookup(Replay(map[], OwnPuts(Announced(Events(writes)) + Announced(events), scope)), key)
         == Logged(EventFlags(events), scope, key, LastWritten(writes, scope, key))
  {
    hide Logged, EventFlags, Replay, LastWritten;
    var before := Wanted(Announced(Events(writes)), scope);
    OwnPutsConcat(Announced(Events(writes)), Announced(events), scope);
    WritesArePuts(writes, scope);
    ReplayConcat(map[], before, OwnPuts(Announced(events), scope));
    EventsShow(Replay(map[], before), events, scope, key);
    ReplayShowsLastWritten(writes, scope, key);
  }

  lemma {:induction false} WritesArePuts(writes: seq<Etcd.Write>, scope: Scope)
    ensures OwnPuts(Announced(Events(writes)), scope) == Wanted(Announced(Events(writes)), scope)
  {
    hide Announced, Wanted, Puts;
    AnnouncedOfWrites(writes);
    WantedSound(Announced(Events(writes)), scope);
    PutsOfPuts(Wanted(Announced(Events(writes)), scope));
  }

  /** The snapshot endpoint serves what the client model takes for granted, the puts among the events in
      the cache under a stamp that is not ahead of them, in exactly the same case. */
  lemma {:induction false} ServerServes(p: Client.System, kvs: seq<Kv>, writes: seq<Etcd.Write>,
        events: seq<WatchEvent>, rev0: int, n: nat, scope: Scope, data: seq<Flag>)
    requires StreamHandler.Admitted(scope) && n <= |events|
    requires History(kvs, events, rev0) && DeletesMiss(KvFlags(kvs) + EventFlags(events[..n]), events[..n])
    requires LoadedFrom(kvs, writes) && Seen(rev0, events[..n]) <= p.head
    requires p.log == Wanted(Announced(Events(writes)) + Announced(events), scope)
    requires p.cached == |Wanted(Announced(Events(writes)) + Announced(events[..n]), scope)|
    requires Merge(map[], data) == VisibleData(AfterEvents(AfterLoad(kvs), events[..n]).data, scope)
    ensures Client.Served(p, Response(data, AfterEvents(AfterLoad(kvs), events[..n]).stamp), p.cached)
        <==> && NotShadowed(KvFlags(kvs) + EventFlags(events[..n]), scope)
             && LoadedIsLatest(kvs, writes, events[..n], scope)
  {
    hide Wanted, Announced, Events, AfterEvents, NotShadowed, LoadedIsLatest, VisibleData, Merge, Observed, Replay,
      Puts, LoadedFrom, DeletesMiss;
    var watched := events[..n];
    assert forall e | e in watched :: e in events;
    SnapshotIsLog(kvs, writes, watched, scope);
    StampIsSeen(kvs, watched, rev0);
    CachedPart(kvs, writes, events, rev0, n, scope);
    var r := Response(data, AfterEvents(AfterLoad(kvs), watched).stamp);
    assert p.log[..p.cached] == Wanted(Announced(Events(writes)) + Announced(watched), scope);
    assert OwnPuts(Announced(Events(writes)) + Announced(watched), scope) == Puts(p.log[..p.cached]);
    assert Client.Served(p, r, p.cached) <==> Observed(Merge(map[], data)) == Replay(map[], Puts(p.log[..p.cached]));
  }

  lemma {:induction false} CachedPart(kvs: seq<Kv>, writes: seq<Etcd.Write>, events: seq<WatchEvent>, rev0: int,
        n: nat, scope: Scope)
    requires History(kvs, events, rev0) && n <= |events|
    ensures var log := Wanted(Announced(Events(writes)) + Announced(events), scope);
            var cached := Wanted(Announced(Events(writes)) + Announced(events[..n]), scope);
            && cached <= log
            && forall i | |cached| <= i < |log| :: log[i].revision > Seen(rev0, events[..n])
  {
    hide Announced, Wanted;
    var before, more := Announced(Events(writes)) + Announced(events[..n]), Announced(events[n..]);
    assert events == events[..n] + events[n..];
    AnnouncedConcat(events[..n], events[n..]);
    assert before + more == Announced(Events(writes)) + Announced(events);
    WantedConcat(before, more, scope);
    AnnouncedRevisions([], events[n..], Seen(rev0, events[..n]));
    WantedSound(more, scope);
    assert forall i | 0 <= i < |Wanted(more, scope)| :: Wanted(more, scope)[i] in more;
  }

  // ----- a restart that shows an older flag -----

  /** etcd's order of keys. */
  predicate Precedes(s: string, t: string) {
    t != "" && (s == "" || s[0] < t[0] || (s[0] == t[0] && Precedes(s[1..], t[1..])))
  }

  ghost predicate KeyOrder(kvs: seq<Kv>) {
    forall i, j | 0 <= i < j < |kvs| :: Precedes(kvs[i].fullKey, kvs[j].fullKey)
  }

  /** Of two different keys exactly one precedes the other. */
  lemma {:induction false} KeysAreOrdered(s: string, t: string)
    ensures s == t <==> !Precedes(s, t) && !Precedes(t, s)
    ensures !(Precedes(s, t) && Precedes(t, s))
  {
    if s != "" && t != "" {
      KeysAreOrdered(s[1..], t[1..]);
      assert s == [s[0]] + s[1..] && t == [t[0]] + t[1..];
    }
  }

  /** Two namespaces of one environment use the same short key, and the one whose etcd key comes first
      was written last. A server that lists them in key order shows a client of both the older flag; no
      snapshot of it has the data it is stamped with, and nothing is shadowed. */
  lemma {:induction false} RestartShowsOlder(a: Flag, b: Flag, p: Client.System, data: seq<Flag>)
    requires a.env == b.env != "" && a.key == b.key && a.Content() != b.Content()
    requires Precedes(BuildFeatureKey(a.Id()), BuildFeatureKey(b.Id()))
    requires var scope := Scope(a.env, {a.namespace, b.namespace});
             var writes := [Etcd.Write(BuildFeatureKey(b.Id()), b, 1), Etcd.Write(BuildFeatureKey(a.Id()), a, 2)];
             var kvs := [Kv(BuildFeatureKey(a.Id()), Some(a), 2), Kv(BuildFeatureKey(b.Id()), Some(b), 1)];
             && p.log == Wanted(Announced(Events(writes)) + Announced([]), scope) && p.cached == |p.log| && p.head == 2
             && Merge(map[], data) == VisibleData(AfterLoad(kvs).data, scope)
    ensures var scope := Scope(a.env, {a.namespace, b.namespace});
            var kvs := [Kv(BuildFeatureKey(a.Id()), Some(a), 2), Kv(BuildFeatureKey(b.Id()), Some(b), 1)];
            && KeyOrder(kvs) && History(kvs, [], 2) && AfterLoad(kvs).stamp == 2
            && NotShadowed(KvFlags(kvs) + EventFlags([]), scope)
            && !Client.Served(p, Response(data, AfterLoad(kvs).stamp), p.cached)
  {
    hide BuildFeatureKey, Client.Served, NotShadowed, VisibleData, Merge, Wanted, Announced, Events, KvFlags, EventFlags,
      AfterLoad, History, WritesOk, LoadedFrom, LoadedInOrder;
    var scope := Scope(a.env, {a.namespace, b.namespace});
    var writes := [Etcd.Write(BuildFeatureKey(b.Id()), b, 1), Etcd.Write(BuildFeatureKey(a.Id()), a, 2)];
    var kvs := [Kv(BuildFeatureKey(a.Id()), Some(a), 2), Kv(BuildFeatureKey(b.Id()), Some(b), 1)];
    KeysAreOrdered(BuildFeatureKey(a.Id()), BuildFeatureKey(b.Id()));
    TwoWrites(a, b, writes, kvs);
    TwoFlags(a, b, kvs, scope);
    NotServedOutOfOrder(p, kvs, writes, scope, data);
  }

  lemma {:induction false} NotServedOutOfOrder(p: Client.System, kvs: seq<Kv>, writes: seq<Etcd.Write>, scope: Scope,
        data: seq<Flag>)
    requires StreamHandler.Admitted(scope) && WritesOk(writes) && LoadedFrom(kvs, writes) && History(kvs, [], 2)
    requires p.log == Wanted(Announced(Events(writes)) + Announced([]), scope) && p.cached == |p.log| && p.head == 2
    requires Merge(map[], data) == VisibleData(AfterLoad(kvs).data, scope) && !LoadedInOrder(kvs, [], scope)
    ensures !Client.Served(p, Response(data, AfterLoad(kvs).stamp), p.cached)
  {
    hide WritesOk, LoadedFrom, LoadedInOrder, NotShadowed, Client.Served, Wanted, VisibleData, Merge, AfterLoad;
    var none: seq<WatchEvent> := [];
    assert none[..0] == none;
    ServerServes(p, kvs, writes, none, 2, 0, scope, data);
    forall key
      ensures InOrder(writes) && Kept(writes, scope, key)
    {
      OkIsKept(writes, scope, key);
    }
    assert Kept(writes, scope, "");
    LatestIsInOrder(kvs, writes, none, scope);
  }

  lemma {:induction false} TwoWrites(a: Flag, b: Flag, writes: seq<Etcd.Write>, kvs: seq<Kv>)
    requires BuildFeatureKey(a.Id()) != BuildFeatureKey(b.Id())
    requires writes == [Etcd.Write(BuildFeatureKey(b.Id()), b, 1), Etcd.Write(BuildFeatureKey(a.Id()), a, 2)]
    requires kvs == [Kv(BuildFeatureKey(a.Id()), Some(a), 2), Kv(BuildFeatureKey(b.Id()), Some(b), 1)]
    ensures WritesOk(writes) && LoadedFrom(kvs, writes) && History(kvs, [], 2)
  {
    hide BuildFeatureKey;
    assert writes[..1] == [writes[0]] && [writes[0]][..0] == [];
    assert Cas.LastWrite(writes, writes[1].key, None) == Some(Etcd.Entry(Some(a), 2));
    assert Cas.LastWrite(writes, writes[0].key, None) == Cas.LastWrite([writes[0]], writes[0].key, None)
        == Some(Etcd.Entry(Some(b), 1));
    assert kvs[0] in kvs && kvs[1] in kvs;
    assert HasKey(kvs, kvs[0].fullKey) && HasKey(kvs, kvs[1].fullKey);
  }

  lemma {:induction false} TwoFlags(a: Flag, b: Flag, kvs: seq<Kv>, scope: Scope)
    requires a.env == b.env && a.key == b.key && a.Content() != b.Content()
    requires kvs == [Kv(BuildFeatureKey(a.Id()), Some(a), 2), Kv(BuildFeatureKey(b.Id()), Some(b), 1)]
    requires scope == Scope(a.env, {a.namespace, b.namespace})
    ensures AfterLoad(kvs).stamp == 2
    ensures NotShadowed(KvFlags(kvs) + EventFlags([]), scope) && !LoadedInOrder(kvs, [], scope)
  {
    hide BuildFeatureKey;
    var f, g := a.(revision := 2), b.(revision := 1);
    assert kvs[..|kvs| - 1] == [kvs[0]] && [kvs[0]][..0] == [];
    assert AfterLoad([kvs[0]]).stamp == 2 && AfterLoad(kvs) == Loaded(AfterLoad([kvs[0]]), kvs[1]);
    assert KvFlags([kvs[0]]) == [f];
    assert KvFlags(kvs) == [f] + [g];
    assert EventFlags([]) == [] && Visible([], scope) == [] && LastFor([], a.key) == None;
    TwoFlagsOutOfOrder(f, g, scope);
    assert [f] + [g] + [] == [f] + [g];
  }

  lemma {:induction false} TwoFlagsOutOfOrder(f: Flag, g: Flag, scope: Scope)
    requires f.key == g.key && f.Content() != g.Content() && f.revision > g.revision
    requires Shows(scope, f) && Shows(scope, g)
    ensures NotShadowed([f] + [g], scope)
    ensures SettingOf(LastFor(Visible([f] + [g], scope), f.key)) != SettingOf(NewestFor(Visible([f] + [g], scope), f.key))
  {
    hide Visible, LastFor, NewestFor;
    JustOne(f, scope);
    VisibleMore([f], g, scope);
    LastForOne([f], g, f.key);
    NewestForOne([f], g, f.key);
    forall h | h in [f] + [g]
      ensures h == f || h == g
    {
    }
  }

  lemma {:induction false} JustOne(f: Flag, scope: Scope)
    requires Shows(scope, f)
    ensures Visible([f], scope) == [f] && NewestFor([f], f.key) == Some(f)
  {
    assert [f][..0] == [];
  }

  lemma {:induction false} NewestForOne(flags: seq<Flag>, f: Flag, key: string)
    ensures NewestFor(flags + [f], key)
         == var before := NewestFor(flags, key);
            if f.key == key && (before.None? || before.value.revision < f.revision) then Some(f) else before
  {
    assert (flags + [f])[..|flags|] == flags;
  }

  // ----- a delete that does not reach the cache -----

  /** A feature is put and deleted under its own etcd key. A client that followed the stream shows
      nothing of it any more, but one that fetches the snapshot is served it still. */
  lemma {:induction false} DeletedComesBack(f: Flag, rev1: int, rev2: int, scope: Scope)
    requires StreamHandler.Admitted(scope) && Covers(scope, f)
    requires SlashFree(f.env) && SlashFree(f.namespace) && SlashFree(f.key)
    ensures var key := BuildFeatureKey(f.Id());
            var events := [PutEvent(key, Some(f), rev1), DeleteEvent(key, rev2)];
            && Replay(map[], Wanted(Announced(events), scope)) == map[]
            && Observed(VisibleData(AfterEvents(AfterLoad([]), events).data, scope)) == map[f.key := f.Content()]
  {
    hide ParseDeleteKey, AfterEvents, AfterLoad, Announced, Wanted, Replay, VisibleData, Observed;
    DeleteKeyRoundTrip(f.Id());
    var key := BuildFeatureKey(f.Id());
    assert |key| > |f.key|;
    PutThenDeleted(f, PutEvent(key, Some(f), rev1), DeleteEvent(key, rev2), scope);
    DeleteLeavesPut(f, PutEvent(key, Some(f), rev1), DeleteEvent(key, rev2), scope);
  }

  lemma {:induction false} DeleteLeavesPut(f: Flag, put: WatchEvent, delete: WatchEvent, scope: Scope)
    requires StreamHandler.Admitted(scope) && Covers(scope, f)
    requires put.PutEvent? && put.payload == Some(f) && delete.DeleteEvent? && delete.fullKey != f.key
    ensures Observed(VisibleData(AfterEvents(AfterLoad([]), [put, delete]).data, scope)) == map[f.key := f.Content()]
  {
    assert [put, delete][..1] == [put] && [put][..0] == [];
    assert AfterEvents(AfterLoad([]), [put]).data == map[f.key := f];
    assert AfterEvents(AfterLoad([]), [put, delete]).data == map[f.key := f];
  }

  lemma {:induction false} PutThenDeleted(f: Flag, put: WatchEvent, delete: WatchEvent, scope: Scope)
    requires StreamHandler.Admitted(scope) && Covers(scope, f)
    requires put.PutEvent? && put.payload == Some(f) && delete.DeleteEvent? && ParseDeleteKey(delete.fullKey) == f.Id()
    ensures Replay(map[], Wanted(Announced([put, delete]), scope)) == map[]
  {
    hide ParseDeleteKey;
    assert [put, delete][..1] == [put] && [put][..0] == [];
    var m1, m2 := PutMessage(f, put.modRevision), Announce(delete).value;
    assert Announced([put]) == [] + [m1];
    assert Announced([put, delete]) == [m1] + [m2];
    WantedMore([], m1, scope);
    WantedMore([m1], m2, scope);
    assert Wanted([m1, m2], scope) == [m1] + [m2];
    ReplayOne(map[], [], m1);
    ReplayOne(map[], [m1], m2);
    assert Replay(map[], [m1]) == map[f.key := f.Content()];
  }
}
