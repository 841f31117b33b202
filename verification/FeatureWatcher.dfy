/** The server's watch loop: the initial load of the cache, then one event after another into
    the cache, the ring of recent messages and the hub. */
module FeatureWatcher {
  import opened Model
  import opened EventLog
  import opened FeatureCache
  import RevisionBuffer
  import FeatureKey

  /** A key-value pair of the initial load; a payload that is not a flag does not parse. */
  datatype Kv = Kv(fullKey: string, payload: Option<Flag>, modRevision: int)

  datatype WatchEvent =
    | PutEvent(fullKey: string, payload: Option<Flag>, modRevision: int)
    | DeleteEvent(fullKey: string, modRevision: int)

  /** The message an event is announced with; an unreadable put is skipped. */
  function Announce(e: WatchEvent): Option<Message> {
    match e
    case DeleteEvent(fullKey, rev) =>
      var id := FeatureKey.ParseDeleteKey(fullKey);
      Some(Message(id.namespace, id.env, id.key, "", "", 0, rev, Delete))
    case PutEvent(_, None, _) => None
    case PutEvent(_, Some(f), rev) => Some(PutMessage(f, rev))
  }

  function PutMessage(f: Flag, rev: int): Message {
    Message(f.namespace, f.env, f.key, f.value, f.kind, f.version, rev, Put)
  }

  /** What reaches the ring and the hub, in order. */
  function Announced(events: seq<WatchEvent>): seq<Message> {
    if events == [] then []
    else
      var rest := Announced(events[..|events| - 1]);
      match Announce(events[|events| - 1])
      case None => rest
      case Some(m) => rest + [m]
  }

  lemma {:induction false} AnnouncedConcat(a: seq<WatchEvent>, b: seq<WatchEvent>)
    ensures Announced(a + b) == Announced(a) + Announced(b)
  {
    if b == [] {
      assert a + b == a;
    } else {
      assert (a + b)[..|a + b| - 1] == a + b[..|b| - 1];
      AnnouncedConcat(a, b[..|b| - 1]);
    }
  }

  /** The cache and its revision stamp. */
  datatype Snapshot = Snapshot(data: map<string, Flag>, stamp: int)

  function Loaded(s: Snapshot, kv: Kv): Snapshot {
    match kv.payload
    case None => s
    case Some(f) => Snapshot(s.data[f.key := f.(revision := kv.modRevision)], Max(s.stamp, kv.modRevision))
  }

  /** A watched put keeps the revision its JSON carries; a delete is filed under the full key. */
  function Watched(s: Snapshot, e: WatchEvent): Snapshot {
    match e
    case DeleteEvent(fullKey, rev) => Snapshot(s.data - {fullKey}, Max(s.stamp, rev))
    case PutEvent(_, None, _) => s
    case PutEvent(_, Some(f), _) => Snapshot(s.data[f.key := f], Max(s.stamp, f.revision))
  }

  function AfterLoad(kvs: seq<Kv>): Snapshot {
    if kvs == [] then Snapshot(map[], 0) else Loaded(AfterLoad(kvs[..|kvs| - 1]), kvs[|kvs| - 1])
  }

  function AfterEvents(s: Snapshot, events: seq<WatchEvent>): Snapshot {
    if events == [] then s else Watched(AfterEvents(s, events[..|events| - 1]), events[|events| - 1])
  }

  /** Every readable pair is there or has been replaced by a later one of its short key, under its own
      modification revision; and the stamp is the newest of these revisions, or 0 if there is none. */
  ghost predicate LoadedAll(kvs: seq<Kv>, data: map<string, Flag>, stamp: int) {
    && (forall kv | kv in kvs && kv.payload.Some? :: kv.payload.value.key in data && kv.modRevision <= stamp)
    && (forall key | key in data :: exists kv :: kv in kvs && IsFiled(kv, key, data[key]))
    && (stamp <= 0 || exists kv :: kv in kvs && kv.payload.Some? && kv.modRevision == stamp)
  }

  predicate IsFiled(kv: Kv, key: string, f: Flag) {
    kv.payload.Some? && kv.payload.value.key == key && f == kv.payload.value.(revision := kv.modRevision)
  }

  lemma {:induction false} LoadIsAll(kvs: seq<Kv>)
    ensures LoadedAll(kvs, AfterLoad(kvs).data, AfterLoad(kvs).stamp) && AfterLoad(kvs).stamp >= 0
  {
    if kvs != [] {
      var rest, last := kvs[..|kvs| - 1], kvs[|kvs| - 1];
      LoadIsAll(rest);
      assert kvs == rest + [last];
      var data := AfterLoad(kvs).data;
      forall key | key in data
        ensures exists kv :: kv in kvs && IsFiled(kv, key, data[key])
      {
        if last.payload.Some? && last.payload.value.key == key {
          assert IsFiled(last, key, data[key]);
        } else {
          var kv :| kv in rest && IsFiled(kv, key, AfterLoad(rest).data[key]);
          assert kv in kvs;
        }
      }
    }
  }

  class Watcher {
    const cache: Cache
    const ring: RevisionBuffer.Ring
    var broadcast: seq<Message>  // what has been handed to the hub

    ghost predicate Valid()
      reads this, cache, ring, ring.messages
    {
      ring.Valid() && broadcast == ring.log
    }

    ghost function State(): Snapshot
      reads cache
    {
      Snapshot(cache.data, cache.revision)
    }

    constructor (cache: Cache, ring: RevisionBuffer.Ring)
      requires ring.Valid() && ring.log == []
      ensures this.cache == cache && this.ring == ring && Valid()
    {
      this.cache := cache;
      this.ring := ring;
      broadcast := [];
    }

    method Load(kvs: seq<Kv>)
      requires State() == Snapshot(map[], 0)
      modifies cache
      ensures State() == AfterLoad(kvs)
      ensures LoadedAll(kvs, cache.data, cache.revision)
    {
      LoadIsAll(kvs);
      for i := 0 to |kvs|
        invariant State() == AfterLoad(kvs[..i])
      {
        assert kvs[..i + 1][..i] == kvs[..i];
        match kvs[i].payload {
          case None => continue;
          case Some(f) => cache.Update(f.(revision := kvs[i].modRevision));
        }
      }
      assert kvs[..|kvs|] == kvs;
    }

    /** One event: the cache first, then the ring, then the hub. */
    method Handle(e: WatchEvent)
      requires Valid()
      modifies this, cache, ring, ring.messages
      ensures Valid() && ring.messages == old(ring.messages) && ring.size == old(ring.size)
      ensures State() == Watched(old(State()), e)
      ensures ring.log == old(ring.log) + match Announce(e) { case None => [] case Some(m) => [m] }
      ensures e.PutEvent? && e.payload.None? ==> ring.log == old(ring.log) && State() == old(State())
      ensures e.DeleteEvent? ==> cache.data == old(cache.data) - {e.fullKey}
      ensures e.PutEvent? && e.payload.Some? ==> cache.data == old(cache.data)[e.payload.value.key := e.payload.value]
      ensures !(e.PutEvent? && e.payload.None?) ==>
                && |ring.log| == |old(ring.log)| + 1 && ring.log[..|old(ring.log)|] == old(ring.log)
                && var m := ring.log[|old(ring.log)|];
                   && m.revision == e.modRevision && m.action == (if e.PutEvent? then Put else Delete)
                   && m.Id() == (if e.PutEvent? then e.payload.value.Id() else FeatureKey.ParseDeleteKey(e.fullKey))
                   && (e.PutEvent? ==> m.Content() == e.payload.value.Content())
    {
      var msg: Message;
      match e {
        case DeleteEvent(fullKey, rev) =>
          var id := FeatureKey.ParseDeleteKey(fullKey);
          msg := Message(id.namespace, id.env, id.key, "", "", 0, rev, Delete);
          cache.Delete(fullKey, rev);
        case PutEvent(_, payload, rev) =>
          if payload.None? {
            return;
          }
          msg := PutMessage(payload.value, rev);
          cache.Update(payload.value);
      }
      ring.AddMessage(msg);
      broadcast := broadcast + [msg];
    }

    method Watch(events: seq<WatchEvent>)
      requires Valid() && ring.log == []
      modifies this, cache, ring, ring.messages
      ensures Valid() && ring.size == old(ring.size)
      ensures State() == AfterEvents(old(State()), events)
      ensures ring.log == Announced(events)
    {
      for i := 0 to |events|
        invariant Valid() && ring.messages == old(ring.messages) && ring.size == old(ring.size)
        invariant State() == AfterEvents(old(State()), events[..i])
        invariant ring.log == Announced(events[..i])
      {
        assert events[..i + 1][..i] == events[..i];
        Handle(events[i]);
      }
      assert events[..|events|] == events;
    }
  }

  // ----- the stamp of the snapshot -----

  /** The history of a server: the load read etcd at revision `rev0`, and the events follow it.
      No writer stores a revision in the JSON of a flag. */
  ghost predicate History(kvs: seq<Kv>, events: seq<WatchEvent>, rev0: int) {
    && rev0 >= 0
    && (forall kv | kv in kvs :: kv.modRevision <= rev0)
    && (forall i | 0 <= i < |events| :: events[i].modRevision > rev0)
    && (forall i, j | 0 <= i < j < |events| :: events[i].modRevision < events[j].modRevision)
    && (forall e | e in events && e.PutEvent? && e.payload.Some? :: e.payload.value.revision <= 0)
  }

  lemma {:induction false} LoadStamp(kvs: seq<Kv>, rev0: int)
    requires rev0 >= 0 && forall kv | kv in kvs :: kv.modRevision <= rev0
    ensures 0 <= AfterLoad(kvs).stamp <= rev0
  {
    if kvs != [] {
      LoadStamp(kvs[..|kvs| - 1], rev0);
      assert kvs[|kvs| - 1] in kvs;
    }
  }

  /** etcd's revision as far as the server has seen it. */
  function Seen(rev0: int, events: seq<WatchEvent>): int {
    if events == [] then rev0 else events[|events| - 1].modRevision
  }

  lemma {:induction false} HistoryBefore(kvs: seq<Kv>, events: seq<WatchEvent>, rev0: int)
    requires History(kvs, events, rev0) && events != []
    ensures var rest, e := events[..|events| - 1], events[|events| - 1];
            && History(kvs, rest, rev0) && Seen(rev0, rest) < e.modRevision
            && (e.PutEvent? && e.payload.Some? ==> e.payload.value.revision <= 0 <= rev0)
  {
    var rest, e := events[..|events| - 1], events[|events| - 1];
    assert events == rest + [e];
    assert e in events;
  }

  /** The stamp is never ahead of what the server has seen. */
  lemma {:induction false} StampIsSeen(kvs: seq<Kv>, events: seq<WatchEvent>, rev0: int)
    requires History(kvs, events, rev0)
    ensures 0 <= AfterEvents(AfterLoad(kvs), events).stamp <= Seen(rev0, events)
  {
    hide History, AfterLoad;
    if events == [] {
      StampOfLoad(kvs, rev0);
    } else {
      HistoryBefore(kvs, events, rev0);
      StampIsSeen(kvs, events[..|events| - 1], rev0);
    }
  }

  lemma {:induction false} StampOfLoad(kvs: seq<Kv>, rev0: int)
    requires History(kvs, [], rev0)
    ensures 0 <= AfterLoad(kvs).stamp <= rev0
  {
    LoadStamp(kvs, rev0);
  }

  /** Watched puts leave the stamp alone; only deletes move it. */
  lemma {:induction false} StampMovesOnDelete(s: Snapshot, events: seq<WatchEvent>, rev: int)
    requires s.stamp >= 0 && s.stamp < rev
    requires forall e | e in events && e.PutEvent? && e.payload.Some? :: e.payload.value.revision <= 0
    ensures AfterEvents(s, events).stamp >= 0
    ensures AfterEvents(s, events).stamp >= rev <==>
              exists e :: e in events && e.DeleteEvent? && e.modRevision >= rev
  {
    if events != [] {
      var rest, e := events[..|events| - 1], events[|events| - 1];
      StampMovesOnDelete(s, rest, rev);
      assert events == rest + [e];
      assert e in events;
    }
  }

  lemma {:induction false} AnnouncedRevisions(kvs: seq<Kv>, events: seq<WatchEvent>, rev0: int)
    requires History(kvs, events, rev0)
    ensures Ascending(Announced(events))
    ensures forall m | m in Announced(events) :: rev0 < m.revision
    ensures forall m | m in Announced(events) :: m.revision <= events[|events| - 1].modRevision
  {
    if events != [] {
      var rest := events[..|events| - 1];
      assert forall e | e in rest :: e in events;
      AnnouncedRevisions(kvs, rest, rev0);
      forall i | 0 <= i < |Announced(rest)|
        ensures Announced(rest)[i].revision < events[|events| - 1].modRevision
      {
        assert Announced(rest)[i] in Announced(rest);
        assert events[|rest| - 1].modRevision < events[|events| - 1].modRevision;
      }
    }
  }

  /** A delete at least as recent as the oldest message kept. */
  ghost predicate DeleteInRing(size: nat, events: seq<WatchEvent>)
    requires size > 0 && Announced(events) != []
  {
    exists e :: e in events && e.DeleteEvent? &&
      e.modRevision >= RevisionBuffer.Retained(size, Announced(events))[0].revision
  }

  /** A client that has just fetched the snapshot and connects with its stamp is served exactly
      when nothing has been announced since the server started, or a delete has moved the stamp
      into the ring. */
  lemma {:induction false} FreshClientIsServed(kvs: seq<Kv>, events: seq<WatchEvent>, rev0: int, size: nat)
    requires History(kvs, events, rev0) && size > 0
    ensures RevisionBuffer.Compensation(size, Announced(events), AfterEvents(AfterLoad(kvs), events).stamp).Some?
        <==> Announced(events) == [] || DeleteInRing(size, events)
  {
    var log := Announced(events);
    LoadStamp(kvs, rev0);
    AnnouncedRevisions(kvs, events, rev0);
    if log != [] {
      var oldest := RevisionBuffer.Retained(size, log)[0];
      assert oldest in log;
      StampMovesOnDelete(AfterLoad(kvs), events, oldest.revision);
    }
  }

  /** No writer of the repository deletes: from the first announced put on, every client that
      refetches the snapshot is reset again, however often it tries and whatever follows. */
  lemma {:induction false} ResetForever(kvs: seq<Kv>, events: seq<WatchEvent>, rev0: int, size: nat, n: nat, later: nat)
    requires History(kvs, events, rev0) && size > 0 && n <= later <= |events|
    requires forall e | e in events :: e.PutEvent?
    requires Announced(events[..n]) != []
    ensures AfterEvents(AfterLoad(kvs), events[..later]).stamp == AfterLoad(kvs).stamp
    ensures RevisionBuffer.Compensation(size, Announced(events[..later]), AfterLoad(kvs).stamp) == None
  {
    assert forall e | e in events[..later] :: e in events;
    FreshClientIsServed(kvs, events[..later], rev0, size);
    LoadStamp(kvs, rev0);
    PutsKeepStamp(AfterLoad(kvs), events[..later]);
    AnnouncedGrows(events, n, later);
  }

  lemma {:induction false} PutsKeepStamp(s: Snapshot, events: seq<WatchEvent>)
    requires s.stamp >= 0 && forall e | e in events :: e.PutEvent?
    requires forall e | e in events && e.PutEvent? && e.payload.Some? :: e.payload.value.revision <= 0
    ensures AfterEvents(s, events).stamp == s.stamp
  {
    if events != [] {
      PutsKeepStamp(s, events[..|events| - 1]);
    }
  }

  lemma {:induction false} AnnouncedGrows(events: seq<WatchEvent>, n: nat, later: nat)
    requires n <= later <= |events|
    ensures |Announced(events[..n])| <= |Announced(events[..later])|
    decreases later
  {
    if n < later {
      AnnouncedGrows(events, n, later - 1);
      assert events[..later][..later - 1] == events[..later - 1];
    }
  }

  /** After a restart the ring is empty and serves any revision. What it returns is complete
      with respect to etcd exactly when it holds something, or the client had already seen
      the last event before the restart. */
  lemma {:induction false} ServedAfterRestart(before: seq<Message>, since: seq<Message>, size: nat, lastRev: int)
    requires size > 0 && Ascending(before + since)
    requires RevisionBuffer.Compensation(size, since, lastRev).Some?
    ensures RevisionBuffer.Compensation(size, since, lastRev) == Some(Since(before + since, lastRev))
        <==> since != [] || before == [] || before[|before| - 1].revision <= lastRev
  {
    NothingMissed(before, since, lastRev);
    if since != [] && before != [] {
      BeforeTheRing(before, since, size);
    }
    ServedIsRest(before, since, size, lastRev);
  }

  lemma {:induction false} ServedIsRest(before: seq<Message>, since: seq<Message>, size: nat, lastRev: int)
    requires size > 0 && RevisionBuffer.Compensation(size, since, lastRev).Some?
    ensures RevisionBuffer.Compensation(size, since, lastRev) == Some(Since(before + since, lastRev))
        <==> Since(before, lastRev) == []
  {
    SinceConcat(before, since, lastRev);
    assert RevisionBuffer.Compensation(size, since, lastRev) == Some(Since(since, lastRev));
    assert [] + Since(since, lastRev) == Since(since, lastRev);
    assert |Since(before + since, lastRev)| == |Since(before, lastRev)| + |Since(since, lastRev)|;
  }

  lemma {:induction false} NothingMissed(before: seq<Message>, since: seq<Message>, lastRev: int)
    requires Ascending(before + since)
    ensures Since(before, lastRev) == [] <==> before == [] || before[|before| - 1].revision <= lastRev
  {
    if before != [] && before[|before| - 1].revision <= lastRev {
      forall i | 0 <= i < |before|
        ensures before[i].revision <= lastRev
      {
        assert (before + since)[i] == before[i] && (before + since)[|before| - 1] == before[|before| - 1];
      }
      SinceNothing(before, lastRev);
    }
  }

  lemma {:induction false} BeforeTheRing(before: seq<Message>, since: seq<Message>, size: nat)
    requires size > 0 && Ascending(before + since) && before != [] && since != []
    ensures before[|before| - 1].revision <= RevisionBuffer.Retained(size, since)[0].revision
  {
    var log := before + since;
    var k := |since| - |RevisionBuffer.Retained(size, since)|;
    assert log[|before| - 1] == before[|before| - 1];
    assert RevisionBuffer.Retained(size, since)[0] == since[k] == log[|before| + k];
  }
}
