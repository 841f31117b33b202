/** A client the ring cannot serve: it is reset, fetches the snapshot, and takes over its stamp. */
module ClientReset {
  import opened Model
  import opened EventLog
  import opened FeatureCache
  import opened FeatureWatcher
  import opened SdkClient
  import opened ServerSnapshot
  import opened ClientStream
  import RevisionBuffer
  import StreamHandler
  import Client = ClientSystem

  /** Against a server of a put-only history, a client's last revision falls exactly when it refetches
      after a reset and is past the stamp of the server's initial load; so always when it has received
      an announced event. Whatever it held, from then on the ring refuses it for ever. */
  lemma {:induction false} RefetchLowersRevision(p: Client.System, s: Client.Step, kvs: seq<Kv>,
        events: seq<WatchEvent>, rev0: int, size: nat, m: nat, n: nat)
    requires History(kvs, events, rev0) && size > 0 && m <= n <= |events| && forall e | e in events :: e.PutEvent?
    requires Client.Inv(p) && Client.Enabled(p, s) && p.client.Some? && Client.Next(p, s).client.Some?
    requires s.Refetch? ==>
               && RevisionBuffer.Compensation(size, Announced(events[..m]), p.client.value.mem.lastRev) == None
               && s.r.revision == AfterEvents(AfterLoad(kvs), events[..n]).stamp
    ensures var was, now := p.client.value.mem.lastRev, Client.Next(p, s).client.value.mem.lastRev;
            && (now < was <==> s.Refetch? && was > AfterLoad(kvs).stamp)
            && (s.Refetch? && (exists e :: e in Announced(events) && e.revision <= was) ==> now < was)
            && (s.Refetch? ==> forall later | m <= later <= |events| ::
                  RevisionBuffer.Compensation(size, Announced(events[..later]), now) == None)
  {
    hide AfterLoad, AfterEvents, Announced, Client.Inv;
    Client.RevisionFallsOnRefetch(p, s);
    if s.Refetch? {
      assert Client.Next(p, s).client.value.mem.lastRev == s.r.revision;
      LoadStamp(kvs, rev0);
      AnnouncedRevisions(kvs, events, rev0);
      RefusedMeansAnnounced(size, events[..m], p.client.value.mem.lastRev);
      ResetForever(kvs, events, rev0, size, m, n);
      forall later | m <= later <= |events|
        ensures RevisionBuffer.Compensation(size, Announced(events[..later]), s.r.revision) == None
      {
        ResetForever(kvs, events, rev0, size, m, later);
      }
    }
  }

  lemma {:induction false} RefusedMeansAnnounced(size: nat, events: seq<WatchEvent>, lastRev: int)
    requires size > 0 && RevisionBuffer.Compensation(size, Announced(events), lastRev) == None
    ensures Announced(events) != []
  {
  }

  // ----- a run in which it falls -----

  /** Each event is committed and reaches the server's cache. */
  function Published(log: seq<Message>): seq<Client.Step> {
    if log == [] then [] else [Client.Publish(log[0])] + ([Client.Cache] + Published(log[1..]))
  }

  /** A client starts on an empty server, follows the first events, and hangs up; more follow. */
  function LeftBehind(followed: seq<Message>, missed: seq<Message>): seq<Client.Step> {
    [Client.StartFetched(Response([], 0), 0)]
    + (Published(followed) + (Walk(0, |followed|, 0, 0) + ([Client.Hangup] + Published(missed))))
  }

  lemma {:induction false} PublishedOne(p: Client.System, m: Message)
    requires Client.Inv(p) && p.cached == |p.log| && m.action == Put && p.head < m.revision
    ensures Client.Enabled(p, Client.Publish(m))
    ensures Client.Enabled(Client.Next(p, Client.Publish(m)), Client.Cache)
    ensures var q := Client.Next(Client.Next(p, Client.Publish(m)), Client.Cache);
            && Client.Inv(q) && q.log == p.log + [m] && q.cached == |q.log| && q.client == p.client && q.head == m.revision
  {
    Client.StepKeepsInv(p, Client.Publish(m));
    Client.StepKeepsInv(Client.Next(p, Client.Publish(m)), Client.Cache);
    hide Client.Inv;
  }

  lemma {:induction false} RestIsOrderly(more: seq<Message>)
    requires PutOnly(more) && Ascending(more) && more != []
    ensures more[0].action == Put && PutOnly(more[1..]) && Ascending(more[1..])
    ensures more[1..] != [] ==> more[0].revision < more[1..][0].revision
  {
    assert more[0] in more && forall m | m in more[1..] :: m in more;
  }

  lemma {:induction false} PublishedRun(p: Client.System, more: seq<Message>)
    requires Client.Inv(p) && p.cached == |p.log|
    requires PutOnly(more) && Ascending(more) && (more != [] ==> p.head < more[0].revision)
    ensures Client.Runs(p, Published(more))
    ensures var q := Client.Exec(p, Published(more));
            && Client.Inv(q) && q.log == p.log + more && q.cached == |q.log| && q.client == p.client
            && q.head == if more == [] then p.head else more[|more| - 1].revision
    decreases |more|
  {
    hide Client.Inv, Client.Next, Client.Enabled, PutOnly, Ascending;
    if more == [] {
      assert p.log + [] == p.log;
    } else {
      RestIsOrderly(more);
      PublishedOne(p, more[0]);
      var p1 := Client.Next(p, Client.Publish(more[0]));
      var p2 := Client.Next(p1, Client.Cache);
      PublishedRun(p2, more[1..]);
      Client.Then(p1, Client.Cache, Published(more[1..]));
      Client.Then(p, Client.Publish(more[0]), [Client.Cache] + Published(more[1..]));
      assert p.log + [more[0]] + more[1..] == p.log + more;
    }
  }

  /** The client at the end of its first connection. */
  ghost predicate Followed(p: Client.System, log: seq<Message>) {
    && Client.Inv(p) && p.log == log && p.cached == |log| && p.client.Some? && log != []
    && p.client.value.mem.lastRev == log[|log| - 1].revision == p.head
  }

  lemma {:induction false} StartRun(p: Client.System)
    requires p == Client.Initial()
    ensures var s := Client.StartFetched(Response([], 0), 0);
            && Client.Enabled(p, s)
            && var q := Client.Next(p, s);
               && Client.Inv(q) && q.log == [] && q.cached == 0 && q.head == 0
               && q.client.Some? && q.client.value.mem.lastRev == 0 && q.client.value.track.at == 0
               && q.client.value.conn == None
  {
    var s := Client.StartFetched(Response([], 0), 0);
    assert Client.Served(p, s.r, 0);
    Client.StepKeepsInv(p, s);
  }

  lemma {:induction false} FollowRun(p: Client.System, log: seq<Message>)
    requires Client.Inv(p) && p.log == [] && p.cached == 0 && p.head == 0
    requires p.client.Some? && p.client.value.mem.lastRev == 0 && p.client.value.track.at == 0 && p.client.value.conn == None
    requires PutOnly(log) && Ascending(log) && log != [] && log[0].revision > 0
    ensures Client.Runs(p, Published(log)) && Client.Runs(Client.Exec(p, Published(log)), Walk(0, |log|, 0, 0))
    ensures Followed(Client.Exec(Client.Exec(p, Published(log)), Walk(0, |log|, 0, 0)), log)
  {
    hide Client.Inv, Client.Runs, Client.Exec, Walk, HandledAll, Published, PutOnly;
    PublishedRun(p, log);
    var q := Client.Exec(p, Published(log));
    assert [] + log == log;
    WalkRuns(q, 0, |log|, 0, 0);
    assert log[0..|log|] == log;
    assert forall i | 0 <= i < |log| :: log[i].revision > 0;
    HandledNothing(HandledAll(q.client.value.mem, log), log, |log|);
    HandledAllIsReplay(q.client.value.mem, log);
  }

  lemma {:induction false} HangupRun(p: Client.System, log: seq<Message>)
    requires Followed(p, log)
    ensures Client.Enabled(p, Client.Hangup)
    ensures var q := Client.Next(p, Client.Hangup);
            Followed(q, log) && q.client.value.conn == None
  {
    Client.StepKeepsInv(p, Client.Hangup);
    hide Client.Inv;
  }

  lemma {:induction false} LeftBehindRun(followed: seq<Message>, missed: seq<Message>)
    requires PutOnly(followed + missed) && Ascending(followed + missed) && followed != [] && followed[0].revision > 0
    ensures Client.Runs(Client.Initial(), LeftBehind(followed, missed))
    ensures var p := Client.Exec(Client.Initial(), LeftBehind(followed, missed));
            && Client.Inv(p) && p.log == followed + missed && p.cached == |p.log| && p.client.Some?
            && p.client.value.mem.lastRev == followed[|followed| - 1].revision
  {
    hide Client.Inv, Client.Runs, Client.Exec, Client.Next, Client.Enabled, Walk, Published;
    var log := followed + missed;
    assert forall i | 0 <= i < |followed| :: log[i] == followed[i];
    assert forall i | 0 <= i < |missed| :: log[|followed| + i] == missed[i];
    StartRun(Client.Initial());
    var p1 := Client.Next(Client.Initial(), Client.StartFetched(Response([], 0), 0));
    FollowRun(p1, followed);
    var p2 := Client.Exec(p1, Published(followed));
    var walk := Walk(0, |followed|, 0, 0);
    var p3 := Client.Exec(p2, walk);
    HangupRun(p3, followed);
    var p4 := Client.Next(p3, Client.Hangup);
    PublishedRun(p4, missed);
    Client.Then(p3, Client.Hangup, Published(missed));
    RunsConcat(p2, walk, [Client.Hangup] + Published(missed));
    RunsConcat(p1, Published(followed), walk + ([Client.Hangup] + Published(missed)));
    Client.Then(Client.Initial(), Client.StartFetched(Response([], 0), 0),
                Published(followed) + (walk + ([Client.Hangup] + Published(missed))));
  }

  lemma {:induction false} AnnouncedPuts(events: seq<WatchEvent>)
    requires forall e | e in events :: e.PutEvent?
    ensures PutOnly(Announced(events))
  {
    if events != [] {
      AnnouncedPuts(events[..|events| - 1]);
    }
  }

  /** A ring that has taken as many messages since has overwritten all before. */
  lemma {:induction false} RingHasTurned(size: nat, a: seq<Message>, b: seq<Message>, rev: int)
    requires size > 0 && |b| >= size && a != [] && Ascending(a + b) && rev <= a[|a| - 1].revision
    ensures RevisionBuffer.Compensation(size, a + b, rev) == None
  {
    var log := a + b;
    assert log[|a| - 1] == a[|a| - 1];
    assert RevisionBuffer.Retained(size, log)[0] == log[|log| - size];
  }

  lemma {:induction false} OwnMessages(first: seq<WatchEvent>, more: seq<WatchEvent>, scope: Scope)
    requires forall e | e in first + more :: e.PutEvent?
    requires History([], first + more, 0) && Wanted(Announced(first), scope) != []
    ensures Announced(first + more) == Announced(first) + Announced(more) && Ascending(Announced(first + more))
    ensures Announced(first) != []
    ensures var followed, missed := Wanted(Announced(first), scope), Wanted(Announced(more), scope);
            && Wanted(Announced(first + more), scope) == followed + missed
            && PutOnly(followed + missed) && Ascending(followed + missed) && 0 < followed[0].revision
            && 0 < followed[|followed| - 1].revision <= Announced(first)[|Announced(first)| - 1].revision
  {
    hide Announced, History, Wanted, Ascending, PutOnly;
    AnnouncedConcat(first, more);
    PositiveAscending(first + more);
    AnnouncedPuts(first + more);
    OwnPart(Announced(first), Announced(more), scope);
  }

  lemma {:induction false} PositiveAscending(events: seq<WatchEvent>)
    requires History([], events, 0)
    ensures Ascending(Announced(events)) && forall m | m in Announced(events) :: m.revision > 0
  {
    hide Announced;
    AnnouncedRevisions([], events, 0);
  }

  lemma {:induction false} OwnPart(a: seq<Message>, b: seq<Message>, scope: Scope)
    requires Ascending(a + b) && PutOnly(a + b) && Wanted(a, scope) != [] && forall m | m in a + b :: m.revision > 0
    ensures a != []
    ensures var followed, missed := Wanted(a, scope), Wanted(b, scope);
            && Wanted(a + b, scope) == followed + missed
            && PutOnly(followed + missed) && Ascending(followed + missed) && 0 < followed[0].revision
            && 0 < followed[|followed| - 1].revision <= a[|a| - 1].revision
  {
    hide Wanted;
    WantedConcat(a, b, scope);
    WantedSound(a + b, scope);
    WantedSound(a, scope);
    WantedAscending(a + b, scope);
    var followed := Wanted(a, scope);
    assert followed[0] in a && followed[|followed| - 1] in a;
    LastIsNewest(a, b, followed[|followed| - 1]);
    assert forall m | m in a :: m in a + b;
  }

  lemma {:induction false} LastIsNewest(a: seq<Message>, b: seq<Message>, m: Message)
    requires Ascending(a + b) && m in a
    ensures m.revision <= a[|a| - 1].revision
  {
    assert forall i | 0 <= i < |a| :: (a + b)[i] == a[i];
  }

  lemma {:induction false} SnapshotOfEmpty(events: seq<WatchEvent>, scope: Scope)
    requires StreamHandler.Admitted(scope) && forall e | e in events :: e.PutEvent?
    requires NotShadowed(EventFlags(events), scope)
    ensures Observed(VisibleData(AfterEvents(AfterLoad([]), events).data, scope))
         == Replay(map[], OwnPuts(Announced(events), scope))
    ensures AfterLoad([]).stamp == 0
  {
    SnapshotIsHistory([], events, scope);
    assert KvFlags([]) + EventFlags(events) == EventFlags(events);
    assert Observed(Merge(map[], Visible(KvFlags([]), scope))) == map[];
  }

  lemma {:induction false} SnapshotIsServed(p: Client.System, r: Response)
    requires Client.Inv(p) && p.client.Some? && p.cached == |p.log| && p.log != [] && p.log[0].revision > 0 && r.revision == 0
    requires Observed(Merge(map[], r.data)) == Replay(map[], Puts(p.log))
    ensures Client.Enabled(p, Client.Refetch(r, |p.log|))
    ensures Client.Next(p, Client.Refetch(r, |p.log|)).client.value.mem.lastRev == 0
  {
    assert p.log[..|p.log|] == p.log;
  }

  /** The client is behind the cached log at revision `rev`, and the refetch sends it back to 0. */
  ghost predicate FallsBack(p: Client.System, rev: int, r: Response) {
    && p.cached == |p.log| && p.client.Some? && p.client.value.mem.lastRev == rev > 0
    && Client.Enabled(p, Client.Refetch(r, |p.log|))
    && Client.Next(p, Client.Refetch(r, |p.log|)).client.value.mem.lastRev == 0
  }

  /** A reload from disk is not the only way back. A server starts on an empty etcd and watches any
      puts; a client follows those of its scope up to some point and hangs up, and when it returns the
      ring has turned over and refuses it. The snapshot it is told to fetch carries the stamp of the
      initial load, and its last revision falls to 0. */
  lemma {:induction false} RefetchFallsBack(first: seq<WatchEvent>, more: seq<WatchEvent>, scope: Scope, size: nat,
        data: seq<Flag>)
    returns (rev: int)
    requires StreamHandler.Admitted(scope) && forall e | e in first + more :: e.PutEvent?
    requires History([], first + more, 0) && Wanted(Announced(first), scope) != []
    requires size > 0 && |Announced(more)| >= size
    requires NotShadowed(EventFlags(first + more), scope)
    requires Merge(map[], data) == VisibleData(AfterEvents(AfterLoad([]), first + more).data, scope)
    ensures var followed, missed := Wanted(Announced(first), scope), Wanted(Announced(more), scope);
            && rev == followed[|followed| - 1].revision
            && Client.Runs(Client.Initial(), LeftBehind(followed, missed))
            && var p := Client.Exec(Client.Initial(), LeftBehind(followed, missed));
               && p.log == Wanted(Announced(first + more), scope)
               && FallsBack(p, rev, Response(data, AfterEvents(AfterLoad([]), first + more).stamp))
    ensures RevisionBuffer.Compensation(size, Announced(first + more), rev) == None
  {
    hide Announced, Wanted, Client.Runs, Client.Exec, LeftBehind, AfterEvents, VisibleData, EventFlags, NotShadowed;
    var events := first + more;
    var followed, missed := Wanted(Announced(first), scope), Wanted(Announced(more), scope);
    rev := followed[|followed| - 1].revision;
    OwnMessages(first, more, scope);
    LeftBehindRun(followed, missed);
    var p := Client.Exec(Client.Initial(), LeftBehind(followed, missed));
    RingHasTurned(size, Announced(first), Announced(more), rev);
    SnapshotOfEmpty(events, scope);
    PutsKeepStamp(AfterLoad([]), events);
    SnapshotIsServed(p, Response(data, AfterEvents(AfterLoad([]), events).stamp));
  }
}
