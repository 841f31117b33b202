/** One SDK client against the server over its whole life: events are published and cached, the
    client connects, reconnects, misses events, refetches, saves its snapshot, crashes and starts
    again, in any order. The log holds the events of the client's scope. */
module ClientSystem {
  import opened Model
  import opened EventLog
  import opened FeatureCache
  import opened SdkClient

  /** Where features came from: the snapshot of the first `base` events, on top of which the events
      from `from` to `at` have been applied, except for those a connection passed over. */
  datatype Track = Track(base: nat, from: nat, at: nat, skipped: set<nat>)

  /** The snapshot loop: between turns, flag cleared, features captured for the file. */
  datatype Saver = Idle | Cleared | Captured(saved: Saved, track: Track)

  /** A running process. `conn` is the position of the next event on its connection; `lost` tells
      that a save failed and nothing has been marked dirty since. */
  datatype Process = Process(mem: Memory, track: Track, conn: Option<nat>, saver: Saver, lost: bool)

  /** `head` is etcd's revision, `cached` counts the events in the server's cache, and `held` are
      the pairs of features and revision the client has held in memory. */
  datatype System = System(log: seq<Message>, head: nat, cached: nat, client: Option<Process>,
                           file: Option<Saved>, fileTrack: Track, held: set<Saved>)

  datatype Step =
    | Publish(m: Message)              // etcd commits an event of the scope
    | Elsewhere                        // etcd commits something else
    | Cache                            // the server's cache takes the next event
    | StartFetched(r: Response, position: nat)
    | StartLoaded                      // the fetch failed, the file was readable
    | Crash
    | Connect                          // the watch request carries the client's last revision
    | Deliver                          // the connection's next event arrives
    | Skip                             // it never does: a late registration, or a server restarted
    | Repeat(m: Message)               // a stale or repeated message
    | Hangup
    | Refetch(r: Response, position: nat)  // after a reset event
    | Clear                            // a turn of the snapshot loop: clear the dirty flag,
    | Capture(ok: bool)                // marshal the features,
    | Finish(ok: bool)                 // write and rename

  /** The first `at` events are those up to `rev`. */
  ghost predicate Frontier(log: seq<Message>, at: nat, rev: int) {
    && at <= |log|
    && (forall i | 0 <= i < at :: log[i].revision <= rev)
    && (forall i | at <= i < |log| :: log[i].revision > rev)
  }

  function Position(log: seq<Message>, rev: int): nat {
    if log == [] then 0
    else if log[|log| - 1].revision <= rev then |log|
    else Position(log[..|log| - 1], rev)
  }

  /** A response of the snapshot endpoint, which may have been under way for a while: the data of
      the cache when it had been through the first `position` events, under a stamp that may be older
      but is never ahead of them. A delete names the full key, under which the cache has nothing, so
      the cache holds the puts. */
  ghost predicate Served(p: System, r: Response, position: nat) {
    && position <= p.cached <= |p.log|
    && Observed(Merge(map[], r.data)) == Replay(map[], Puts(p.log[..position]))
    && r.revision <= p.head
    && forall i | position <= i < |p.log| :: p.log[i].revision > r.revision
  }

  /** The events applied on top of a snapshot. */
  function Picked(log: seq<Message>, from: nat, at: nat, skipped: set<nat>): seq<Message>
    requires from <= at <= |log|
    decreases at
  {
    if at == from then []
    else
      var rest := Picked(log, from, at - 1, skipped);
      if at - 1 in skipped then rest else rest + [log[at - 1]]
  }

  ghost predicate Enabled(p: System, s: Step) {
    match s
    case Publish(m) => !m.action.Unknown? && m.revision > p.head
    case Elsewhere => true
    case Cache => p.cached < |p.log|
    case StartFetched(r, position) => p.client.None? && Served(p, r, position)
    case StartLoaded => p.client.None? && p.file.Some?
    case Crash => p.client.Some?
    case Connect => p.client.Some? && p.client.value.conn.None?
    case Deliver =>
      // an event is cached before it is broadcast
      p.client.Some? && p.client.value.conn.Some? && p.client.value.conn.value < p.cached <= |p.log|
    case Skip =>
      p.client.Some? && p.client.value.conn.Some? && p.client.value.conn.value < p.cached
    case Repeat(m) => p.client.Some? && m.revision <= p.client.value.mem.lastRev
    case Hangup => p.client.Some?
    case Refetch(r, position) =>
      // asked for by the loop that applies the events, and the cache does not go back
      p.client.Some? && Served(p, r, position)
      && p.client.value.track.base <= position && p.client.value.track.at <= position
    case Clear => p.client.Some? && p.client.value.saver.Idle? && p.client.value.mem.dirty
    case Capture(_) => p.client.Some? && p.client.value.saver.Cleared?
    case Finish(_) => p.client.Some? && p.client.value.saver.Captured?
  }

  /** The client's new state, remembered among those it has held. */
  function With(p: System, c: Process): System {
    p.(client := Some(c), held := p.held + {c.mem.Content()})
  }

  function Refetched(p: System, c: Process, r: Response, position: nat): Process {
    var at := Position(p.log, r.revision);
    Process(Fetched(c.mem, r), Track(position, at, at, {}), None, c.saver, false)
  }

  const NOWHERE := Track(0, 0, 0, {})

  const FRESH_PROCESS := Process(FRESH, NOWHERE, None, Idle, false)

  ghost function Next(p: System, s: Step): System
    requires Enabled(p, s)
  {
    match s
    case Publish(m) => p.(log := p.log + [m], head := m.revision)
    case Elsewhere => p.(head := p.head + 1)
    case Cache => p.(cached := p.cached + 1)
    case StartFetched(r, position) => With(p, Refetched(p, FRESH_PROCESS, r, position))
    case StartLoaded =>
      With(p, FRESH_PROCESS.(mem := Memory(p.file.value.features, p.file.value.revision, false), track := p.fileTrack))
    case Crash => p.(client := None)
    case Connect =>
      With(p, p.client.value.(conn := Some(Position(p.log, p.client.value.mem.lastRev))))
    case Deliver => With(p, Delivered(p, p.client.value))
    case Skip => With(p, p.client.value.(conn := Some(p.client.value.conn.value + 1)))
    case Repeat(m) => With(p, p.client.value.(mem := Handled(p.client.value.mem, m)))
    case Hangup => With(p, p.client.value.(conn := None))
    case Refetch(r, position) => With(p, Refetched(p, p.client.value, r, position))
    case Clear => With(p, p.client.value.(mem := p.client.value.mem.(dirty := false), saver := Cleared))
    case Capture(ok) =>
      var c := p.client.value;
      With(p, if ok then c.(saver := Captured(c.mem.Content(), c.track))
              else c.(saver := Idle, lost := !c.mem.dirty))
    case Finish(ok) =>
      var c := p.client.value;
      if ok then
        With(p.(file := Some(c.saver.saved), fileTrack := c.saver.track), c.(saver := Idle))
      else With(p, c.(saver := Idle, lost := !c.mem.dirty))
  }

  /** The event at the connection's position is applied; those passed over before it are missed. */
  function Delivered(p: System, c: Process): Process
    requires c.conn.Some? && c.conn.value < |p.log|
  {
    c.(mem := Handled(c.mem, p.log[c.conn.value]), conn := Some(c.conn.value + 1), lost := false,
       track := Passed(c.track, c.conn.value))
  }

  function Passed(t: Track, position: nat): Track {
    t.(at := position + 1, skipped := t.skipped + Stretch(t.at, position))
  }

  function Stretch(i: nat, j: nat): (positions: set<nat>)
    ensures forall k: nat :: k in positions <==> i <= k < j
    decreases j
  {
    if j <= i then {} else Stretch(i, j - 1) + {j - 1}
  }

  // ----- the invariant -----

  /** The server announces puts and deletes. */
  ghost predicate Known(log: seq<Message>) {
    forall m | m in log :: !m.action.Unknown?
  }

  ghost predicate ServerOk(p: System) {
    && p.cached <= |p.log|
    && Ascending(p.log)
    && Known(p.log)
    && (forall i | 0 <= i < |p.log| :: p.log[i].revision <= p.head)
  }

  /** What the features are, in terms of the log. */
  ghost predicate TrackOk(log: seq<Message>, head: int, cached: nat, s: Saved, t: Track)
    requires cached <= |log|
  {
    && t.from <= t.base <= cached
    && t.from <= t.at <= cached
    && s.revision <= head
    && Frontier(log, t.at, s.revision)
    && (forall i | i in t.skipped :: t.from <= i < t.at)
    && Observed(s.features) == Replay(Replay(map[], Puts(log[..t.base])), Picked(log, t.from, t.at, t.skipped))
  }

  ghost predicate ProcessOk(p: System, c: Process)
    requires p.cached <= |p.log|
  {
    && TrackOk(p.log, p.head, p.cached, c.mem.Content(), c.track)
    && (c.conn.Some? ==> c.track.at <= c.conn.value <= p.cached)
    && (c.saver.Captured? ==>
          && TrackOk(p.log, p.head, p.cached, c.saver.saved, c.saver.track)
          && c.saver.saved in p.held)
    && c.mem.Content() in p.held
  }

  /** The dirty-flag protocol: a client that is not dirty has its content in the file, or on its
      way there, or has lost it to a failed save. */
  ghost predicate SavedOk(p: System, c: Process) {
    !c.mem.dirty && !c.lost ==>
      match c.saver
      case Idle => p.file == Some(c.mem.Content())
      case Cleared => true
      case Captured(saved, _) => saved == c.mem.Content()
  }

  ghost predicate FileOk(p: System)
    requires p.cached <= |p.log|
  {
    p.file.Some? ==> p.file.value in p.held && TrackOk(p.log, p.head, p.cached, p.file.value, p.fileTrack)
  }

  ghost predicate Inv(p: System) {
    && ServerOk(p)
    && FileOk(p)
    && (p.client.Some? ==> ProcessOk(p, p.client.value) && SavedOk(p, p.client.value))
  }

  // ----- positions in the log -----

  lemma {:induction false} PositionIsFrontier(log: seq<Message>, rev: int)
    requires Ascending(log)
    ensures Frontier(log, Position(log, rev), rev)
  {
    if log != [] {
      PositionIsFrontier(log[..|log| - 1], rev);
    }
  }

  lemma {:induction false} FrontierAt(log: seq<Message>, at: nat, rev: int, i: nat)
    requires Frontier(log, at, rev) && i < |log|
    ensures log[i].revision <= rev <==> i < at
  {
  }

  lemma {:induction false} FrontierIsPosition(log: seq<Message>, at: nat, rev: int)
    requires Ascending(log) && Frontier(log, at, rev)
    ensures at == Position(log, rev)
  {
    PositionIsFrontier(log, rev);
    var n := Position(log, rev);
    if at < |log| {
      FrontierAt(log, n, rev, at);
    }
    if n < |log| {
      FrontierAt(log, at, rev, n);
    }
  }

  // ----- merging -----

  function KeysOf(log: seq<Message>): set<string> {
    set m | m in log :: m.key
  }

  lemma {:induction false} KeysOfReplay(s: Settings, log: seq<Message>)
    requires Known(log)
    ensures Replay(s, log).Keys <= s.Keys + KeysOf(Puts(log))
    ensures PutOnly(log) ==> Replay(s, log).Keys == s.Keys + KeysOf(log)
  {
    if log != [] {
      var rest, m := log[..|log| - 1], log[|log| - 1];
      assert log == rest + [m];
      assert KeysOf(log) == KeysOf(rest) + {m.key};
      KeysOfReplay(s, rest);
      assert m.action.Put? ==> KeysOf(Puts(log)) == KeysOf(Puts(rest)) + {m.key};
    }
  }

  lemma {:induction false} PickedSound(log: seq<Message>, from: nat, at: nat, skipped: set<nat>)
    requires from <= at <= |log|
    ensures forall m | m in Picked(log, from, at, skipped) :: m in log[..at]
    decreases at
  {
    if at > from {
      PickedSound(log, from, at - 1, skipped);
      assert log[..at] == log[..at - 1] + [log[at - 1]];
    }
  }

  lemma {:induction false} PutsArePuts(log: seq<Message>)
    ensures PutOnly(Puts(log)) && Known(Puts(log))
  {
    forall m | m in Puts(log)
      ensures m.action == Put
    {
      PutsMember(log, m);
    }
  }

  /** A snapshot taken no earlier than the features has all their keys. */
  lemma {:induction false} TrackKeys(log: seq<Message>, t: Track, position: nat)
    requires Known(log) && t.base <= position <= |log| && t.from <= t.at <= position
    ensures Replay(Replay(map[], Puts(log[..t.base])), Picked(log, t.from, t.at, t.skipped)).Keys
         <= Replay(map[], Puts(log[..position])).Keys
  {
    hide Picked, Replay, Puts, KeysOf;
    var picked := Picked(log, t.from, t.at, t.skipped);
    PickedSound(log, t.from, t.at, t.skipped);
    PrefixMembers(log, t.base, position, log[..t.base]);
    PrefixMembers(log, t.at, position, picked);
    PutsArePuts(log[..t.base]);
    PutsArePuts(log[..position]);
    KeysOfReplay(map[], Puts(log[..t.base]));
    KeysOfReplay(Replay(map[], Puts(log[..t.base])), picked);
    KeysOfReplay(map[], Puts(log[..position]));
    PutsKeys(log[..t.base], log[..position]);
    PutsKeys(picked, log[..position]);
  }

  lemma {:induction false} PutsKeys(part: seq<Message>, log: seq<Message>)
    requires forall m | m in part :: m in log
    ensures KeysOf(Puts(part)) <= KeysOf(Puts(log))
  {
    forall m | m in Puts(part)
      ensures m in Puts(log)
    {
      PutsMember(part, m);
      PutsMember(log, m);
    }
  }

  lemma {:induction false} PrefixMembers(log: seq<Message>, n: nat, position: nat, part: seq<Message>)
    requires n <= position <= |log| && forall m | m in part :: m in log[..n]
    ensures forall m | m in part :: m in log[..position] && m in log
  {
    forall m | m in part
      ensures m in log[..position] && m in log
    {
      var i :| 0 <= i < n && log[..n][i] == m;
      assert log[..position][i] == log[i] == m;
    }
  }

  /** The cache never loses a key, so the snapshot has every key the client has, and merging it is
      replacing. */
  lemma {:induction false} RefetchIsReplace(p: System, mem: Memory, t: Track, r: Response, position: nat)
    requires ServerOk(p) && TrackOk(p.log, p.head, p.cached, mem.Content(), t) && Served(p, r, position)
    requires t.base <= position && t.at <= position
    ensures Observed(Fetched(mem, r).features) == Replay(map[], Puts(p.log[..position]))
  {
    TrackKeys(p.log, t, position);
    assert Observed(mem.features).Keys == mem.features.Keys;
    assert Observed(Merge(map[], r.data)).Keys == Merge(map[], r.data).Keys;
    MergeIsReplace(mem, r);
  }

  /** A stamp that is not ahead of the data lies at or before it. */
  lemma {:induction false} StampIsBehind(p: System, r: Response, position: nat)
    requires ServerOk(p) && Served(p, r, position)
    ensures Frontier(p.log, Position(p.log, r.revision), r.revision) && Position(p.log, r.revision) <= position
  {
    var at := Position(p.log, r.revision);
    PositionIsFrontier(p.log, r.revision);
    if position < |p.log| {
      FrontierAt(p.log, at, r.revision, position);
    }
  }

  lemma {:induction false} FetchKeepsTrack(p: System, mem: Memory, t: Track, r: Response, position: nat)
    requires ServerOk(p) && TrackOk(p.log, p.head, p.cached, mem.Content(), t) && Served(p, r, position)
    requires t.base <= position && t.at <= position
    ensures var at := Position(p.log, r.revision);
            TrackOk(p.log, p.head, p.cached, Fetched(mem, r).Content(), Track(position, at, at, {}))
  {
    RefetchIsReplace(p, mem, t, r, position);
    StampIsBehind(p, r, position);
  }

  /** A first fetch needs no earlier track. */
  lemma {:induction false} StartKeepsTrack(p: System, r: Response, position: nat)
    requires ServerOk(p) && Served(p, r, position)
    ensures var at := Position(p.log, r.revision);
            TrackOk(p.log, p.head, p.cached, Fetched(FRESH, r).Content(), Track(position, at, at, {}))
  {
    assert Fetched(FRESH, r).features == Merge(map[], r.data);
    StampIsBehind(p, r, position);
  }

  // ----- steps -----

  lemma {:induction false} PublishKeepsTrack(log: seq<Message>, head: nat, cached: nat, s: Saved, t: Track, m: Message)
    requires cached <= |log| && TrackOk(log, head, cached, s, t) && m.revision > head
    ensures TrackOk(log + [m], m.revision, cached, s, t)
  {
    assert (log + [m])[..t.base] == log[..t.base];
    PickedPrefix(log, m, t.from, t.at, t.skipped);
  }

  lemma {:induction false} PickedPrefix(log: seq<Message>, m: Message, from: nat, at: nat, skipped: set<nat>)
    requires from <= at <= |log|
    ensures Picked(log + [m], from, at, skipped) == Picked(log, from, at, skipped)
    decreases at
  {
    if at > from {
      PickedPrefix(log, m, from, at - 1, skipped);
    }
  }

  lemma {:induction false} PublishKeepsInv(p: System, m: Message)
    requires Inv(p) && Enabled(p, Publish(m))
    ensures Inv(Next(p, Publish(m)))
  {
    var q := Next(p, Publish(m));
    assert ServerOk(q);
    if p.file.Some? {
      PublishKeepsTrack(p.log, p.head, p.cached, p.file.value, p.fileTrack, m);
    }
    if p.client.Some? {
      var c := p.client.value;
      PublishKeepsTrack(p.log, p.head, p.cached, c.mem.Content(), c.track, m);
      if c.saver.Captured? {
        PublishKeepsTrack(p.log, p.head, p.cached, c.saver.saved, c.saver.track, m);
      }
    }
  }

  lemma {:induction false} PickedAgain(log: seq<Message>, from: nat, at: nat, skipped: set<nat>, more: set<nat>)
    requires from <= at <= |log| && forall i | i in more :: at <= i
    ensures Picked(log, from, at, skipped + more) == Picked(log, from, at, skipped)
    decreases at
  {
    if at > from {
      PickedAgain(log, from, at - 1, skipped, more);
    }
  }

  lemma {:induction false} PickedNothing(log: seq<Message>, from: nat, at: nat, end: nat, skipped: set<nat>)
    requires from <= at <= end <= |log| && forall i | at <= i < end :: i in skipped
    ensures Picked(log, from, end, skipped) == Picked(log, from, at, skipped)
    decreases end
  {
    if at < end {
      PickedNothing(log, from, at, end - 1, skipped);
    }
  }

  lemma {:induction false} PickedOne(log: seq<Message>, from: nat, at: nat, skipped: set<nat>)
    requires from <= at < |log|
    ensures Picked(log, from, at + 1, skipped)
         == if at in skipped then Picked(log, from, at, skipped) else Picked(log, from, at, skipped) + [log[at]]
  {
  }

  /** Passing over a stretch and taking the event behind it. */
  lemma {:induction false} PickedJump(log: seq<Message>, t: Track, position: nat)
    requires t.from <= t.at <= position < |log| && forall i | i in t.skipped :: t.from <= i < t.at
    ensures var u := Passed(t, position);
            Picked(log, u.from, u.at, u.skipped) == Picked(log, t.from, t.at, t.skipped) + [log[position]]
  {
    hide Picked;
    var more := Stretch(t.at, position);
    PickedOne(log, t.from, position, t.skipped + more);
    PickedAgain(log, t.from, t.at, t.skipped, more);
    PickedNothing(log, t.from, t.at, position, t.skipped + more);
  }

  /** The event at the connection's position goes on top of the features. */
  lemma {:induction false} DeliverKeepsTrack(log: seq<Message>, head: nat, cached: nat, mem: Memory, t: Track,
        position: nat)
    requires t.at <= position < cached <= |log| && Ascending(log) && TrackOk(log, head, cached, mem.Content(), t)
    requires log[position].revision <= head
    ensures TrackOk(log, head, cached, Handled(mem, log[position]).Content(), Passed(t, position))
  {
    hide Picked, Replay, Observed, Puts;
    var m := log[position];
    HandledApplies(mem, m);
    PickedJump(log, t, position);
    ReplayOne(Replay(map[], Puts(log[..t.base])), Picked(log, t.from, t.at, t.skipped), m);
    assert Handled(mem, m).lastRev == m.revision;
  }

  lemma {:induction false} DeliverMarksDirty(mem: Memory, m: Message)
    requires m.revision > mem.lastRev
    ensures Handled(mem, m).dirty && Handled(mem, m).lastRev == m.revision
  {
  }

  lemma {:induction false} DeliverKeepsInv(p: System)
    requires Inv(p) && Enabled(p, Deliver)
    ensures Inv(Next(p, Deliver))
  {
    var c := p.client.value;
    hide Handled, Picked, Replay;
    DeliverKeepsTrack(p.log, p.head, p.cached, c.mem, c.track, c.conn.value);
    DeliverMarksDirty(c.mem, p.log[c.conn.value]);
  }

  lemma {:induction false} FetchKeepsInv(p: System, s: Step)
    requires Inv(p) && Enabled(p, s) && (s.StartFetched? || s.Refetch?)
    ensures Inv(Next(p, s))
  {
    hide Picked, Replay;
    if s.Refetch? {
      FetchKeepsTrack(p, p.client.value.mem, p.client.value.track, s.r, s.position);
    } else {
      StartKeepsTrack(p, s.r, s.position);
    }
  }

  lemma {:induction false} ConnectKeepsInv(p: System)
    requires Inv(p) && Enabled(p, Connect)
    ensures Inv(Next(p, Connect))
  {
    hide Picked, Replay;
    FrontierIsPosition(p.log, p.client.value.track.at, p.client.value.mem.lastRev);
  }

  /** The snapshot loop moves features from memory to the file. */
  lemma {:induction false} SaverKeepsInv(p: System, s: Step)
    requires Inv(p) && Enabled(p, s) && (s.Clear? || s.Capture? || s.Finish?)
    ensures Inv(Next(p, s))
  {
    hide TrackOk;
  }

  /** The rest leaves features and revision alone, or takes them from the file. */
  lemma {:induction false} QuietKeepsInv(p: System, s: Step)
    requires Inv(p) && Enabled(p, s)
    requires s.Elsewhere? || s.Cache? || s.StartLoaded? || s.Crash? || s.Skip? || s.Repeat? || s.Hangup?
    ensures Inv(Next(p, s))
  {
    hide Picked, Replay, Frontier, Observed;
  }

  lemma {:induction false} StepKeepsInv(p: System, s: Step)
    requires Inv(p) && Enabled(p, s)
    ensures Inv(Next(p, s))
  {
    hide Inv, Next, Enabled;
    match s {
      case Publish(m) => PublishKeepsInv(p, m);
      case StartFetched(_, _) => FetchKeepsInv(p, s);
      case Refetch(_, _) => FetchKeepsInv(p, s);
      case Connect => ConnectKeepsInv(p);
      case Deliver => DeliverKeepsInv(p);
      case Clear => SaverKeepsInv(p, s);
      case Capture(_) => SaverKeepsInv(p, s);
      case Finish(_) => SaverKeepsInv(p, s);
      case _ => QuietKeepsInv(p, s);
    }
  }

  // ----- runs -----

  function Initial(): System {
    System([], 0, 0, None, None, NOWHERE, {})
  }

  ghost predicate Runs(p: System, steps: seq<Step>)
    decreases |steps|
  {
    steps == [] || (Enabled(p, steps[0]) && Runs(Next(p, steps[0]), steps[1..]))
  }

  ghost function Exec(p: System, steps: seq<Step>): System
    requires Runs(p, steps)
    decreases |steps|
  {
    if steps == [] then p else Exec(Next(p, steps[0]), steps[1..])
  }

  lemma {:induction false} RunKeepsInv(p: System, steps: seq<Step>)
    requires Inv(p) && Runs(p, steps)
    ensures Inv(Exec(p, steps))
    decreases |steps|
  {
    if steps != [] {
      StepKeepsInv(p, steps[0]);
      RunKeepsInv(Next(p, steps[0]), steps[1..]);
    }
  }

  lemma {:induction false} PrefixRuns(p: System, steps: seq<Step>, n: nat)
    requires Runs(p, steps) && n <= |steps|
    ensures Runs(p, steps[..n])
    decreases |steps|
  {
    if n > 0 {
      assert steps[..n][1..] == steps[1..][..n - 1];
      PrefixRuns(Next(p, steps[0]), steps[1..], n - 1);
    }
  }

  lemma {:induction false} LastStep(p: System, steps: seq<Step>)
    requires Runs(p, steps) && steps != []
    ensures var rest, last := steps[..|steps| - 1], steps[|steps| - 1];
            Runs(p, rest) && Enabled(Exec(p, rest), last) && Exec(p, steps) == Next(Exec(p, rest), last)
    decreases |steps|
  {
    if |steps| > 1 {
      LastStep(Next(p, steps[0]), steps[1..]);
      assert steps[..|steps| - 1][1..] == steps[1..][..|steps| - 2];
    }
  }

  // ----- what the client shows -----

  /** The events up to a revision. */
  function UpTo(log: seq<Message>, rev: int): (events: seq<Message>) {
    PositionIsBounded(log, rev);
    log[..Position(log, rev)]
  }

  lemma {:induction false} PositionIsBounded(log: seq<Message>, rev: int)
    ensures Position(log, rev) <= |log|
  {
    if log != [] {
      PositionIsBounded(log[..|log| - 1], rev);
    }
  }

  ghost predicate VersionsAscend(log: seq<Message>) {
    forall i, j | 0 <= i < j < |log| && log[i].key == log[j].key && log[i].action.Put? && log[j].action.Put? ::
      log[i].version < log[j].version
  }

  /** The position of the last event applied to a key, or -1. */
  function LastApplied(log: seq<Message>, from: nat, at: nat, skipped: set<nat>, key: string): (last: int)
    requires from <= at <= |log|
    ensures last == -1 || (from <= last < at && last !in skipped && log[last].key == key)
    decreases at
  {
    if at == from then -1
    else if at - 1 !in skipped && log[at - 1].key == key then at - 1
    else LastApplied(log, from, at - 1, skipped, key)
  }

  lemma {:induction false} AppliedIsNotLater(log: seq<Message>, from: nat, at: nat, skipped: set<nat>, i: nat)
    requires from <= i < at <= |log| && i !in skipped
    ensures i <= LastApplied(log, from, at, skipped, log[i].key)
    decreases at
  {
    if i < at - 1 {
      AppliedIsNotLater(log, from, at - 1, skipped, i);
    }
  }

  function NotPuts(log: seq<Message>): set<nat> {
    set i: nat | i < |log| && !log[i].action.Put?
  }

  /** The position of the event of which a snapshot shows a key, or -1. */
  function LastPut(log: seq<Message>, n: nat, key: string): (last: int)
    requires n <= |log|
    ensures last == -1 || (0 <= last < n && log[last].action.Put? && log[last].key == key)
  {
    LastApplied(log, 0, n, NotPuts(log), key)
  }

  predicate IsLast(log: seq<Message>, at: nat, i: nat)
    requires i < at <= |log|
  {
    LastApplied(log, 0, at, {}, log[i].key) == i
  }

  /** That the last event of a key was not applied does no harm: it is a put the snapshot had, and
      nothing older has been applied on top; or a delete of a key that shows nothing, since the last
      event applied to it was a delete, or none was and the snapshot does not have it. */
  predicate Excused(log: seq<Message>, t: Track, i: nat)
    requires t.base <= |log| && t.from <= t.at <= |log| && i < t.at
  {
    var key := log[i].key;
    var last := LastApplied(log, t.from, t.at, t.skipped, key);
    if log[i].action.Put? then i < t.base && last < 0
    else if last >= 0 then !log[last].action.Put? else LastPut(log, t.base, key) < 0
  }

  /** Every key the snapshot was ahead in has been applied since; and wherever the last event of a key
      was not applied, because it was passed over or lies before the snapshot's stamp, no harm is done. */
  ghost predicate CaughtUp(log: seq<Message>, t: Track)
    requires t.base <= |log| && t.from <= t.at <= |log|
  {
    && (forall i | t.at <= i < t.base && log[i].action.Put? ::
          LastApplied(log, t.from, t.at, t.skipped, log[i].key) >= 0)
    && (forall i: nat | i < t.at && (i < t.from || i in t.skipped) && IsLast(log, t.at, i) :: Excused(log, t, i))
  }

  /** What a key shows whose last event is at a position. */
  function ShownAt(log: seq<Message>, position: int, before: Option<Setting>): Option<Setting>
    requires position < |log|
  {
    if position >= 0 then Effect(Some(log[position]), None) else before
  }

  lemma {:induction false} ApplyShows(s: Settings, m: Message, key: string)
    requires !m.action.Unknown?
    ensures Lookup(Apply(s, m), key) == if m.key == key then Effect(Some(m), None) else Lookup(s, key)
  {
  }

  /** A key shows the last event applied to it, or what it showed before. */
  lemma {:induction false} PickedShows(s: Settings, log: seq<Message>, from: nat, at: nat, skipped: set<nat>,
        key: string)
    requires from <= at <= |log| && Known(log)
    ensures Lookup(Replay(s, Picked(log, from, at, skipped)), key)
         == ShownAt(log, LastApplied(log, from, at, skipped, key), Lookup(s, key))
    decreases at
  {
    hide Picked, Apply, Lookup, Effect;
    PickedNone(log, from, skipped);
    if at > from {
      PickedShows(s, log, from, at - 1, skipped, key);
      PickedOne(log, from, at - 1, skipped);
      ReplayOne(s, Picked(log, from, at - 1, skipped), log[at - 1]);
      assert log[at - 1] in log;
      ApplyShows(Replay(s, Picked(log, from, at - 1, skipped)), log[at - 1], key);
    }
  }

  lemma {:induction false} PickedNone(log: seq<Message>, from: nat, skipped: set<nat>)
    requires from <= |log|
    ensures Picked(log, from, from, skipped) == []
  {
  }

  lemma {:induction false} PickedAll(log: seq<Message>, n: nat)
    requires n <= |log|
    ensures Picked(log, 0, n, {}) == log[..n]
    ensures Picked(log, 0, n, NotPuts(log)) == Puts(log[..n])
    decreases n
  {
    if n > 0 {
      PickedAll(log, n - 1);
      assert log[..n][..n - 1] == log[..n - 1];
      assert log[..n] == log[..n - 1] + [log[n - 1]];
    }
  }

  lemma {:induction false} PrefixShows(log: seq<Message>, n: nat, key: string)
    requires n <= |log| && Known(log)
    ensures Lookup(Replay(map[], log[..n]), key) == ShownAt(log, LastApplied(log, 0, n, {}, key), None)
    ensures Lookup(Replay(map[], Puts(log[..n])), key) == ShownAt(log, LastPut(log, n, key), None)
  {
    PickedAll(log, n);
    PickedShows(map[], log, 0, n, {}, key);
    PickedShows(map[], log, 0, n, NotPuts(log), key);
  }

  /** The position of the event a key shows. */
  function ShownPosition(log: seq<Message>, t: Track, key: string): (position: int)
    requires t.base <= |log| && t.from <= t.at <= |log|
    ensures -1 <= position < |log| && (position >= 0 ==> log[position].key == key)
  {
    var last := LastApplied(log, t.from, t.at, t.skipped, key);
    if last >= 0 then last else LastPut(log, t.base, key)
  }

  lemma {:induction false} TrackShows(log: seq<Message>, t: Track, key: string)
    requires Known(log) && t.base <= |log| && t.from <= t.at <= |log|
    ensures Lookup(Replay(Replay(map[], Puts(log[..t.base])), Picked(log, t.from, t.at, t.skipped)), key)
         == ShownAt(log, ShownPosition(log, t, key), None)
  {
    PickedShows(Replay(map[], Puts(log[..t.base])), log, t.from, t.at, t.skipped, key);
    PrefixShows(log, t.base, key);
  }

  predicate Gone(log: seq<Message>, position: int)
    requires position < |log|
  {
    position < 0 || !log[position].action.Put?
  }

  /** The same put, or none at both. */
  predicate SameEvent(log: seq<Message>, i: int, j: int)
    requires i < |log| && j < |log|
  {
    i == j || (Gone(log, i) && Gone(log, j))
  }

  /** A client that is caught up shows of every key the last event before its position. */
  lemma {:induction false} CaughtUpShowsLast(log: seq<Message>, t: Track, key: string)
    requires t.base <= |log| && t.from <= t.at <= |log| && CaughtUp(log, t)
    ensures SameEvent(log, ShownPosition(log, t, key), LastApplied(log, 0, t.at, {}, key))
  {
    hide LastApplied;
    var last, right := LastApplied(log, t.from, t.at, t.skipped, key), LastApplied(log, 0, t.at, {}, key);
    var base := LastPut(log, t.base, key);
    if t.from <= right && right !in t.skipped {
      AppliedIsNotLater(log, t.from, t.at, t.skipped, right);
    }
    if last >= 0 {
      AppliedIsNotLater(log, 0, t.at, {}, last);
      assert right != last ==> IsLast(log, t.at, right) && Excused(log, t, right);
    } else {
      if 0 <= base < t.at {
        AppliedIsNotLater(log, 0, t.at, {}, base);
      }
      if right >= 0 {
        assert IsLast(log, t.at, right) && Excused(log, t, right);
        if log[right].action.Put? {
          AppliedIsNotLater(log, 0, t.base, NotPuts(log), right);
        }
      }
    }
  }

  /** A key the snapshot is ahead in, and not applied since, shows too late an event. */
  lemma {:induction false} SnapshotShowsLater(log: seq<Message>, t: Track, i: nat, key: string)
    requires t.from <= t.at <= i < t.base <= |log| && log[i].key == key && log[i].action.Put?
    requires LastApplied(log, t.from, t.at, t.skipped, key) < 0
    ensures !SameEvent(log, ShownPosition(log, t, key), LastApplied(log, 0, t.at, {}, key))
  {
    hide LastApplied;
    AppliedIsNotLater(log, 0, t.base, NotPuts(log), i);
  }

  /** One that is not shows some key at another event. */
  lemma {:induction false} BehindShowsAnother(log: seq<Message>, t: Track) returns (key: string)
    requires t.base <= |log| && t.from <= t.at <= |log| && !CaughtUp(log, t)
    ensures !SameEvent(log, ShownPosition(log, t, key), LastApplied(log, 0, t.at, {}, key))
  {
    hide LastApplied;
    if i: nat :| t.at <= i < t.base && log[i].action.Put? && LastApplied(log, t.from, t.at, t.skipped, log[i].key) < 0 {
      key := log[i].key;
      SnapshotShowsLater(log, t, i, key);
    } else {
      var i: nat :| i < t.at && (i < t.from || i in t.skipped) && IsLast(log, t.at, i) && !Excused(log, t, i);
      key := log[i].key;
    }
  }

  /** Where the versions of each key's puts ascend, two events show the same only if they are the same. */
  lemma {:induction false} SameIsShown(log: seq<Message>, i: int, j: int, key: string)
    requires Known(log) && -1 <= i < |log| && -1 <= j < |log|
    requires (i >= 0 ==> log[i].key == key) && (j >= 0 ==> log[j].key == key)
    ensures SameEvent(log, i, j) ==> ShownAt(log, i, None) == ShownAt(log, j, None)
    ensures VersionsAscend(log) && ShownAt(log, i, None) == ShownAt(log, j, None) ==> SameEvent(log, i, j)
  {
    if VersionsAscend(log) && !Gone(log, i) && !Gone(log, j) {
      if i < j {
        assert log[i].version < log[j].version;
      } else if j < i {
        assert log[j].version < log[i].version;
      }
    }
  }

  /** Features are the replay of the log up to their position if the client is caught up; and, where
      the versions of each key ascend, only then. */
  lemma {:induction false} MatchIsCaughtUp(log: seq<Message>, t: Track)
    requires Known(log) && t.base <= |log| && t.from <= t.at <= |log|
    ensures var shown := Replay(Replay(map[], Puts(log[..t.base])), Picked(log, t.from, t.at, t.skipped));
            && (CaughtUp(log, t) ==> shown == Replay(map[], log[..t.at]))
            && (VersionsAscend(log) && shown == Replay(map[], log[..t.at]) ==> CaughtUp(log, t))
  {
    hide Picked, Replay, Puts, Known, SameEvent, ShownAt;
    var shown := Replay(Replay(map[], Puts(log[..t.base])), Picked(log, t.from, t.at, t.skipped));
    if CaughtUp(log, t) {
      forall key
        ensures Lookup(shown, key) == Lookup(Replay(map[], log[..t.at]), key)
      {
        TrackShows(log, t, key);
        PrefixShows(log, t.at, key);
        CaughtUpShowsLast(log, t, key);
        SameIsShown(log, ShownPosition(log, t, key), LastApplied(log, 0, t.at, {}, key), key);
      }
      SameSettings(shown, Replay(map[], log[..t.at]));
    } else if VersionsAscend(log) {
      var key := BehindShowsAnother(log, t);
      TrackShows(log, t, key);
      PrefixShows(log, t.at, key);
      SameIsShown(log, ShownPosition(log, t, key), LastApplied(log, 0, t.at, {}, key), key);
    }
  }

  /** A client past its snapshot that has missed nothing is caught up, if what it did not replay had no
      deletes. */
  lemma {:induction false} NothingMissedIsCaughtUp(log: seq<Message>, t: Track)
    requires t.from <= t.base <= t.at <= |log| && t.skipped == {} && PutOnly(log[..t.from])
    ensures CaughtUp(log, t)
  {
    hide LastApplied;
    forall i: nat | i < t.from && IsLast(log, t.at, i)
      ensures Excused(log, t, i)
    {
      assert log[..t.from][i] in log[..t.from];
      var last := LastApplied(log, t.from, t.at, t.skipped, log[i].key);
      if last >= 0 {
        AppliedIsNotLater(log, 0, t.at, {}, last);
      }
    }
  }

  /** Among puts: every event passed over has been overtaken by a later one of its key, or was in the
      snapshot and nothing older of its key has been applied on top. */
  ghost predicate Overtaken(log: seq<Message>, t: Track)
    requires t.base <= |log| && t.from <= t.at <= |log|
  {
    && (forall i | t.at <= i < t.base :: LastApplied(log, t.from, t.at, t.skipped, log[i].key) >= 0)
    && (forall i: nat | i < t.at && i in t.skipped ::
          var last := LastApplied(log, t.from, t.at, t.skipped, log[i].key);
          i < last || (i < t.base && last < 0))
  }

  lemma {:induction false} CaughtUpAmongPuts(log: seq<Message>, t: Track)
    requires t.from <= t.base <= |log| && t.from <= t.at <= |log| && PutOnly(log)
    ensures CaughtUp(log, t) <==> Overtaken(log, t)
  {
    hide LastApplied;
    assert forall i | 0 <= i < |log| :: log[i] in log;
    if CaughtUp(log, t) {
      forall i: nat | i < t.at && i in t.skipped
        ensures var last := LastApplied(log, t.from, t.at, t.skipped, log[i].key);
                i < last || (i < t.base && last < 0)
      {
        SkippedAmongPuts(log, t, i);
      }
    }
    if Overtaken(log, t) {
      forall i: nat | i < t.at && (i < t.from || i in t.skipped) && IsLast(log, t.at, i)
        ensures Excused(log, t, i)
      {
        var last := LastApplied(log, t.from, t.at, t.skipped, log[i].key);
        if last >= 0 {
          AppliedIsNotLater(log, 0, t.at, {}, last);
        }
      }
    }
  }

  lemma {:induction false} SkippedAmongPuts(log: seq<Message>, t: Track, i: nat)
    requires t.from <= t.base <= |log| && t.from <= t.at <= |log| && PutOnly(log) && CaughtUp(log, t)
    requires i < t.at && i in t.skipped
    ensures var last := LastApplied(log, t.from, t.at, t.skipped, log[i].key);
            i < last || (i < t.base && last < 0)
  {
    hide LastApplied;
    var right := LastApplied(log, 0, t.at, {}, log[i].key);
    AppliedIsNotLater(log, 0, t.at, {}, i);
    assert log[right] in log;
    if right < t.from || right in t.skipped {
      assert IsLast(log, t.at, right) && Excused(log, t, right);
    } else {
      AppliedIsNotLater(log, t.from, t.at, t.skipped, right);
    }
  }

  /** In every reachable state the features are the replay of the log up to the client's last
      revision when the client is caught up: the keys in which a stale-stamped snapshot ran ahead
      have been applied since, and no last event of a key that was passed over, or lay before the
      stamp, has left a trace. Where the versions of each short key ascend, exactly then. A client past
      its snapshot that has missed nothing is caught up, unless a delete lay before the stamp. */
  lemma {:induction false} ClientFollowsLog(steps: seq<Step>)
    requires Runs(Initial(), steps) && Exec(Initial(), steps).client.Some?
    ensures var p := Exec(Initial(), steps);
            var c := p.client.value;
            && c.track.from <= c.track.at <= |p.log| && c.track.base <= |p.log|
            && (forall i | i in c.track.skipped :: c.track.from <= i < c.track.at)
            && (CaughtUp(p.log, c.track) ==> Observed(c.mem.features) == Replay(map[], UpTo(p.log, c.mem.lastRev)))
            && (VersionsAscend(p.log) && Observed(c.mem.features) == Replay(map[], UpTo(p.log, c.mem.lastRev)) ==>
                  CaughtUp(p.log, c.track))
            && (c.track.base <= c.track.at && c.track.skipped == {} && PutOnly(p.log[..c.track.from]) ==>
                  CaughtUp(p.log, c.track))
            && (c.track.at == |p.log| && CaughtUp(p.log, c.track) ==> Observed(c.mem.features) == Replay(map[], p.log))
  {
    RunKeepsInv(Initial(), steps);
    var p := Exec(Initial(), steps);
    ProcessFollowsLog(p);
    var t := p.client.value.track;
    if t.base <= t.at && t.skipped == {} && PutOnly(p.log[..t.from]) {
      NothingMissedIsCaughtUp(p.log, t);
    }
  }

  lemma {:induction false} ProcessFollowsLog(p: System)
    requires Inv(p) && p.client.Some?
    ensures var c := p.client.value;
            && c.track.from <= c.track.at <= |p.log| && c.track.base <= |p.log|
            && (forall i | i in c.track.skipped :: c.track.from <= i < c.track.at)
            && (CaughtUp(p.log, c.track) ==> Observed(c.mem.features) == Replay(map[], UpTo(p.log, c.mem.lastRev)))
            && (VersionsAscend(p.log) && Observed(c.mem.features) == Replay(map[], UpTo(p.log, c.mem.lastRev)) ==>
                  CaughtUp(p.log, c.track))
            && (c.track.at == |p.log| && CaughtUp(p.log, c.track) ==> Observed(c.mem.features) == Replay(map[], p.log))
  {
    hide CaughtUp, Picked, Replay, Observed, Puts;
    var c := p.client.value;
    FrontierIsPosition(p.log, c.track.at, c.mem.lastRev);
    MatchIsCaughtUp(p.log, c.track);
    assert p.log[..|p.log|] == p.log;
  }

  // ----- what a fetch shows -----

  /** No key of the first `n` events was put and then deleted for good. */
  ghost predicate NothingComesBack(log: seq<Message>, n: nat)
    requires n <= |log|
  {
    forall i: nat | i < n && !log[i].action.Put? && IsLast(log, n, i) :: LastPut(log, n, log[i].key) < 0
  }

  /** A snapshot shows the log exactly when it brings no deleted key back. */
  lemma {:induction false} SnapshotBringsBack(log: seq<Message>, n: nat)
    requires n <= |log| && Known(log)
    ensures Replay(map[], Puts(log[..n])) == Replay(map[], log[..n]) <==> NothingComesBack(log, n)
  {
    hide Replay, Puts, LastApplied;
    forall key
      ensures Lookup(Replay(map[], log[..n]), key) == ShownAt(log, LastApplied(log, 0, n, {}, key), None)
      ensures Lookup(Replay(map[], Puts(log[..n])), key) == ShownAt(log, LastPut(log, n, key), None)
    {
      PrefixShows(log, n, key);
    }
    if NothingComesBack(log, n) {
      forall key
        ensures Lookup(Replay(map[], log[..n]), key) == Lookup(Replay(map[], Puts(log[..n])), key)
      {
        NotBroughtBack(log, n, key);
      }
      SameSettings(Replay(map[], log[..n]), Replay(map[], Puts(log[..n])));
    }
  }

  lemma {:induction false} NotBroughtBack(log: seq<Message>, n: nat, key: string)
    requires n <= |log| && NothingComesBack(log, n)
    ensures ShownAt(log, LastApplied(log, 0, n, {}, key), None) == ShownAt(log, LastPut(log, n, key), None)
  {
    hide LastApplied;
    var last, put := LastApplied(log, 0, n, {}, key), LastPut(log, n, key);
    if put >= 0 {
      AppliedIsNotLater(log, 0, n, {}, put);
    }
    if last >= 0 {
      assert IsLast(log, n, last);
      if log[last].action.Put? {
        AppliedIsNotLater(log, 0, n, NotPuts(log), last);
      }
    }
  }

  /** Nothing is delivered to the client, and its process goes on. */
  predicate Undelivered(s: Step) {
    !s.Deliver? && !s.Crash?
  }

  /** The position of the last snapshot fetched in a run, or `first`. */
  function LastFetch(first: nat, steps: seq<Step>): nat {
    if steps == [] then first
    else match steps[|steps| - 1]
      case Refetch(_, position) => position
      case _ => LastFetch(first, steps[..|steps| - 1])
  }

  ghost predicate ShowsSnapshot(p: System, position: nat) {
    && p.client.Some? && position <= |p.log|
    && Observed(p.client.value.mem.features) == Replay(map[], Puts(p.log[..position]))
  }

  lemma {:induction false} FetchShows(p: System, s: Step)
    requires Inv(p) && Enabled(p, s) && (s.StartFetched? || s.Refetch?)
    ensures ShowsSnapshot(Next(p, s), s.position)
  {
    hide Picked, Replay, Observed, Frontier, Merge, Puts;
    if s.Refetch? {
      RefetchIsReplace(p, p.client.value.mem, p.client.value.track, s.r, s.position);
    } else {
      assert Fetched(FRESH, s.r).features == Merge(map[], s.r.data);
    }
  }

  lemma {:induction false} UndeliveredKeeps(p: System, s: Step, position: nat)
    requires ShowsSnapshot(p, position) && Enabled(p, s) && Undelivered(s) && !s.Refetch?
    ensures ShowsSnapshot(Next(p, s), position)
  {
    hide Replay, Observed, Puts;
    if s.Publish? {
      assert (p.log + [s.m])[..position] == p.log[..position];
    }
  }

  /** Whatever a client held, after a fetch it shows the puts of the log as of the response. As long as
      no event is delivered to it, as to a client whose every connection is reset, it shows those of
      its last fetch, however it is reset, fetches, reconnects and saves. */
  lemma {:induction false} FetchShowsLog(p: System, s: Step, rest: seq<Step>)
    requires Inv(p) && Enabled(p, s) && (s.StartFetched? || s.Refetch?)
    requires Runs(Next(p, s), rest) && forall x | x in rest :: Undelivered(x)
    ensures ShowsSnapshot(Exec(Next(p, s), rest), LastFetch(s.position, rest))
    ensures var q := Exec(Next(p, s), rest);
            Observed(q.client.value.mem.features) == Replay(map[], q.log[..LastFetch(s.position, rest)])
            <==> NothingComesBack(q.log, LastFetch(s.position, rest))
  {
    hide Enabled, Next, Observed, NothingComesBack, Undelivered;
    StepKeepsInv(p, s);
    ShowsLastFetch(p, s, rest);
    RunKeepsInv(Next(p, s), rest);
    var q := Exec(Next(p, s), rest);
    SnapshotBringsBack(q.log, LastFetch(s.position, rest));
  }

  lemma {:induction false} ShowsLastFetch(p: System, s: Step, rest: seq<Step>)
    requires Inv(p) && Enabled(p, s) && (s.StartFetched? || s.Refetch?)
    requires Runs(Next(p, s), rest) && forall x | x in rest :: Undelivered(x)
    ensures ShowsSnapshot(Exec(Next(p, s), rest), LastFetch(s.position, rest))
  {
    hide Inv, Enabled, Next, ShowsSnapshot, Undelivered;
    if rest == [] {
      FetchShows(p, s);
    } else {
      var most, last := rest[..|rest| - 1], rest[|rest| - 1];
      LastStep(Next(p, s), rest);
      assert last in rest && forall x | x in most :: x in rest;
      ShowsLastFetch(p, s, most);
      var q := Exec(Next(p, s), most);
      StepKeepsInv(p, s);
      RunKeepsInv(Next(p, s), most);
      if last.Refetch? {
        FetchShows(q, last);
      } else {
        UndeliveredKeeps(q, last, LastFetch(s.position, most));
      }
    }
  }

  // ----- the last revision -----

  /** On a running client the last revision falls exactly when a snapshot with a lower stamp is
      fetched. */
  lemma {:induction false} RevisionFallsOnRefetch(p: System, s: Step)
    requires Inv(p) && Enabled(p, s) && p.client.Some? && Next(p, s).client.Some?
    ensures Next(p, s).client.value.mem.lastRev < p.client.value.mem.lastRev
        <==> s.Refetch? && s.r.revision < p.client.value.mem.lastRev
  {
    if s.Deliver? {
      DeliverKeepsInv(p);
    }
  }

  /** Over any run in which the process neither crashes nor refetches it never falls. */
  lemma {:induction false} RevisionNeverFalls(p: System, steps: seq<Step>)
    requires Inv(p) && p.client.Some? && Runs(p, steps)
    requires forall s | s in steps :: !s.Crash? && !s.Refetch?
    ensures Exec(p, steps).client.Some?
    ensures p.client.value.mem.lastRev <= Exec(p, steps).client.value.mem.lastRev
    decreases |steps|
  {
    if steps != [] {
      assert steps[0] in steps;
      StepKeepsInv(p, steps[0]);
      RevisionFallsOnRefetch(p, steps[0]);
      RevisionNeverFalls(Next(p, steps[0]), steps[1..]);
    }
  }

  lemma {:induction false} Then(p: System, s: Step, rest: seq<Step>)
    requires Enabled(p, s) && Runs(Next(p, s), rest)
    ensures Runs(p, [s] + rest) && Exec(p, [s] + rest) == Exec(Next(p, s), rest)
  {
    assert ([s] + rest)[1..] == rest;
  }

  // ----- the snapshot file -----

  /** At the n-th point of the run the client held `s` in memory. */
  ghost predicate HeldAt(p: System, steps: seq<Step>, n: nat, s: Saved) {
    && n <= |steps| && Runs(p, steps[..n])
    && Exec(p, steps[..n]).client.Some? && Exec(p, steps[..n]).client.value.mem.Content() == s
  }

  lemma {:induction false} HeldInTheRun(p: System, steps: seq<Step>, s: Saved) returns (n: nat)
    requires Runs(p, steps) && s in Exec(p, steps).held && s !in p.held
    ensures HeldAt(p, steps, n, s)
    decreases |steps|
  {
    var q := Next(p, steps[0]);
    if s in q.held {
      n := 1;
      assert steps[..1][1..] == [];
    } else {
      var k := HeldInTheRun(q, steps[1..], s);
      n := k + 1;
      assert steps[..n][1..] == steps[1..][..k];
    }
  }

  /** The file always holds a pair of features and revision that the client held in memory at one
      instant of the run: never one part from before an update and the other from after it. */
  lemma {:induction false} FileWasMemory(steps: seq<Step>)
    requires Runs(Initial(), steps) && Exec(Initial(), steps).file.Some?
    ensures exists n :: HeldAt(Initial(), steps, n, Exec(Initial(), steps).file.value)
  {
    RunKeepsInv(Initial(), steps);
    var n := HeldInTheRun(Initial(), steps, Exec(Initial(), steps).file.value);
  }

  predicate SaveFails(s: Step) {
    s == Capture(false) || s == Finish(false)
  }

  lemma {:induction false} NothingLost(p: System, steps: seq<Step>)
    requires Runs(p, steps) && (p.client.Some? ==> !p.client.value.lost)
    requires forall s | s in steps :: !SaveFails(s)
    ensures Exec(p, steps).client.Some? ==> !Exec(p, steps).client.value.lost
    decreases |steps|
  {
    if steps != [] {
      assert steps[0] in steps;
      NothingLost(Next(p, steps[0]), steps[1..]);
    }
  }

  /** Without write errors a client that is not dirty and not saving has exactly its memory in the
      file, however updates, refetches and crashes interleave with the saves. */
  lemma {:induction false} CleanMeansSaved(steps: seq<Step>)
    requires Runs(Initial(), steps) && forall s | s in steps :: !SaveFails(s)
    requires var p := Exec(Initial(), steps);
             p.client.Some? && !p.client.value.mem.dirty && p.client.value.saver.Idle?
    ensures Exec(Initial(), steps).file == Some(Exec(Initial(), steps).client.value.mem.Content())
  {
    RunKeepsInv(Initial(), steps);
    NothingLost(Initial(), steps);
  }

  /** Nothing changes the features of a running client. */
  predicate Quiet(s: Step) {
    !s.Deliver? && !s.Refetch? && !s.Crash?
  }

  /** The dirty flag was cleared before the write: a failed save is not tried again, and the file
      keeps its old content, until the features change. */
  lemma {:induction false} FailedSaveIsForgotten(p: System, steps: seq<Step>)
    requires p.client.Some? && !p.client.value.mem.dirty && p.client.value.saver.Idle? && Runs(p, steps)
    requires forall s | s in steps :: Quiet(s)
    ensures Exec(p, steps).file == p.file
    ensures Exec(p, steps).client.Some? && Exec(p, steps).client.value.mem == p.client.value.mem
    decreases |steps|
  {
    if steps != [] {
      assert steps[0] in steps;
      FailedSaveIsForgotten(Next(p, steps[0]), steps[1..]);
    }
  }

  // ----- failed saves -----

  /** How the process's last attempt to save ended; none if it has not ended one yet. */
  function LastSave(steps: seq<Step>): Option<bool> {
    if steps == [] then None
    else match steps[|steps| - 1]
      case Capture(false) => Some(false)
      case Finish(ok) => Some(ok)
      case StartFetched(_, _) => None
      case StartLoaded => None
      case _ => LastSave(steps[..|steps| - 1])
  }

  /** The number of steps before the last turn of the snapshot loop began. */
  function LastTurn(steps: seq<Step>): (n: nat)
    ensures n <= |steps|
  {
    if steps == [] then 0
    else if steps[|steps| - 1].Clear? then |steps| - 1
    else LastTurn(steps[..|steps| - 1])
  }

  /** What the process knows about its saves, and the file as it was when the last turn began. */
  ghost predicate SavesOk(c: Process, file: Option<Saved>, last: Option<bool>, fileThen: Option<Saved>) {
    && (c.mem.dirty || !c.saver.Idle? ==> !c.lost)
    && (c.saver.Idle? && !c.mem.dirty ==> (c.lost <==> last == Some(false)))
    && (!c.saver.Idle? || last == Some(false) ==> file == fileThen)
  }

  lemma {:induction false} SavesFollowTrace(steps: seq<Step>)
    requires Runs(Initial(), steps)
    ensures Runs(Initial(), steps[..LastTurn(steps)])
    ensures var p := Exec(Initial(), steps);
            p.client.Some? ==>
              SavesOk(p.client.value, p.file, LastSave(steps), Exec(Initial(), steps[..LastTurn(steps)]).file)
  {
    PrefixRuns(Initial(), steps, LastTurn(steps));
    if steps != [] {
      var rest, s := steps[..|steps| - 1], steps[|steps| - 1];
      LastStep(Initial(), steps);
      SavesFollowTrace(rest);
      RunKeepsInv(Initial(), rest);
      assert steps[..LastTurn(rest)] == rest[..LastTurn(rest)];
      SavesFollowStep(Exec(Initial(), rest), s, LastSave(rest), Exec(Initial(), rest[..LastTurn(rest)]).file,
                      LastSave(steps), if s.Clear? then Exec(Initial(), rest).file
                                       else Exec(Initial(), rest[..LastTurn(rest)]).file);
    }
  }

  lemma {:induction false} SavesFollowStep(p: System, s: Step, last: Option<bool>, fileThen: Option<Saved>,
        last': Option<bool>, fileThen': Option<Saved>)
    requires Inv(p) && Enabled(p, s)
    requires p.client.Some? ==> SavesOk(p.client.value, p.file, last, fileThen)
    requires last' == match s {
      case Capture(false) => Some(false)
      case Finish(ok) => Some(ok)
      case StartFetched(_, _) => None
      case StartLoaded => None
      case _ => last
    }
    requires fileThen' == if s.Clear? then p.file else fileThen
    ensures var q := Next(p, s);
            q.client.Some? ==> SavesOk(q.client.value, q.file, last', fileThen')
  {
    if s.Deliver? {
      DeliverMarksFresh(p);
    }
  }

  lemma {:induction false} DeliverMarksFresh(p: System)
    requires Inv(p) && Enabled(p, Deliver)
    ensures Next(p, Deliver).client.value.mem.dirty
  {
    var c := p.client.value;
    DeliverMarksDirty(c.mem, p.log[c.conn.value]);
  }

  /** Over any run, a running client that is neither dirty nor saving has its memory in the file
      exactly when its last attempt to save did not fail, or the file held those features and that
      revision already when the attempt began. */
  lemma {:induction false} CleanIsSaved(steps: seq<Step>)
    requires Runs(Initial(), steps)
    requires var p := Exec(Initial(), steps);
             p.client.Some? && !p.client.value.mem.dirty && p.client.value.saver.Idle?
    ensures Runs(Initial(), steps[..LastTurn(steps)])
    ensures var p := Exec(Initial(), steps);
            p.file == Some(p.client.value.mem.Content())
            <==> || LastSave(steps) != Some(false)
                 || Exec(Initial(), steps[..LastTurn(steps)]).file == Some(p.client.value.mem.Content())
  {
    hide TrackOk, ServerOk;
    SavesFollowTrace(steps);
    RunKeepsInv(Initial(), steps);
  }

  function FailedSave(r: Response): seq<Step> {
    [StartFetched(r, 0)] + ([Clear] + ([Capture(true)] + [Finish(false)]))
  }

  /** A client starts, and its first save fails: the run ends idle and not dirty, and however it goes
      on without a new event, a refetch or a crash, there never is a file. */
  lemma {:induction false} FailedSaveIsNotRepaired(r: Response, more: seq<Step>)
    requires Served(Initial(), r, 0)
    ensures Runs(Initial(), FailedSave(r))
    ensures var p := Exec(Initial(), FailedSave(r));
            && p.client.Some? && !p.client.value.mem.dirty && p.client.value.saver.Idle? && p.file == None
            && (Runs(p, more) && (forall s | s in more :: Quiet(s)) ==>
                  Exec(p, more).client.Some? && Exec(p, more).file == None)
  {
    var p1 := Next(Initial(), StartFetched(r, 0));
    var p2 := Next(p1, Clear);
    var p3 := Next(p2, Capture(true));
    var p4 := Next(p3, Finish(false));
    Then(p3, Finish(false), []);
    Then(p2, Capture(true), [Finish(false)]);
    Then(p1, Clear, [Capture(true)] + [Finish(false)]);
    Then(Initial(), StartFetched(r, 0), [Clear] + ([Capture(true)] + [Finish(false)]));
    if Runs(p4, more) && forall s | s in more :: Quiet(s) {
      FailedSaveIsForgotten(p4, more);
    }
  }
}
