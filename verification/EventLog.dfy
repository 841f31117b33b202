/** The etcd event log as every reader sees it: filters by scope and revision, and
    the replay of a log into a map of settings. */
module EventLog {
  import opened Model

  /** Revisions are unique and ascending: every transaction in the repository puts one key. */
  ghost predicate Ascending(log: seq<Message>) {
    forall i, j | 0 <= i < j < |log| :: log[i].revision < log[j].revision
  }

  ghost predicate NonDecreasing(log: seq<Message>) {
    forall i, j | 0 <= i < j < |log| :: log[i].revision <= log[j].revision
  }

  /** The messages newer than `rev`, in order. */
  function Since(log: seq<Message>, rev: int): seq<Message> {
    if log == [] then []
    else
      var rest, m := Since(log[..|log| - 1], rev), log[|log| - 1];
      if m.revision > rev then rest + [m] else rest
  }

  /** The messages of a scope newer than `rev`, in order. */
  function Select(log: seq<Message>, scope: Scope, rev: int): seq<Message> {
    if log == [] then []
    else
      var rest, m := Select(log[..|log| - 1], scope, rev), log[|log| - 1];
      if scope.Wants(m) && m.revision > rev then rest + [m] else rest
  }

  lemma {:induction false} SelectConcat(a: seq<Message>, b: seq<Message>, scope: Scope, rev: int)
    ensures Select(a + b, scope, rev) == Select(a, scope, rev) + Select(b, scope, rev)
  {
    if b == [] {
      assert a + b == a;
    } else {
      assert (a + b)[..|a + b| - 1] == a + b[..|b| - 1];
      SelectConcat(a, b[..|b| - 1], scope, rev);
    }
  }

  lemma {:induction false} SinceConcat(a: seq<Message>, b: seq<Message>, rev: int)
    ensures Since(a + b, rev) == Since(a, rev) + Since(b, rev)
  {
    if b == [] {
      assert a + b == a;
    } else {
      assert (a + b)[..|a + b| - 1] == a + b[..|b| - 1];
      SinceConcat(a, b[..|b| - 1], rev);
    }
  }

  lemma {:induction false} SinceNothing(log: seq<Message>, rev: int)
    requires forall i | 0 <= i < |log| :: log[i].revision <= rev
    ensures Since(log, rev) == []
  {
    if log != [] {
      SinceNothing(log[..|log| - 1], rev);
    }
  }

  lemma {:induction false} SinceEverything(log: seq<Message>, rev: int)
    requires forall i | 0 <= i < |log| :: log[i].revision > rev
    ensures Since(log, rev) == log
  {
    if log != [] {
      SinceEverything(log[..|log| - 1], rev);
      assert log == log[..|log| - 1] + [log[|log| - 1]];
    }
  }

  /** The messages of a scope, in order, whatever their revision. */
  function Wanted(messages: seq<Message>, scope: Scope): seq<Message> {
    if messages == [] then []
    else
      var rest, m := Wanted(messages[..|messages| - 1], scope), messages[|messages| - 1];
      if scope.Wants(m) then rest + [m] else rest
  }

  /** Filtering the newer messages by scope gives the selection by scope and revision. */
  lemma {:induction false} WantedOfSince(log: seq<Message>, scope: Scope, rev: int)
    ensures Wanted(Since(log, rev), scope) == Select(log, scope, rev)
  {
    if log != [] {
      var rest, m := log[..|log| - 1], log[|log| - 1];
      WantedOfSince(rest, scope, rev);
      if m.revision > rev {
        assert (Since(rest, rev) + [m])[..|Since(rest, rev)|] == Since(rest, rev);
      }
    }
  }

  lemma {:induction false} WantedConcat(a: seq<Message>, b: seq<Message>, scope: Scope)
    ensures Wanted(a + b, scope) == Wanted(a, scope) + Wanted(b, scope)
  {
    if b == [] {
      assert a + b == a;
    } else {
      assert (a + b)[..|a + b| - 1] == a + b[..|b| - 1];
      WantedConcat(a, b[..|b| - 1], scope);
    }
  }

  lemma {:induction false} WantedSound(log: seq<Message>, scope: Scope)
    ensures forall m | m in Wanted(log, scope) :: m in log && scope.Wants(m)
  {
    if log != [] {
      WantedSound(log[..|log| - 1], scope);
    }
  }

  lemma {:induction false} SelectOne(m: Message, scope: Scope, rev: int)
    ensures Select([m], scope, rev) == if scope.Wants(m) && m.revision > rev then [m] else []
  {
    assert [m][..0] == [];
  }

  /** Raising the threshold below everything selected selects the same messages. */
  lemma {:induction false} SelectRaise(log: seq<Message>, scope: Scope, low: int, high: int)
    requires low <= high
    requires forall m | m in log && scope.Wants(m) && m.revision > low :: m.revision > high
    ensures Select(log, scope, high) == Select(log, scope, low)
  {
    if log != [] {
      assert forall m | m in log[..|log| - 1] :: m in log;
      SelectRaise(log[..|log| - 1], scope, low, high);
    }
  }

  /** Everything selected is a wanted message of the log newer than the revision. */
  lemma {:induction false} SelectSound(log: seq<Message>, scope: Scope, rev: int)
    ensures forall m | m in Select(log, scope, rev) :: m in log && scope.Wants(m) && m.revision > rev
  {
    if log != [] {
      SelectSound(log[..|log| - 1], scope, rev);
    }
  }

  lemma {:induction false} SelectComplete(log: seq<Message>, scope: Scope, rev: int, m: Message)
    requires m in log && scope.Wants(m) && m.revision > rev
    ensures m in Select(log, scope, rev)
  {
    if m != log[|log| - 1] {
      SelectComplete(log[..|log| - 1], scope, rev, m);
    }
  }

  lemma {:induction false} SelectNothing(log: seq<Message>, scope: Scope, rev: int)
    requires forall m | m in log :: !scope.Wants(m) || m.revision <= rev
    ensures Select(log, scope, rev) == []
  {
    if log != [] {
      SelectNothing(log[..|log| - 1], scope, rev);
    }
  }

  lemma {:induction false} SelectAscending(log: seq<Message>, scope: Scope, rev: int)
    requires Ascending(log)
    ensures Ascending(Select(log, scope, rev))
  {
    if log != [] {
      var rest := log[..|log| - 1];
      SelectAscending(rest, scope, rev);
      SelectSound(rest, scope, rev);
      forall i | 0 <= i < |Select(rest, scope, rev)|
        ensures Select(rest, scope, rev)[i].revision < log[|log| - 1].revision
      {
        assert Select(rest, scope, rev)[i] in rest;
      }
    }
  }

  /** A selection grows by appending when the log does. */
  lemma {:induction false} SelectExtends(log: seq<Message>, i: nat, j: nat, scope: Scope, rev: int)
    requires i <= j <= |log|
    ensures Select(log[..j], scope, rev) == Select(log[..i], scope, rev) + Select(log[i..j], scope, rev)
  {
    assert log[..j] == log[..i] + log[i..j];
    SelectConcat(log[..i], log[i..j], scope, rev);
  }

  // ----- replay -----

  /** A reader's map from short feature keys to what it observes of them. */
  type Settings = map<string, Setting>

  function Lookup(s: Settings, key: string): Option<Setting> {
    if key in s then Some(s[key]) else None
  }

  /** The effect of one message, as the SDK applies it. */
  function Apply(s: Settings, m: Message): Settings {
    match m.action
    case Put => s[m.key := m.Content()]
    case Delete => s - {m.key}
    case Unknown(_) => s
  }

  function Replay(s: Settings, log: seq<Message>): Settings {
    if log == [] then s else Apply(Replay(s, log[..|log| - 1]), log[|log| - 1])
  }

  lemma {:induction false} ReplayOne(s: Settings, log: seq<Message>, m: Message)
    ensures Replay(s, log + [m]) == Apply(Replay(s, log), m)
  {
    assert (log + [m])[..|log|] == log;
  }

  /** The last message of the log that changes `key`. */
  function LastChange(log: seq<Message>, key: string): Option<Message> {
    if log == [] then None
    else if log[|log| - 1].key == key && !log[|log| - 1].action.Unknown? then Some(log[|log| - 1])
    else LastChange(log[..|log| - 1], key)
  }

  function Effect(change: Option<Message>, before: Option<Setting>): Option<Setting> {
    match change
    case None => before
    case Some(m) => if m.action.Put? then Some(m.Content()) else None
  }

  /** After a replay every key shows its last change, or what it showed before. */
  lemma {:induction false} ReplayIsLastChange(s: Settings, log: seq<Message>, key: string)
    ensures Lookup(Replay(s, log), key) == Effect(LastChange(log, key), Lookup(s, key))
  {
    if log != [] {
      ReplayIsLastChange(s, log[..|log| - 1], key);
    }
  }

  lemma {:induction false} SameSettings(a: Settings, b: Settings)
    requires forall key :: Lookup(a, key) == Lookup(b, key)
    ensures a == b
  {
    forall key
      ensures key in a <==> key in b
      ensures key in a ==> a[key] == b[key]
    {
      assert Lookup(a, key) == Lookup(b, key);
    }
  }

  lemma {:induction false} ReplayConcat(s: Settings, a: seq<Message>, b: seq<Message>)
    ensures Replay(s, a + b) == Replay(Replay(s, a), b)
  {
    if b == [] {
      assert a + b == a;
    } else {
      assert (a + b)[..|a + b| - 1] == a + b[..|b| - 1];
      ReplayConcat(s, a, b[..|b| - 1]);
    }
  }

  /** Replaying a stretch of the log a second time changes nothing. */
  lemma {:induction false} ReplayTwice(s: Settings, log: seq<Message>)
    ensures Replay(Replay(s, log), log) == Replay(s, log)
  {
    forall key
      ensures Lookup(Replay(Replay(s, log), log), key) == Lookup(Replay(s, log), key)
    {
      ReplayIsLastChange(s, log, key);
      ReplayIsLastChange(Replay(s, log), log, key);
    }
    SameSettings(Replay(Replay(s, log), log), Replay(s, log));
  }

  /** Bootstrap from a stale stamp: data taken at position `base`, replayed again from the
      earlier position `from`, is exact from the moment the replay passes `base`. */
  lemma {:induction false} StaleStampIsSafe(log: seq<Message>, from: nat, base: nat, upTo: nat)
    requires from <= base <= upTo <= |log|
    ensures Replay(Replay(map[], log[..base]), log[from..upTo]) == Replay(map[], log[..upTo])
  {
    var start := Replay(map[], log[..from]);
    assert log[..base] == log[..from] + log[from..base];
    ReplayConcat(map[], log[..from], log[from..base]);
    assert log[from..upTo] == log[from..base] + log[base..upTo];
    ReplayConcat(Replay(map[], log[..base]), log[from..base], log[base..upTo]);
    ReplayTwice(start, log[from..base]);
    assert log[..upTo] == log[..base] + log[base..upTo];
    ReplayConcat(map[], log[..base], log[base..upTo]);
  }

  /** Before that moment every key shows its value either at the replay position or at
      the snapshot position; nothing else can be observed. */
  lemma {:induction false} StaleStampShowsOldOrSnapshot(log: seq<Message>, from: nat, base: nat, upTo: nat, key: string)
    requires from <= upTo <= base <= |log|
    ensures var seen := Lookup(Replay(Replay(map[], log[..base]), log[from..upTo]), key);
            || (LastChange(log[from..upTo], key).Some? && seen == Lookup(Replay(map[], log[..upTo]), key))
            || (LastChange(log[from..upTo], key).None? && seen == Lookup(Replay(map[], log[..base]), key))
  {
    ReplayIsLastChange(Replay(map[], log[..base]), log[from..upTo], key);
    assert log[..upTo] == log[..from] + log[from..upTo];
    ReplayConcat(map[], log[..from], log[from..upTo]);
    ReplayIsLastChange(Replay(map[], log[..from]), log[from..upTo], key);
  }

  ghost predicate PutOnly(log: seq<Message>) {
    forall m | m in log :: m.action == Put
  }

  /** The puts of a log, in order. */
  function Puts(log: seq<Message>): seq<Message> {
    if log == [] then []
    else
      var rest, m := Puts(log[..|log| - 1]), log[|log| - 1];
      if m.action.Put? then rest + [m] else rest
  }

  lemma {:induction false} PutsMember(log: seq<Message>, m: Message)
    ensures m in Puts(log) <==> m in log && m.action.Put?
  {
    if log != [] {
      PutsMember(log[..|log| - 1], m);
      assert log == log[..|log| - 1] + [log[|log| - 1]];
    }
  }

  lemma {:induction false} PutsOfPuts(log: seq<Message>)
    requires PutOnly(log)
    ensures Puts(log) == log
  {
    if log != [] {
      PutsOfPuts(log[..|log| - 1]);
      assert log == log[..|log| - 1] + [log[|log| - 1]];
    }
  }

  lemma {:induction false} PutsConcat(a: seq<Message>, b: seq<Message>)
    ensures Puts(a + b) == Puts(a) + Puts(b)
  {
    if b == [] {
      assert a + b == a;
    } else {
      assert (a + b)[..|a + b| - 1] == a + b[..|b| - 1];
      PutsConcat(a, b[..|b| - 1]);
    }
  }

  /** Under a put-only log no key ever disappears. */
  lemma {:induction false} PutOnlyKeysGrow(s: Settings, log: seq<Message>)
    requires PutOnly(log)
    ensures s.Keys <= Replay(s, log).Keys
    ensures forall m | m in log :: m.key in Replay(s, log)
  {
    if log != [] {
      PutOnlyKeysGrow(s, log[..|log| - 1]);
    }
  }
}
