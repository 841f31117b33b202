/** One SSE stream: the replayed history followed by the live channel, joined by the
    highest revision written so far. */
module StreamHandler {
  import opened Model
  import opened EventLog
  import RevisionBuffer

  /** What a stream has written, and the revision it filters live messages by. */
  datatype Progress = Progress(maxSentRev: int, written: seq<Message>, reset: bool)

  function Opened(lastRev: int): Progress {
    Progress(lastRev, [], false)
  }

  /** After the history: a reset event, or the messages of the scope. */
  function Replayed(lastRev: int, scope: Scope, history: Option<seq<Message>>): Progress {
    match history
    case None => Progress(lastRev, [], true)
    case Some(messages) =>
      var wanted := Wanted(messages, scope);
      Progress(if wanted == [] then lastRev else wanted[|wanted| - 1].revision, wanted, false)
  }

  /** After one message of the live channel. */
  function Took(p: Progress, scope: Scope, m: Message): Progress {
    if m.IsPing() || !scope.Wants(m) || m.revision <= p.maxSentRev then p
    else p.(maxSentRev := m.revision, written := p.written + [m])
  }

  function TookAll(p: Progress, scope: Scope, live: seq<Message>): Progress {
    if live == [] then p else Took(TookAll(p, scope, live[..|live| - 1]), scope, live[|live| - 1])
  }

  /** A stream must name an environment and at least one namespace. */
  predicate Admitted(scope: Scope) {
    scope.env != "" && scope.namespaces != {}
  }

  /** The handler, reading the ring of recent messages and then what its channel yields. */
  method WatchFeature(ring: RevisionBuffer.Ring, scope: Scope, lastRev: int, live: seq<Message>)
    returns (p: Option<Progress>)
    requires ring.Valid() && NonDecreasing(ring.log)
    ensures p.Some? <==> Admitted(scope)
    ensures p.Some? ==>
              p.value == TookAll(
                           Replayed(lastRev, scope, RevisionBuffer.Compensation(ring.size, ring.log, lastRev)),
                           scope, live)
  {
    if scope.env == "" || scope.namespaces == {} {
      return None;
    }
    var messages, ok := ring.GetSince(lastRev);
    var now := Progress(lastRev, [], !ok);
    if ok {
      now := ReplayHistory(scope, lastRev, messages);
    }
    ghost var start := now;
    for i := 0 to |live|
      invariant now == TookAll(start, scope, live[..i])
    {
      var m := live[i];
      assert live[..i + 1][..i] == live[..i];
      if m.IsPing() {
        continue;
      }
      if m.env != scope.env || m.namespace !in scope.namespaces {
        continue;
      }
      if m.revision <= now.maxSentRev {
        continue;
      }
      now := now.(written := now.written + [m], maxSentRev := m.revision);
    }
    assert live[..|live|] == live;
    p := Some(now);
  }

  method ReplayHistory(scope: Scope, lastRev: int, messages: seq<Message>) returns (now: Progress)
    ensures now == Replayed(lastRev, scope, Some(messages))
  {
    now := Opened(lastRev);
    for i := 0 to |messages|
      invariant now == Replayed(lastRev, scope, Some(messages[..i]))
    {
      var m := messages[i];
      assert messages[..i + 1][..i] == messages[..i];
      if m.env != scope.env || m.namespace !in scope.namespaces {
        continue;
      }
      now := now.(written := now.written + [m], maxSentRev := m.revision);
    }
    assert messages[..|messages|] == messages;
  }
}
