/** The SDK client: a map of features, the last revision it has seen, a dirty flag, and a snapshot
    file to start from when the server cannot be reached. */
module SdkClient {
  import opened Model
  import opened EventLog
  import opened FeatureCache

  /** What the snapshot file holds. */
  datatype Saved = Saved(features: map<string, Flag>, revision: int)

  datatype Memory = Memory(features: map<string, Flag>, lastRev: int, dirty: bool)
  {
    /** What a save would write. */
    function Content(): Saved {
      Saved(features, lastRev)
    }
  }

  /** The body of a snapshot response. */
  datatype Response = Response(data: seq<Flag>, revision: int)

  const FRESH := Memory(map[], 0, false)

  /** What a caller of the SDK can see of the features. */
  function Observed(features: map<string, Flag>): Settings {
    map key | key in features :: features[key].Content()
  }

  function FlagOf(m: Message): Flag {
    Flag("", "", m.key, m.value, m.version, m.revision, m.kind)
  }

  /** One update: stale ones are dropped, an unknown action still moves the revision. */
  function Handled(mem: Memory, m: Message): Memory {
    if m.revision <= mem.lastRev then mem
    else
      Memory(match m.action
             case Delete => mem.features - {m.key}
             case Put => mem.features[m.key := FlagOf(m)]
             case Unknown(_) => mem.features,
             m.revision, true)
  }

  function HandledAll(mem: Memory, messages: seq<Message>): Memory {
    if messages == [] then mem
    else Handled(HandledAll(mem, messages[..|messages| - 1]), messages[|messages| - 1])
  }

  /** A snapshot response is merged into the features, and its revision taken over as it is. */
  function Fetched(mem: Memory, r: Response): Memory {
    Memory(Merge(mem.features, r.data), r.revision, true)
  }

  /** What the stream can deliver; data that does not parse is skipped. */
  datatype StreamEvent = Update(message: Message) | Ping | Garbage | Reset

  /** One connection until it ends or is reset; a reset refetches the snapshot, if it can. */
  function Consumed(mem: Memory, events: seq<StreamEvent>, response: Option<Response>): Memory
    decreases |events|
  {
    if events == [] then mem
    else match events[0]
      case Update(m) => Consumed(Handled(mem, m), events[1..], response)
      case Reset => if response.Some? then Fetched(mem, response.value) else mem
      case _ => Consumed(mem, events[1..], response)
  }

  lemma {:induction false} HandledInTwo(mem: Memory, a: seq<Message>, b: seq<Message>)
    ensures HandledAll(mem, a + b) == HandledAll(HandledAll(mem, a), b)
  {
    if b == [] {
      assert a + b == a;
    } else {
      assert (a + b)[..|a + b| - 1] == a + b[..|b| - 1];
      HandledInTwo(mem, a, b[..|b| - 1]);
    }
  }

  // ----- what a connection brings -----

  /** The updates that arrive before the first reset. */
  function Updates(events: seq<StreamEvent>): seq<Message>
    decreases |events|
  {
    if events == [] then []
    else match events[0]
      case Update(m) => [m] + Updates(events[1..])
      case Reset => []
      case _ => Updates(events[1..])
  }

  /** Event by event: an update counts where it arrives, a ping or garbage does not, and after a reset
      nothing does. */
  lemma {:induction false} UpdatesInOrder(before: seq<StreamEvent>, e: StreamEvent, after: seq<StreamEvent>)
    requires Reset !in before
    ensures Updates(before + ([e] + after))
         == Updates(before) + match e { case Update(m) => [m] + Updates(after) case Reset => [] case _ => Updates(after) }
    decreases |before|
  {
    if before == [] {
      assert before + ([e] + after) == [e] + after;
      assert ([e] + after)[1..] == after;
    } else {
      assert (before + ([e] + after))[1..] == before[1..] + ([e] + after);
      assert before[0] in before && forall x | x in before[1..] :: x in before;
      UpdatesInOrder(before[1..], e, after);
    }
  }

  /** The updates are applied in order, and a reset refetches on top of them, if it can. */
  lemma {:induction false} ConsumedIsHandled(mem: Memory, events: seq<StreamEvent>, response: Option<Response>)
    ensures Consumed(mem, events, response)
         == var handled := HandledAll(mem, Updates(events));
            if Reset in events && response.Some? then Fetched(handled, response.value) else handled
    decreases |events|
  {
    hide Handled, Fetched;
    if events != [] {
      assert events == [events[0]] + events[1..];
      match events[0] {
        case Update(m) =>
          ConsumedIsHandled(Handled(mem, m), events[1..], response);
          HandledInTwo(mem, [m], Updates(events[1..]));
          assert [m][..0] == [];
        case Reset =>
        case _ => ConsumedIsHandled(mem, events[1..], response);
      }
    }
  }

  class MizuClient {
    var features: map<string, Flag>
    var lastRev: int
    var isDirty: bool
    var file: Option<Saved>  // the snapshot file, which outlives the process

    ghost function State(): Memory
      reads this
    {
      Memory(features, lastRev, isDirty)
    }

    constructor (file: Option<Saved>)
      ensures State() == FRESH && this.file == file
    {
      features, lastRev, isDirty := map[], 0, false;
      this.file := file;
    }

    method HandleUpdate(msg: Message)
      modifies this
      ensures State() == Handled(old(State()), msg) && file == old(file)
      ensures msg.revision <= old(lastRev) ==> State() == old(State())
      ensures msg.revision > old(lastRev) ==> lastRev == msg.revision && isDirty
      ensures msg.revision > old(lastRev) && msg.action.Put? ==>
                && features.Keys == old(features).Keys + {msg.key} && features[msg.key].Content() == msg.Content()
                && forall key | key in old(features) && key != msg.key :: features[key] == old(features)[key]
      ensures msg.revision > old(lastRev) && msg.action.Delete? ==> features == old(features) - {msg.key}
      ensures msg.action.Unknown? ==> features == old(features)
    {
      if msg.revision <= lastRev {
        return;
      }
      match msg.action {
        case Delete => features := features - {msg.key};
        case Put => features := features[msg.key := Flag("", "", msg.key, msg.value, msg.version, msg.revision, msg.kind)];
        case Unknown(_) =>
      }
      lastRev := msg.revision;
      isDirty := true;
    }

    method FetchAll(response: Option<Response>) returns (ok: bool)
      modifies this
      ensures ok == response.Some? && file == old(file)
      ensures State() == if ok then Fetched(old(State()), response.value) else old(State())
    {
      if response.None? {
        return false;
      }
      var data := response.value.data;
      for i := 0 to |data|
        invariant features == Merge(old(features), data[..i])
        invariant lastRev == old(lastRev) && isDirty == old(isDirty) && file == old(file)
      {
        assert data[..i + 1][..i] == data[..i];
        features := features[data[i].key := data[i]];
      }
      assert data[..|data|] == data;
      lastRev := response.value.revision;
      isDirty := true;
      ok := true;
    }

    /** The dirty flag is left alone. */
    method LoadSnapshot(readable: bool) returns (ok: bool)
      modifies this
      ensures ok == (readable && file.Some?) && file == old(file)
      ensures State() == if ok then Memory(file.value.features, file.value.revision, old(isDirty)) else old(State())
    {
      if !readable || file.None? {
        return false;
      }
      features, lastRev := file.value.features, file.value.revision;
      ok := true;
    }

    /** The server first, the file if that fails. */
    method Start(response: Option<Response>, readable: bool) returns (ok: bool)
      modifies this
      ensures file == old(file)
      ensures ok <==> response.Some? || (readable && file.Some?)
      ensures State() == if response.Some? then Fetched(old(State()), response.value)
                         else if ok then Memory(file.value.features, file.value.revision, old(isDirty))
                         else old(State())
    {
      ok := FetchAll(response);
      if !ok {
        ok := LoadSnapshot(readable);
      }
    }

    /** One connection of the watch loop. */
    method Watch(events: seq<StreamEvent>, response: Option<Response>)
      modifies this
      ensures State() == Consumed(old(State()), events, response) && file == old(file)
      ensures var handled := HandledAll(old(State()), Updates(events));
              State() == if Reset in events && response.Some? then Fetched(handled, response.value) else handled
    {
      ConsumedIsHandled(State(), events, response);
      for i := 0 to |events|
        invariant Consumed(State(), events[i..], response) == Consumed(old(State()), events, response)
        invariant file == old(file)
      {
        assert events[i..][1..] == events[i + 1..];
        match events[i] {
          case Reset =>
            var _ := FetchAll(response);
            return;
          case Update(msg) => HandleUpdate(msg);
          case _ =>
        }
      }
    }

    /** One turn of the snapshot loop: the flag is cleared, the features are captured, the file is
        written aside and renamed. Updates arrive between clearing and capturing, and between
        capturing and renaming. */
    method SnapshotTurn(before: seq<Message>, after: seq<Message>, marshals: bool, writes: bool, renames: bool)
      modifies this
      ensures var cleared := old(State()).(dirty := false);
              if !old(isDirty) then State() == old(State()) && file == old(file)
              else
                && State() == HandledAll(HandledAll(cleared, before), after)
                && file == if marshals && writes && renames then Some(HandledAll(cleared, before).Content()) else old(file)
    {
      if !isDirty {
        return;
      }
      isDirty := false;
      HandleAll(before);
      var data := Saved(features, lastRev);
      HandleAll(after);
      if !marshals {
        return;
      }
      if !writes {
        return;
      }
      if renames {
        file := Some(data);
      }
    }

    method HandleAll(messages: seq<Message>)
      modifies this
      ensures State() == HandledAll(old(State()), messages) && file == old(file)
    {
      for i := 0 to |messages|
        invariant State() == HandledAll(old(State()), messages[..i]) && file == old(file)
      {
        assert messages[..i + 1][..i] == messages[..i];
        HandleUpdate(messages[i]);
      }
      assert messages[..|messages|] == messages;
    }
  }

  // ----- what callers observe -----

  /** An update that is not stale has on the observed features the effect of its message. */
  lemma {:induction false} HandledApplies(mem: Memory, m: Message)
    requires m.revision > mem.lastRev
    ensures Observed(Handled(mem, m).features) == Apply(Observed(mem.features), m)
  {
  }

  lemma {:induction false} MergeIsSum(into: map<string, Flag>, flags: seq<Flag>)
    ensures Merge(into, flags) == into + Merge(map[], flags)
  {
    if flags != [] {
      MergeIsSum(into, flags[..|flags| - 1]);
    }
  }

  /** Merging is replacing exactly when the features hold no key the snapshot lacks: a flag that
      was deleted on the server stays. */
  lemma {:induction false} MergeIsReplace(mem: Memory, r: Response)
    ensures Observed(Fetched(mem, r).features) == Observed(Merge(map[], r.data))
        <==> mem.features.Keys <= Merge(map[], r.data).Keys
  {
    var data := Merge(map[], r.data);
    MergeIsSum(mem.features, r.data);
    assert Observed(Fetched(mem, r).features).Keys == mem.features.Keys + data.Keys;
    assert Observed(data).Keys == data.Keys;
  }
}
