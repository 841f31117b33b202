/** What a stretch of the log does to a client: the messages of one connection applied in order, as a
    replay and as steps of the client model. */
module ClientStream {
  import opened Model
  import opened EventLog
  import opened SdkClient
  import Client = ClientSystem

  // ----- what a stream does to the features -----

  /** Fresh updates in order are replayed one by one. */
  lemma {:induction false} HandledAllIsReplay(mem: Memory, messages: seq<Message>)
    requires Ascending(messages) && forall i | 0 <= i < |messages| :: messages[i].revision > mem.lastRev
    ensures Observed(HandledAll(mem, messages).features) == Replay(Observed(mem.features), messages)
    ensures HandledAll(mem, messages).lastRev == if messages == [] then mem.lastRev else messages[|messages| - 1].revision
  {
    if messages != [] {
      HandledAllIsReplay(mem, messages[..|messages| - 1]);
      HandledApplies(HandledAll(mem, messages[..|messages| - 1]), messages[|messages| - 1]);
    }
  }

  lemma {:induction false} WantedAscending(log: seq<Message>, scope: Scope)
    requires Ascending(log)
    ensures Ascending(Wanted(log, scope))
  {
    if log != [] {
      var rest := log[..|log| - 1];
      WantedAscending(rest, scope);
      WantedSound(rest, scope);
      assert forall i | 0 <= i < |Wanted(rest, scope)| :: Wanted(rest, scope)[i] in rest;
    }
  }

  /** What is newer than a revision is what lies behind its position. */
  lemma {:induction false} SelectIsSuffix(log: seq<Message>, scope: Scope, rev: int)
    requires Ascending(log)
    ensures Client.Position(Wanted(log, scope), rev) <= |Wanted(log, scope)|
    ensures Select(log, scope, rev) == Wanted(log, scope)[Client.Position(Wanted(log, scope), rev)..]
  {
    if log != [] {
      var rest, m := log[..|log| - 1], log[|log| - 1];
      SelectIsSuffix(rest, scope, rev);
      if scope.Wants(m) {
        assert Wanted(log, scope)[..|Wanted(rest, scope)|] == Wanted(rest, scope);
        if m.revision <= rev {
          assert forall x | x in rest :: x.revision < m.revision;
          SelectNothing(rest, scope, rev);
        }
      }
    }
  }

  /** The features agree with a log at the client's last revision. */
  ghost predicate Agrees(mem: Memory, log: seq<Message>) {
    Observed(mem.features) == Replay(map[], Client.UpTo(log, mem.lastRev))
  }

  lemma {:induction false} StretchMovesPosition(log: seq<Message>, rev: int, n: nat)
    requires Ascending(log) && Client.Position(log, rev) + n <= |log|
    ensures var at := Client.Position(log, rev);
            var stretch := log[at..at + n];
            && Ascending(stretch) && (forall i | 0 <= i < n :: stretch[i].revision > rev)
            && Client.Position(log, if stretch == [] then rev else stretch[n - 1].revision) == at + n
  {
    var at := Client.Position(log, rev);
    Client.PositionIsFrontier(log, rev);
    if n > 0 {
      Client.FrontierIsPosition(log, at + n, log[at + n - 1].revision);
    }
  }

  /** Feeding the client the next stretch of the log keeps it in agreement. */
  lemma {:induction false} StretchKeepsAgreement(mem: Memory, log: seq<Message>, n: nat)
    requires Ascending(log) && Agrees(mem, log) && Client.Position(log, mem.lastRev) + n <= |log|
    ensures var at := Client.Position(log, mem.lastRev);
            var mem' := HandledAll(mem, log[at..at + n]);
            Agrees(mem', log) && Observed(mem'.features) == Replay(map[], log[..at + n])
  {
    hide Observed, Replay, HandledAll, Client.Position;
    var at := Client.Position(log, mem.lastRev);
    var stretch := log[at..at + n];
    StretchMovesPosition(log, mem.lastRev, n);
    assert |stretch| == n;
    HandledAllIsReplay(mem, stretch);
    assert log[..at + n] == log[..at] + stretch;
    ReplayConcat(map[], log[..at], stretch);
  }

  /** A client that agrees with its scope's events keeps agreeing when it is fed a prefix of those
      newer than its last revision. */
  lemma {:induction false} PrefixKeepsAgreement(mem: Memory, log: seq<Message>, scope: Scope, written: seq<Message>)
    requires Ascending(log) && Agrees(mem, Wanted(log, scope)) && written <= Select(log, scope, mem.lastRev)
    ensures Agrees(HandledAll(mem, written), Wanted(log, scope))
    ensures written == Select(log, scope, mem.lastRev) ==>
              Observed(HandledAll(mem, written).features) == Replay(map[], Wanted(log, scope))
  {
    hide Agrees, Ascending, HandledAll, Observed, Replay, Wanted, Select;
    var own := Wanted(log, scope);
    var at := Client.Position(own, mem.lastRev);
    SelectIsSuffix(log, scope, mem.lastRev);
    WantedAscending(log, scope);
    assert written == own[at..at + |written|];
    StretchKeepsAgreement(mem, own, |written|);
    assert own[..|own|] == own;
  }

  // ----- walks of the client model -----

  function Skips(n: nat): seq<Client.Step> {
    if n == 0 then [] else [Client.Skip] + Skips(n - 1)
  }

  function Delivers(n: nat): seq<Client.Step> {
    if n == 0 then [] else [Client.Deliver] + Delivers(n - 1)
  }

  /** Some events passed over, and some delivered. */
  function Leg(over: nat, taken: nat): seq<Client.Step> {
    Skips(over) + Delivers(taken)
  }

  /** `first` events passed over, `early` delivered, `second` passed over, `late` delivered. */
  function Walk(first: nat, early: nat, second: nat, late: nat): seq<Client.Step> {
    [Client.Connect] + (Leg(first, early) + Leg(second, late))
  }

  lemma {:induction false} RunsConcat(p: Client.System, a: seq<Client.Step>, b: seq<Client.Step>)
    requires Client.Runs(p, a) && Client.Runs(Client.Exec(p, a), b)
    ensures Client.Runs(p, a + b) && Client.Exec(p, a + b) == Client.Exec(Client.Exec(p, a), b)
    decreases |a|
  {
    if a == [] {
      assert a + b == b;
    } else {
      assert (a + b)[1..] == a[1..] + b;
      RunsConcat(Client.Next(p, a[0]), a[1..], b);
    }
  }

  /** The running client with its connection at `position`. */
  ghost predicate ConnectedAt(p: Client.System, mem: Memory, position: nat) {
    && Client.Inv(p) && p.client.Some?
    && p.client.value.mem == mem && p.client.value.conn == Some(position) && position <= p.cached
  }

  ghost predicate SameServer(p: Client.System, q: Client.System) {
    q.log == p.log && q.cached == p.cached && q.head == p.head
  }

  lemma {:induction false} SkipOne(p: Client.System, mem: Memory, position: nat)
    requires ConnectedAt(p, mem, position) && position < p.cached
    ensures Client.Enabled(p, Client.Skip)
    ensures ConnectedAt(Client.Next(p, Client.Skip), mem, position + 1) && SameServer(p, Client.Next(p, Client.Skip))
  {
    Client.StepKeepsInv(p, Client.Skip);
    hide Client.Inv;
  }

  lemma {:induction false} DeliverOne(p: Client.System, mem: Memory, position: nat)
    requires ConnectedAt(p, mem, position) && position < p.cached <= |p.log|
    ensures Client.Enabled(p, Client.Deliver)
    ensures var q := Client.Next(p, Client.Deliver);
            ConnectedAt(q, Handled(mem, p.log[position]), position + 1) && SameServer(p, q)
  {
    Client.StepKeepsInv(p, Client.Deliver);
    hide Client.Inv, Handled;
  }

  lemma {:induction false} SkipsRun(p: Client.System, mem: Memory, position: nat, n: nat)
    requires ConnectedAt(p, mem, position) && position + n <= p.cached
    ensures Client.Runs(p, Skips(n))
    ensures ConnectedAt(Client.Exec(p, Skips(n)), mem, position + n) && SameServer(p, Client.Exec(p, Skips(n)))
    decreases n
  {
    hide ConnectedAt, Client.Next, Client.Enabled;
    if n > 0 {
      SkipOne(p, mem, position);
      SkipsRun(Client.Next(p, Client.Skip), mem, position + 1, n - 1);
      Client.Then(p, Client.Skip, Skips(n - 1));
    }
  }

  lemma {:induction false} DeliversRun(p: Client.System, mem: Memory, position: nat, n: nat)
    requires ConnectedAt(p, mem, position) && position + n <= p.cached <= |p.log|
    ensures Client.Runs(p, Delivers(n))
    ensures ConnectedAt(Client.Exec(p, Delivers(n)), HandledAll(mem, p.log[position..position + n]), position + n)
    ensures SameServer(p, Client.Exec(p, Delivers(n)))
    decreases n
  {
    hide ConnectedAt, Client.Next, Client.Enabled, Handled, HandledAll;
    if n == 0 {
      HandledNothing(mem, p.log, position);
    } else {
      DeliverOne(p, mem, position);
      DeliversRun(Client.Next(p, Client.Deliver), Handled(mem, p.log[position]), position + 1, n - 1);
      Client.Then(p, Client.Deliver, Delivers(n - 1));
      HandledFirst(mem, p.log, position, n);
    }
  }

  lemma {:induction false} HandledNothing(mem: Memory, log: seq<Message>, position: nat)
    requires position <= |log|
    ensures HandledAll(mem, log[position..position]) == mem
  {
  }

  lemma {:induction false} HandledFirst(mem: Memory, log: seq<Message>, position: nat, n: nat)
    requires n > 0 && position + n <= |log|
    ensures HandledAll(mem, log[position..position + n])
         == HandledAll(Handled(mem, log[position]), log[position + 1..position + n])
    decreases n
  {
    assert log[position..position + n][..n - 1] == log[position..position + n - 1];
    if n > 1 {
      HandledFirst(mem, log, position, n - 1);
      assert log[position + 1..position + n][..n - 2] == log[position + 1..position + n - 1];
    } else {
      assert log[position..position] == [] && log[position + 1..position + 1] == [];
    }
  }

  lemma {:induction false} LegRuns(p: Client.System, mem: Memory, position: nat, over: nat, taken: nat)
    requires ConnectedAt(p, mem, position) && position + over + taken <= p.cached <= |p.log|
    ensures Client.Runs(p, Leg(over, taken)) && SameServer(p, Client.Exec(p, Leg(over, taken)))
    ensures var i := position + over;
            ConnectedAt(Client.Exec(p, Leg(over, taken)), HandledAll(mem, p.log[i..i + taken]), i + taken)
  {
    hide ConnectedAt, HandledAll, Client.Runs, Client.Exec, Skips, Delivers;
    SkipsRun(p, mem, position, over);
    DeliversRun(Client.Exec(p, Skips(over)), mem, position + over, taken);
    RunsConcat(p, Skips(over), Delivers(taken));
  }

  lemma {:induction false} Connects(p: Client.System)
    requires Client.Inv(p) && p.client.Some? && p.client.value.conn.None?
    ensures Client.Enabled(p, Client.Connect)
    ensures var q := Client.Next(p, Client.Connect);
            ConnectedAt(q, p.client.value.mem, p.client.value.track.at) && SameServer(p, q)
    ensures p.client.value.track.at <= p.cached <= |p.log|
  {
    Client.StepKeepsInv(p, Client.Connect);
    Client.FrontierIsPosition(p.log, p.client.value.track.at, p.client.value.mem.lastRev);
  }

  /** A walk applies the two delivered stretches and nothing else. */
  lemma {:induction false} WalkRuns(p: Client.System, first: nat, early: nat, second: nat, late: nat)
    requires Client.Inv(p) && p.client.Some? && p.client.value.conn.None?
    requires p.client.value.track.at + first + early + second + late <= p.cached
    ensures p.cached <= |p.log|
    ensures Client.Runs(p, Walk(first, early, second, late))
    ensures var i := p.client.value.track.at + first;
            var j := i + early + second;
            ConnectedAt(Client.Exec(p, Walk(first, early, second, late)),
                        HandledAll(HandledAll(p.client.value.mem, p.log[i..i + early]), p.log[j..j + late]), j + late)
    ensures SameServer(p, Client.Exec(p, Walk(first, early, second, late)))
  {
    hide Client.Inv, Client.Next, Client.Enabled, ConnectedAt, HandledAll, Client.Runs, Client.Exec, Leg;
    Connects(p);
    TwoLegsRun(Client.Next(p, Client.Connect), p.client.value.mem, p.client.value.track.at, first, early, second, late);
    Client.Then(p, Client.Connect, Leg(first, early) + Leg(second, late));
  }

  lemma {:induction false} TwoLegsRun(p: Client.System, mem: Memory, at: nat, first: nat, early: nat, second: nat,
        late: nat)
    requires ConnectedAt(p, mem, at) && at + first + early + second + late <= p.cached <= |p.log|
    ensures Client.Runs(p, Leg(first, early) + Leg(second, late))
    ensures var i := at + first;
            var j := i + early + second;
            ConnectedAt(Client.Exec(p, Leg(first, early) + Leg(second, late)),
                        HandledAll(HandledAll(mem, p.log[i..i + early]), p.log[j..j + late]), j + late)
    ensures SameServer(p, Client.Exec(p, Leg(first, early) + Leg(second, late)))
  {
    hide ConnectedAt, HandledAll, Client.Runs, Client.Exec, Leg;
    var i := at + first;
    LegRuns(p, mem, at, first, early);
    LegRuns(Client.Exec(p, Leg(first, early)), HandledAll(mem, p.log[i..i + early]), i + early, second, late);
    RunsConcat(p, Leg(first, early), Leg(second, late));
  }

  lemma {:induction false} RegroupPieces(a: seq<Message>, b: seq<Message>, c: seq<Message>, d: seq<Message>,
        e: seq<Message>)
    ensures a + (b + c + d + e) == a + b + c + d + e
  {
  }

  /** Where the pieces lie in the scope's whole log. */
  lemma {:induction false} PieceAt(own: seq<Message>, at: nat, a: seq<Message>, b: seq<Message>, c: seq<Message>,
        d: seq<Message>, e: seq<Message>)
    requires at <= |own| && own[at..] == a + b + c + d + e
    ensures at + |a| + |b| + |c| + |d| <= |own|
    ensures var i := at + |a|;
            var j := i + |b| + |c|;
            own[i..i + |b|] == b && own[j..j + |d|] == d
  {
    var i := at + |a|;
    var j := i + |b| + |c|;
    assert own[at..][|a|..|a| + |b|] == own[i..i + |b|];
    assert own[at..][|a| + |b| + |c|..|a| + |b| + |c| + |d|] == own[j..j + |d|];
  }

  lemma {:induction false} AtIsPosition(p: Client.System)
    requires Client.Inv(p) && p.client.Some?
    ensures p.client.value.track.at == Client.Position(p.log, p.client.value.mem.lastRev)
  {
    Client.FrontierIsPosition(p.log, p.client.value.track.at, p.client.value.mem.lastRev);
  }

  lemma {:induction false} WrittenIsWalk(p: Client.System, forgotten: seq<Message>, early: seq<Message>,
        missed: seq<Message>, live: seq<Message>, written: seq<Message>, backlog: seq<Message>)
    returns (walk: seq<Client.Step>)
    requires Client.Inv(p) && p.client.Some? && p.client.value.conn.None? && p.cached == |p.log|
    requires written + backlog == early + live
    requires var i := p.client.value.track.at + |forgotten|;
             var j := i + |early| + |missed|;
             j + |live| <= |p.log| && p.log[i..i + |early|] == early && p.log[j..j + |live|] == live
    ensures Client.Runs(p, walk) && Client.Exec(p, walk).client.Some?
    ensures Client.Exec(p, walk).client.value.mem == HandledAll(p.client.value.mem, written)
    ensures walk == if |written| <= |early| then Walk(|forgotten|, |written|, 0, 0)
                    else Walk(|forgotten|, |early|, |missed|, |written| - |early|)
  {
    hide Client.Inv, Client.Runs, Client.Exec, Walk, HandledAll;
    var i, n := p.client.value.track.at + |forgotten|, |written|;
    if n <= |early| {
      walk := Walk(|forgotten|, n, 0, 0);
      WalkRuns(p, |forgotten|, n, 0, 0);
      WrittenEarly(p, i, early, live, written, backlog);
    } else {
      walk := Walk(|forgotten|, |early|, |missed|, n - |early|);
      WalkRuns(p, |forgotten|, |early|, |missed|, n - |early|);
      WrittenLate(p, i + |early| + |missed|, early, live, written, backlog);
    }
  }

  lemma {:induction false} WrittenEarly(p: Client.System, i: nat, early: seq<Message>, live: seq<Message>,
        written: seq<Message>, backlog: seq<Message>)
    requires p.client.Some? && written + backlog == early + live && |written| <= |early|
    requires i + |early| <= |p.log| && p.log[i..i + |early|] == early
    ensures var n := |written|;
            HandledAll(HandledAll(p.client.value.mem, p.log[i..i + n]), p.log[i + n..i + n])
            == HandledAll(p.client.value.mem, written)
  {
    hide HandledAll;
    TakeOfBoth(written, backlog, early, live);
    TakeOfPart(p.log, i, early, |written|);
    HandledNothing(HandledAll(p.client.value.mem, written), p.log, i + |written|);
  }

  lemma {:induction false} TakeOfPart(log: seq<Message>, i: nat, part: seq<Message>, n: nat)
    requires n <= |part| && i + |part| <= |log| && log[i..i + |part|] == part
    ensures log[i..i + n] == part[..n]
  {
    assert log[i..i + n] == log[i..i + |part|][..n];
  }

  lemma {:induction false} TakeOfBoth(a: seq<Message>, b: seq<Message>, c: seq<Message>, d: seq<Message>)
    requires a + b == c + d
    ensures |a| <= |c| ==> a == c[..|a|]
    ensures |a| >= |c| ==> |a| - |c| <= |d| && a == c + d[..|a| - |c|]
  {
    assert a == (a + b)[..|a|] == (c + d)[..|a|];
    assert |a + b| == |c + d|;
  }

  lemma {:induction false} WrittenLate(p: Client.System, j: nat, early: seq<Message>, live: seq<Message>,
        written: seq<Message>, backlog: seq<Message>)
    requires p.client.Some? && written + backlog == early + live && |written| >= |early|
    requires j + |live| <= |p.log| && p.log[j..j + |live|] == live
    ensures var n := |written| - |early|;
            n <= |live| && HandledAll(HandledAll(p.client.value.mem, early), p.log[j..j + n])
                           == HandledAll(p.client.value.mem, written)
  {
    hide Handled;
    var n := |written| - |early|;
    TakeOfBoth(written, backlog, early, live);
    TakeOfPart(p.log, j, live, n);
    HandledInTwo(p.client.value.mem, early, live[..n]);
  }

  lemma {:induction false} TwoPositions(m1: Message, m2: Message)
    requires 0 < m1.revision < m2.revision
    ensures Client.UpTo([m1, m2], 0) == [] && Client.UpTo([m1, m2], m2.revision) == [m1, m2]
  {
    assert [m1, m2][..1] == [m1] && [m1][..0] == [];
    assert Client.Position([m1, m2], 0) == Client.Position([m1], 0) == Client.Position([], 0) == 0;
  }
}
