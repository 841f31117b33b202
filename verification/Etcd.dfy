/** etcd as one revisioned map with compare-and-put, and SaveFeatureIfNewer on top of it. */
module Etcd {
  import opened Model

  /** A stored value; a payload that is not a flag does not parse. */
  datatype Entry = Entry(payload: Option<Flag>, modRevision: int)

  datatype Write = Write(key: string, flag: Flag, revision: int)

  /** The key space, the global revision and every write so far. */
  datatype Store = Store(data: map<string, Entry>, revision: nat, log: seq<Write>)

  function Read(s: Store, key: string): Option<Entry> {
    if key in s.data then Some(s.data[key]) else None
  }

  function Commit(s: Store, key: string, flag: Flag): Store {
    Store(s.data[key := Entry(Some(flag), s.revision + 1)], s.revision + 1, s.log + [Write(key, flag, s.revision + 1)])
  }

  const MAX_RETRIES := 3

  /** One call of SaveFeatureIfNewer: about to read, about to commit on what it saw, or returned. */
  datatype Call =
    | Getting(key: string, flag: Flag, retries: nat)
    | Committing(key: string, flag: Flag, retries: nat, seen: Option<Entry>)
    | Done(key: string, flag: Flag, result: Result<int>)

  /** A request may fail before etcd acts on it, or its reply may be lost afterwards. */
  datatype Fault = NoFault | RequestLost | ReplyLost

  function AfterGet(c: Call, reply: Option<Entry>, fault: Fault): Call
    requires c.Getting?
  {
    if fault != NoFault then Done(c.key, c.flag, Err)
    else match reply
      case None => Committing(c.key, c.flag, c.retries, None)
      case Some(Entry(None, _)) => Done(c.key, c.flag, Err)
      case Some(Entry(Some(current), rev)) =>
        if current.version >= c.flag.version then Done(c.key, c.flag, Ok(rev))
        else Committing(c.key, c.flag, c.retries, reply)
  }

  /** The comparison of the transaction: create revision 0, or the mod revision just read. */
  predicate Unchanged(s: Store, key: string, seen: Option<Entry>) {
    match seen
    case None => key !in s.data
    case Some(e) => key in s.data && s.data[key].modRevision == e.modRevision
  }

  function AfterTxn(c: Call, s: Store, fault: Fault): (Call, Store)
    requires c.Committing?
  {
    var committed := if Unchanged(s, c.key, c.seen) then Commit(s, c.key, c.flag) else s;
    match fault
    case RequestLost => (Done(c.key, c.flag, Err), s)
    case ReplyLost => (Done(c.key, c.flag, Err), committed)
    case NoFault =>
      if Unchanged(s, c.key, c.seen) then (Done(c.key, c.flag, Ok(committed.revision)), committed)
      else if c.retries + 1 > MAX_RETRIES then (Done(c.key, c.flag, Err), s)
      else (Getting(c.key, c.flag, c.retries + 1), s)
  }

  function Remaining(c: Call): nat {
    match c
    case Getting(_, _, retries) => if retries > MAX_RETRIES then 2 else 2 * (MAX_RETRIES - retries) + 2
    case Committing(_, _, retries, _) => if retries > MAX_RETRIES then 1 else 2 * (MAX_RETRIES - retries) + 1
    case Done(_, _, _) => 0
  }

  /** The n-th request of a call: other clients act first, then the request meets a fault or not. */
  datatype Weather = Weather(others: (nat, Store) -> Store, fault: nat -> Fault)

  /** One call run to its end while others interfere before each of its requests. */
  function Run(c: Call, s: Store, w: Weather, n: nat): (Call, Store)
    decreases Remaining(c)
  {
    match c
    case Done(_, _, _) => (c, s)
    case Getting(_, _, _) =>
      var s1 := w.others(n, s);
      Run(AfterGet(c, Read(s1, c.key), w.fault(n)), s1, w, n + 1)
    case Committing(_, _, _, _) =>
      var s1 := w.others(n, s);
      var (c2, s2) := AfterTxn(c, s1, w.fault(n));
      Run(c2, s2, w, n + 1)
  }

  predicate AtLeast(s: Store, key: string, version: nat) {
    key in s.data && s.data[key].payload.Some? && s.data[key].payload.value.version >= version
  }

  /** Whatever the others do, success means that at its return the stored version is at least
      the one asked for. */
  lemma {:induction false} SuccessMeansStored(c: Call, s: Store, w: Weather, n: nat)
    requires c.Done? && c.result.Ok? ==> AtLeast(s, c.key, c.flag.version)
    ensures var (c', s') := Run(c, s, w, n);
            c'.Done? && c'.key == c.key && c'.flag == c.flag && (c'.result.Ok? ==> AtLeast(s', c.key, c.flag.version))
    decreases Remaining(c)
  {
    match c {
      case Done(_, _, _) =>
      case Getting(_, _, _) =>
        var s1 := w.others(n, s);
        SuccessMeansStored(AfterGet(c, Read(s1, c.key), w.fault(n)), s1, w, n + 1);
      case Committing(_, _, _, _) =>
        var s1 := w.others(n, s);
        var (c2, s2) := AfterTxn(c, s1, w.fault(n));
        SuccessMeansStored(c2, s2, w, n + 1);
    }
  }

  // ----- one call, round by round -----

  /** What the others make of the store before the n-th request of a call that has written nothing. */
  function Left(w: Weather, s: Store, n: nat): Store {
    if n == 0 then s else w.others(n - 1, Left(w, s, n - 1))
  }

  /** The key is absent, or holds a flag of a lower version. */
  predicate Stale(s: Store, key: string, version: nat) {
    key in s.data ==> s.data[key].payload.Some? && s.data[key].payload.value.version < version
  }

  /** Between two states of the store somebody has written or created the key. */
  predicate Touched(before: Store, after: Store, key: string) {
    if key in before.data then key !in after.data || after.data[key].modRevision != before.data[key].modRevision
    else key in after.data
  }

  /** The k-th round reads an older version, and somebody writes the key before its transaction. */
  predicate RaceLost(w: Weather, s: Store, key: string, version: nat, k: nat) {
    && w.fault(2 * k) == NoFault && w.fault(2 * k + 1) == NoFault
    && Stale(Left(w, s, 2 * k + 1), key, version)
    && Touched(Left(w, s, 2 * k + 1), Left(w, s, 2 * k + 2), key)
  }

  /** The flag has been put under the key, as the next revision. */
  predicate Put(before: Store, after: Store, key: string, flag: Flag) {
    && after.data == before.data[key := Entry(Some(flag), before.revision + 1)]
    && after.revision == before.revision + 1
    && after.log == before.log + [Write(key, flag, before.revision + 1)]
  }

  /** How a call ends that ends in the k-th round: with a failed read; with a payload that does not
      parse; with a version that is stored already; with a lost race, in the fourth round or together
      with a fault; or with a transaction that goes through, whatever its reply. */
  predicate EndsInRound(w: Weather, s: Store, key: string, flag: Flag, k: nat, r: Result<int>, after: Store) {
    var read, found := Left(w, s, 2 * k + 1), Left(w, s, 2 * k + 2);
    if w.fault(2 * k) != NoFault then r == Err && after == read
    else if key in read.data && read.data[key].payload.None? then r == Err && after == read
    else if !Stale(read, key, flag.version) then r == Ok(read.data[key].modRevision) && after == read
    else if Touched(read, found, key) then r == Err && after == found && (w.fault(2 * k + 1) == NoFault ==> k == 3)
    else match w.fault(2 * k + 1)
      case NoFault => r == Ok(found.revision + 1) && Put(found, after, key, flag)
      case RequestLost => r == Err && after == found
      case ReplyLost => r == Err && Put(found, after, key, flag)
  }

  /** The answer of a call, and what it leaves of the store: at most four rounds, all but the last
      lost to others. */
  ghost predicate Answered(w: Weather, s: Store, key: string, flag: Flag, r: Result<int>, after: Store) {
    exists k: nat ::
      && k <= 3 && EndsInRound(w, s, key, flag, k, r, after)
      && forall j: nat | j < k :: RaceLost(w, s, key, flag.version, j)
  }

  /** A run of the call machine from its k-th round on, having lost the rounds before. */
  lemma {:induction false} RoundAnswers(w: Weather, s: Store, key: string, flag: Flag, k: nat)
    requires k <= 3 && forall j: nat | j < k :: RaceLost(w, s, key, flag.version, j)
    ensures var (c, after) := Run(Getting(key, flag, k), Left(w, s, 2 * k), w, 2 * k);
            c.Done? && Answered(w, s, key, flag, c.result, after)
    decreases 3 - k
  {
    hide Answered, RaceLost;
    var c := Getting(key, flag, k);
    var read, found := Left(w, s, 2 * k + 1), Left(w, s, 2 * k + 2);
    var c1 := AfterGet(c, Read(read, key), w.fault(2 * k));
    assert Run(c, Left(w, s, 2 * k), w, 2 * k) == Run(c1, read, w, 2 * k + 1);
    if c1.Done? {
      assert Run(c1, read, w, 2 * k + 1) == (c1, read);
      EndsHere(w, s, key, flag, k, c1.result, read);
    } else {
      var (c2, s2) := AfterTxn(c1, found, w.fault(2 * k + 1));
      assert Run(c1, read, w, 2 * k + 1) == Run(c2, s2, w, 2 * k + 2);
      if c2.Done? {
        assert Run(c2, s2, w, 2 * k + 2) == (c2, s2);
        EndsHere(w, s, key, flag, k, c2.result, s2);
      } else {
        LosesHere(w, s, key, flag, k);
        RoundAnswers(w, s, key, flag, k + 1);
      }
    }
  }

  lemma {:induction false} EndsHere(w: Weather, s: Store, key: string, flag: Flag, k: nat, r: Result<int>, after: Store)
    requires k <= 3 && EndsInRound(w, s, key, flag, k, r, after)
    requires forall j: nat | j < k :: RaceLost(w, s, key, flag.version, j)
    ensures Answered(w, s, key, flag, r, after)
  {
  }

  lemma {:induction false} LosesHere(w: Weather, s: Store, key: string, flag: Flag, k: nat)
    requires w.fault(2 * k) == NoFault && w.fault(2 * k + 1) == NoFault
    requires Stale(Left(w, s, 2 * k + 1), key, flag.version)
    requires Touched(Left(w, s, 2 * k + 1), Left(w, s, 2 * k + 2), key)
    ensures RaceLost(w, s, key, flag.version, k)
  {
  }

  /** One run of the call machine gives the answer of a call. */
  lemma {:induction false} RunAnswers(w: Weather, s: Store, key: string, flag: Flag)
    ensures var (c, after) := Run(Getting(key, flag, 0), s, w, 0);
            c.Done? && Answered(w, s, key, flag, c.result, after)
  {
    RoundAnswers(w, s, key, flag, 0);
  }

  // ----- what the answer promises -----

  /** No request fails, and the key never holds a payload that does not parse. */
  ghost predicate Sound(w: Weather, s: Store, key: string) {
    && (forall n: nat :: w.fault(n) == NoFault)
    && (forall n: nat :: key in Left(w, s, n).data ==> Left(w, s, n).data[key].payload.Some?)
  }

  /** From the n-th request on nobody else writes the key. */
  ghost predicate AloneFrom(w: Weather, key: string, n: nat) {
    forall m: nat, s: Store | n <= m :: Read(w.others(m, s), key) == Read(s, key)
  }

  /** The call retries: when no request fails, and rivals for the key fall silent by the fourth round at
      the latest, it succeeds, and the key holds at least its version. */
  lemma {:induction false} RetriesUntilStored(w: Weather, s: Store, key: string, flag: Flag, r: Result<int>,
        after: Store)
    requires Answered(w, s, key, flag, r, after) && Sound(w, s, key)
    requires exists k: nat :: k <= 3 && AloneFrom(w, key, 2 * k)
    ensures r.Ok? && AtLeast(after, key, flag.version)
  {
    var quiet: nat :| quiet <= 3 && AloneFrom(w, key, 2 * quiet);
    var k: nat :| k <= 3 && EndsInRound(w, s, key, flag, k, r, after)
                  && forall j: nat | j < k :: RaceLost(w, s, key, flag.version, j);
    NoRaceAlone(w, s, key, quiet);
    assert k > quiet ==> RaceLost(w, s, key, flag.version, quiet);
    if k == quiet || k == 3 {
      NoRaceAlone(w, s, key, k);
    }
  }

  lemma {:induction false} NoRaceAlone(w: Weather, s: Store, key: string, k: nat)
    requires AloneFrom(w, key, 2 * k)
    ensures !Touched(Left(w, s, 2 * k + 1), Left(w, s, 2 * k + 2), key)
  {
    assert Left(w, s, 2 * k + 2) == w.others(2 * k + 1, Left(w, s, 2 * k + 1));
    assert Read(Left(w, s, 2 * k + 2), key) == Read(Left(w, s, 2 * k + 1), key);
  }

  /** Where no request fails, an error means that four times in a row the call read an older version and
      somebody wrote the key before its transaction; and the call has written nothing. */
  lemma {:induction false} ErrorMeansFourRaces(w: Weather, s: Store, key: string, flag: Flag, r: Result<int>,
        after: Store)
    requires Answered(w, s, key, flag, r, after) && Sound(w, s, key)
    ensures r == Err <==> forall k: nat | k < 4 :: RaceLost(w, s, key, flag.version, k)
    ensures r == Err ==> after == Left(w, s, 8)
  {
    var k: nat :| k <= 3 && EndsInRound(w, s, key, flag, k, r, after)
                  && forall j: nat | j < k :: RaceLost(w, s, key, flag.version, j);
    if r == Err {
      LosesHere(w, s, key, flag, 3);
    } else {
      assert !RaceLost(w, s, key, flag.version, k);
    }
  }

  /** Success means that the key holds at least the call's version at the revision it returns: the flag
      itself, if it was the call that wrote it. */
  lemma {:induction false} SuccessIsAtRevision(w: Weather, s: Store, key: string, flag: Flag, r: Result<int>,
        after: Store)
    requires Answered(w, s, key, flag, r, after) && r.Ok?
    ensures AtLeast(after, key, flag.version) && after.data[key].modRevision == r.value
    ensures after.data[key].payload.value == flag
         || exists k: nat :: k <= 3 && after == Left(w, s, 2 * k + 1)
  {
  }

  /** Nobody else writes the key, no request fails, and what is stored parses: an older version or none
      is replaced by the flag, and anything else stays. */
  lemma {:induction false} AloneItStores(w: Weather, s: Store, key: string, flag: Flag, r: Result<int>, after: Store)
    requires Answered(w, s, key, flag, r, after) && AloneFrom(w, key, 0)
    requires (forall n: nat :: w.fault(n) == NoFault) && (key in s.data ==> s.data[key].payload.Some?)
    ensures r.Ok?
    ensures if Stale(s, key, flag.version) then Read(after, key) == Some(Entry(Some(flag), r.value))
            else Read(after, key) == Read(s, key)
  {
    var k: nat :| k <= 3 && EndsInRound(w, s, key, flag, k, r, after)
                  && forall j: nat | j < k :: RaceLost(w, s, key, flag.version, j);
    NoRaceAlone(w, s, key, 0);
    assert k > 0 ==> RaceLost(w, s, key, flag.version, 0);
    assert Left(w, s, 1) == w.others(0, Left(w, s, 0)) && Left(w, s, 0) == s;
    assert Read(Left(w, s, 1), key) == Read(s, key);
  }

  // ----- who wrote what -----

  predicate KeptEntry(before: Store, after: Store, key: string) {
    key in before.data && key in after.data && before.data[key] == after.data[key]
  }

  predicate WrittenEntry(s: Store, key: string, writes: set<(string, Flag)>) {
    key in s.data && s.data[key].payload.Some? && (key, s.data[key].payload.value) in writes
  }

  /** Every entry that is not as it was is one of these writes. */
  ghost predicate Explained(before: Store, after: Store, writes: set<(string, Flag)>) {
    forall key | key in after.data :: KeptEntry(before, after, key) || WrittenEntry(after, key, writes)
  }

  /** The others write nothing else. */
  ghost predicate OnlyWrites(w: Weather, writes: set<(string, Flag)>) {
    forall n: nat, s: Store :: Explained(s, w.others(n, s), writes)
  }

  lemma {:induction false} ExplainedTransitive(a: Store, b: Store, c: Store, writes: set<(string, Flag)>,
        more: set<(string, Flag)>)
    requires Explained(a, b, writes) && Explained(b, c, more) && writes <= more
    ensures Explained(a, c, more)
  {
    forall key | key in c.data
      ensures KeptEntry(a, c, key) || WrittenEntry(c, key, more)
    {
      if KeptEntry(b, c, key) {
        assert KeptEntry(a, b, key) || WrittenEntry(b, key, writes);
      }
    }
  }

  lemma {:induction false} LeftIsExplained(w: Weather, s: Store, n: nat, writes: set<(string, Flag)>)
    requires OnlyWrites(w, writes)
    ensures Explained(s, Left(w, s, n), writes)
  {
    if n > 0 {
      LeftIsExplained(w, s, n - 1, writes);
      ExplainedTransitive(s, Left(w, s, n - 1), Left(w, s, n), writes, writes);
    }
  }

  /** A call writes its own flag under its own key, if anything. */
  lemma {:induction false} CallIsExplained(w: Weather, s: Store, key: string, flag: Flag, r: Result<int>, after: Store,
        writes: set<(string, Flag)>)
    requires Answered(w, s, key, flag, r, after) && OnlyWrites(w, writes)
    ensures Explained(s, after, writes + {(key, flag)})
  {
    hide Left, Stale, Touched, OnlyWrites;
    var k: nat :| k <= 3 && EndsInRound(w, s, key, flag, k, r, after)
                  && forall j: nat | j < k :: RaceLost(w, s, key, flag.version, j);
    LeftIsExplained(w, s, 2 * k + 1, writes);
    LeftIsExplained(w, s, 2 * k + 2, writes);
    if Put(Left(w, s, 2 * k + 2), after, key, flag) {
      assert Explained(Left(w, s, 2 * k + 2), after, writes + {(key, flag)});
      ExplainedTransitive(s, Left(w, s, 2 * k + 2), after, writes, writes + {(key, flag)});
    }
  }

  class Client {
    var store: Store

    constructor (store: Store)
      ensures this.store == store
    {
      this.store := store;
    }

    /** The retry loop. The store is shared: before each request the others have their turn. */
    method SaveFeatureIfNewer(key: string, newValue: Flag, w: Weather) returns (r: Result<int>)
      modifies this
      ensures (Done(key, newValue, r), store) == Run(Getting(key, newValue, 0), old(store), w, 0)
      ensures r.Ok? ==> AtLeast(store, key, newValue.version)
      ensures Answered(w, old(store), key, newValue, r, store)
    {
      hide Answered;
      RunAnswers(w, store, key, newValue);
      SuccessMeansStored(Getting(key, newValue, 0), store, w, 0);
      ghost var outcome := Run(Getting(key, newValue, 0), store, w, 0);
      var retries := 0;
      var n := 0;
      while true
        invariant retries <= MAX_RETRIES
        invariant Run(Getting(key, newValue, retries), store, w, n) == outcome
        decreases MAX_RETRIES - retries
      {
        store := w.others(n, store);
        if w.fault(n) != NoFault {
          return Err;
        }
        var seen := Read(store, key);
        n := n + 1;
        if seen.Some? {
          if seen.value.payload.None? {
            return Err;
          }
          if seen.value.payload.value.version >= newValue.version {
            return Ok(seen.value.modRevision);
          }
        }
        assert Run(Committing(key, newValue, retries, seen), store, w, n) == outcome;
        store := w.others(n, store);
        var fault, holds := w.fault(n), Unchanged(store, key, seen);
        n := n + 1;
        ghost var next := AfterTxn(Committing(key, newValue, retries, seen), store, fault);
        assert Run(next.0, next.1, w, n) == outcome;
        if holds && fault != RequestLost {
          store := Commit(store, key, newValue);
        }
        if fault != NoFault {
          return Err;
        }
        if holds {
          return Ok(store.revision);
        }
        retries := retries + 1;
        if retries > MAX_RETRIES {
          return Err;
        }
      }
    }

    /** A read of one feature. An absent key is an error, and the flag handed back carries the full
        key, the stored JSON text as its value, and no version. */
    method GetFeature(key: string, text: string, fault: Fault) returns (r: Result<Flag>)
      ensures r.Ok? <==> fault == NoFault && key in store.data
      ensures r.Ok? ==> r.value == Flag("", "", key, text, 0, store.data[key].modRevision, "")
    {
      if fault != NoFault || key !in store.data {
        return Err;
      }
      r := Ok(Flag("", "", key, text, 0, store.data[key].modRevision, ""));
    }
  }
}
