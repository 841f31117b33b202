/** The ring of recent watch messages and its binary search, against the log of every
    message ever added. */
module RevisionBuffer {
  import opened Model
  import opened EventLog

  const DEFAULT_SIZE := 1000

  /** What a reader is promised: nothing if the requested revision is older than the oldest
      message kept, otherwise every newer message ever added. */
  function Compensation(size: nat, log: seq<Message>, lastRev: int): Option<seq<Message>>
    requires size > 0
  {
    if log == [] then Some([])
    else if lastRev < Retained(size, log)[0].revision then None
    else Some(Since(log, lastRev))
  }

  /** The newest `size` messages. */
  function Retained(size: nat, log: seq<Message>): (kept: seq<Message>)
    requires size > 0
    ensures log != [] ==> kept != []
  {
    if |log| <= size then log else log[|log| - size..]
  }

  /** A served request is complete: whatever the ring has overwritten is not newer. */
  lemma {:induction false} RetainedSuffices(size: nat, log: seq<Message>, lastRev: int)
    requires size > 0 && log != [] && NonDecreasing(log)
    requires Retained(size, log)[0].revision <= lastRev
    ensures Since(log, lastRev) == Since(Retained(size, log), lastRev)
  {
    if |log| > size {
      var gone := log[..|log| - size];
      assert log == gone + Retained(size, log);
      SinceConcat(gone, Retained(size, log), lastRev);
      SinceNothing(gone, lastRev);
    }
  }

  /** In a sorted list the newer messages are a suffix. */
  lemma {:induction false} SinceIsSuffix(log: seq<Message>, idx: nat, lastRev: int)
    requires idx <= |log| && NonDecreasing(log)
    requires idx > 0 ==> log[idx - 1].revision <= lastRev
    requires idx < |log| ==> log[idx].revision > lastRev
    ensures Since(log, lastRev) == log[idx..]
  {
    var older, newer := log[..idx], log[idx..];
    forall i | 0 <= i < |older|
      ensures older[i].revision <= lastRev
    {
      assert log[i].revision <= log[idx - 1].revision;
    }
    forall i | 0 <= i < |newer|
      ensures newer[i].revision > lastRev
    {
      assert log[idx].revision <= log[idx + i].revision;
    }
    SinceSplits(older, newer, lastRev);
    assert log == older + newer;
  }

  lemma {:induction false} SinceSplits(older: seq<Message>, newer: seq<Message>, lastRev: int)
    requires forall i | 0 <= i < |older| :: older[i].revision <= lastRev
    requires forall i | 0 <= i < |newer| :: newer[i].revision > lastRev
    ensures Since(older + newer, lastRev) == newer
  {
    SinceConcat(older, newer, lastRev);
    SinceNothing(older, lastRev);
    SinceEverything(newer, lastRev);
  }

  lemma {:induction false} SearchAnswers(size: nat, log: seq<Message>, idx: nat, lastRev: int)
    requires size > 0 && log != [] && NonDecreasing(log)
    requires Retained(size, log)[0].revision <= lastRev
    requires idx <= |Retained(size, log)|
    requires idx > 0 ==> Retained(size, log)[idx - 1].revision <= lastRev
    requires idx < |Retained(size, log)| ==> Retained(size, log)[idx].revision > lastRev
    ensures Compensation(size, log, lastRev) == Some(Retained(size, log)[idx..])
  {
    RetainedSuffices(size, log, lastRev);
    SinceIsSuffix(Retained(size, log), idx, lastRev);
  }

  /** The remainder of an index that has run past the end at most once. */
  method Wrap(x: nat, size: nat) returns (slot: nat)
    requires size > 0 && x < 2 * size
    ensures slot == if x < size then x else x - size
  {
    slot := x % size;
    if x >= size {
      assert x == size * 1 + (x - size);
    }
  }

  /** Position `i` of a ring that starts at slot `start`. */
  function Slot(start: nat, i: nat, size: nat): (slot: nat)
    requires start < size && i < size
    ensures slot < size
  {
    if start + i < size then start + i else start + i - size
  }

  function NextSlot(head: nat, size: nat): nat {
    if head + 1 == size then 0 else head + 1
  }

  /** The slots, read from `start` on, are the `count` messages kept of the log. */
  ghost predicate Holds(slots: seq<Message>, start: nat, count: nat, log: seq<Message>) {
    && start < |slots| && count <= |slots|
    && count == |Retained(|slots|, log)|
    && forall i | 0 <= i < count :: slots[Slot(start, i, |slots|)] == Retained(|slots|, log)[i]
  }

  /** Overwriting the oldest slot of a full ring drops one message and appends another. */
  lemma {:induction false} OverwriteOldest(slots: seq<Message>, head: nat, log: seq<Message>, msg: Message)
    requires head < |slots| && Holds(slots, head, |slots|, log)
    ensures Holds(slots[head := msg], NextSlot(head, |slots|), |slots|, log + [msg])
  {
    var size, after := |slots|, slots[head := msg];
    var kept := Retained(size, log);
    assert Retained(size, log + [msg]) == kept[1..] + [msg];
    forall i | 0 <= i < size
      ensures after[Slot(NextSlot(head, size), i, size)] == (kept[1..] + [msg])[i]
    {
      if i < size - 1 {
        assert slots[Slot(head, i + 1, size)] == kept[i + 1];
      }
    }
  }

  /** Filling the next free slot keeps everything. */
  lemma {:induction false} FillNext(slots: seq<Message>, log: seq<Message>, msg: Message)
    requires |log| < |slots| && Holds(slots, 0, |log|, log)
    ensures Holds(slots[|log| := msg], 0, |log| + 1, log + [msg])
  {
    var after := slots[|log| := msg];
    forall i | 0 <= i < |log| + 1
      ensures after[Slot(0, i, |slots|)] == (log + [msg])[i]
    {
      if i < |log| {
        assert slots[Slot(0, i, |slots|)] == log[i];
      }
    }
  }

  class Ring {
    var messages: array<Message>
    var size: nat
    var head: nat
    var isFull: bool
    ghost var log: seq<Message>  // every message ever added

    ghost predicate Valid()
      reads this, messages
    {
      && size > 0
      && messages.Length == size
      && head < size
      && (isFull <==> |log| >= size)
      && (!isFull ==> head == |log|)
      && Holds(messages[..], Start(), Count(), log)
    }

    /** The number of messages kept. */
    function Count(): nat
      reads this
    {
      if isFull then size else head
    }

    /** The slot of the oldest message kept. */
    function Start(): nat
      reads this
    {
      if isFull then head else 0
    }

    constructor (requested: int)
      ensures Valid() && fresh(messages)
      ensures size == (if requested <= 0 then DEFAULT_SIZE else requested) && log == []
    {
      var n: nat := if requested <= 0 then DEFAULT_SIZE else requested;
      messages := new Message[n];
      size := n;
      head := 0;
      isFull := false;
      log := [];
    }

    method AddMessage(msg: Message)
      requires Valid()
      modifies this, messages
      ensures Valid()
      ensures messages == old(messages) && size == old(size)
      ensures log == old(log) + [msg]
    {
      if isFull {
        OverwriteOldest(messages[..], head, log, msg);
      } else {
        FillNext(messages[..], log, msg);
      }
      ghost var slots := messages[..];
      messages[head] := msg;
      assert messages[..] == slots[head := msg];
      head := Wrap(head + 1, size);
      if head == 0 {
        isFull := true;
      }
      log := log + [msg];
    }

    /** The messages newer than `lastRev`, or not ok when the ring may have lost some. */
    method GetSince(lastRev: int) returns (result: seq<Message>, ok: bool)
      requires Valid()
      ensures ok <==> log == [] || Retained(size, log)[0].revision <= lastRev
      ensures !ok ==> result == []
      ensures NonDecreasing(log) ==>
                (if ok then Some(result) else None) == Compensation(size, log, lastRev)
    {
      var count := head;
      var start := 0;
      if isFull {
        count := size;
        start := head;
      }
      ghost var kept := Retained(size, log);
      assert count == |kept| == Count() && start == Start();
      if count == 0 {
        return [], true;
      }
      assert messages[..][Slot(start, 0, size)] == kept[0];
      var oldestRev := messages[start].revision;
      if lastRev < oldestRev {
        return [], false;
      }
      var idx := FirstNewer(start, count, lastRev, kept);
      result := CopyFrom(start, count, idx, kept);
      ok := true;
      if NonDecreasing(log) {
        SearchAnswers(size, log, idx, lastRev);
      }
    }

    /** The message at logical position `i`, which lies at the physical index (start + i) % size. */
    method At(start: nat, count: nat, i: nat, ghost kept: seq<Message>) returns (m: Message)
      requires Valid() && count == Count() && start == Start() && i < count
      requires kept == Retained(size, log)
      ensures count == |kept| && m == kept[i]
    {
      var physIdx := Wrap(start + i, size);
      assert messages[..][Slot(start, i, size)] == kept[i];
      m := messages[physIdx];
    }

    /** The messages at the logical positions [idx, count), oldest first. */
    method CopyFrom(start: nat, count: nat, idx: nat, ghost kept: seq<Message>) returns (result: seq<Message>)
      requires Valid() && count == Count() && start == Start() && idx <= count
      requires kept == Retained(size, log) && count == |kept|
      ensures result == kept[idx..]
    {
      hide Valid, Retained;
      result := [];
      for i := idx to count
        invariant result == kept[idx..i]
      {
        var m := At(start, count, i, kept);
        result := result + [m];
      }
      assert kept[idx..count] == kept[idx..];
    }

    /** sort.Search over the logical positions [0, count). */
    method FirstNewer(start: nat, count: nat, lastRev: int, ghost kept: seq<Message>) returns (idx: nat)
      requires Valid() && count == Count() && start == Start()
      requires kept == Retained(size, log) && count == |kept|
      ensures idx <= count
      ensures idx > 0 ==> kept[idx - 1].revision <= lastRev
      ensures idx < count ==> kept[idx].revision > lastRev
    {
      hide Valid, Retained;
      var i, j := 0, count;
      while i < j
        invariant 0 <= i <= j <= count
        invariant i > 0 ==> kept[i - 1].revision <= lastRev
        invariant j < count ==> kept[j].revision > lastRev
      {
        var h := (i + j) / 2;
        var m := At(start, count, h, kept);
        if m.revision > lastRev {
          j := h;
        } else {
          i := h + 1;
        }
      }
      idx := i;
    }
  }
}
