/** The token-bucket script of the rate limiter: refill on read, write only when a request is
    admitted, expire after twice the fill time. Arithmetic is over the reals. */
module RateLimit {
  import opened Model

  datatype Config = Config(rate: real, capacity: real)
  {
    /** The middleware replaces a non-positive rate by 5 and sets the capacity to the rate. */
    predicate Valid() {
      rate > 0.0 && capacity > 0.0
    }
  }

  /** The two keys, written together: the tokens left and the time of the write, and the instant on
      Redis' own clock at which both expire. */
  datatype Bucket = Bucket(tokens: real, ts: real, expiresAt: real)

  /** A request: the caller's clock, Redis' clock, and the tokens asked for. */
  datatype Request = Request(now: real, clock: real, requested: real)

  datatype Verdict = Verdict(allowed: bool, remaining: real, resetAfter: real)

  /** What Redis hands on of a verdict: integers, truncated towards zero. */
  datatype Reply = Reply(allowed: int, remaining: int, resetAfter: int)

  function Truncated(x: real): int {
    if x >= 0.0 then x.Floor else -(-x).Floor
  }

  function Replied(v: Verdict): Reply {
    Reply(if v.allowed then 1 else 0, Truncated(v.remaining), Truncated(v.resetAfter))
  }

  function Ceil(x: real): int {
    if x.Floor as real == x then x.Floor else x.Floor + 1
  }

  function FillTime(c: Config): real
    requires c.Valid()
  {
    c.capacity / c.rate
  }

  function Ttl(c: Config): int
    requires c.Valid()
  {
    Ceil(FillTime(c) * 2.0)
  }

  function Min(a: real, b: real): real {
    if a <= b then a else b
  }

  /** What is left of the keys at Redis' time `clock`. */
  function Alive(b: Option<Bucket>, clock: real): Option<Bucket> {
    if b.Some? && clock < b.value.expiresAt then b else None
  }

  /** The tokens available at the caller's time `now`. */
  function Level(c: Config, b: Option<Bucket>, now: real): real {
    match b
    case None => c.capacity
    case Some(x) => Min(c.capacity, x.tokens + (if now > x.ts then now - x.ts else 0.0) * c.rate)
  }

  function Decide(c: Config, level: real, requested: real): Verdict
    requires c.Valid()
  {
    if level >= requested then Verdict(true, level - requested, 0.0)
    else Verdict(false, level, (requested - level) / c.rate)
  }

  /** The keys after a request that found `b` alive. */
  function After(c: Config, b: Option<Bucket>, r: Request): Option<Bucket>
    requires c.Valid()
  {
    var level := Level(c, b, r.now);
    if level >= r.requested then Some(Bucket(level - r.requested, r.now, r.clock + Ttl(c) as real)) else b
  }

  /** The tokens that come in over a time. */
  function Gain(c: Config, time: real): real {
    time * c.rate
  }

  /** What a reply means, given the tokens there were and the tokens that are left: the caller is admitted
      exactly if there were enough, and then they are taken and there is nothing to wait for; otherwise
      none are. It is told the whole tokens left, and the whole seconds until there will be enough. */
  ghost predicate Tells(c: Config, r: Request, reply: Reply, level: real, left: real)
    requires c.Valid()
  {
    && (reply.allowed == 1 <==> level >= r.requested) && (reply.allowed == 0 <==> level < r.requested)
    && (level < r.requested ==>
          && left == level && 0 <= reply.resetAfter
          && Gain(c, reply.resetAfter as real) <= r.requested - level < Gain(c, reply.resetAfter as real + 1.0))
    && (level >= r.requested ==>
          && reply.resetAfter == 0
          && (0.0 <= r.requested && level <= c.capacity ==> left == level - r.requested))
    && (0.0 <= level <= c.capacity && 0.0 <= r.requested ==>
          reply.remaining as real <= left < (reply.remaining + 1) as real)
  }

  lemma {:induction false} DecisionTells(c: Config, r: Request, level: real, left: real)
    requires c.Valid()
    requires level < r.requested ==> left == level
    requires level >= r.requested && 0.0 <= r.requested && level <= c.capacity ==> left == level - r.requested
    ensures Tells(c, r, Replied(Decide(c, level, r.requested)), level, left)
  {
    if level < r.requested {
      var wait := (r.requested - level) / c.rate;
      QuotientIsPositive(r.requested - level, c.rate);
      WholeSeconds(c, wait);
      assert Replied(Decide(c, level, r.requested)).resetAfter == wait.Floor;
      assert Gain(c, wait) == r.requested - level;
    }
  }

  /** The keys left hold the tokens left. */
  lemma {:induction false} TokensLeft(c: Config, b: Option<Bucket>, r: Request)
    requires c.Valid() && Alive(b, r.clock) == b
    ensures var level, left := Level(c, b, r.now), Level(c, Alive(After(c, b, r), r.clock), r.now);
            && (level < r.requested ==> left == level)
            && (level >= r.requested && 0.0 <= r.requested && level <= c.capacity ==> left == level - r.requested)
  {
    TtlIsPositive(c);
  }

  lemma {:induction false} MoreTimeMoreGain(c: Config, a: real, b: real)
    requires c.Valid()
    ensures a <= b ==> Gain(c, a) <= Gain(c, b)
    ensures a < b ==> Gain(c, a) < Gain(c, b)
  {
    if a < b {
      StrictGain(a, b, c.rate);
    }
  }

  lemma {:induction false} WholeSeconds(c: Config, wait: real)
    requires wait >= 0.0 && c.Valid()
    ensures Gain(c, wait.Floor as real) <= Gain(c, wait) < Gain(c, wait.Floor as real + 1.0)
  {
    hide Gain;
    MoreTimeMoreGain(c, wait.Floor as real, wait);
    MoreTimeMoreGain(c, wait, wait.Floor as real + 1.0);
  }

  class Redis {
    var tokens: Option<real>
    var ts: Option<real>
    var expiresAt: real

    ghost predicate Valid()
      reads this
    {
      tokens.Some? <==> ts.Some?
    }

    ghost function Keys(): Option<Bucket>
      requires Valid()
      reads this
    {
      if tokens.Some? then Some(Bucket(tokens.value, ts.value, expiresAt)) else None
    }

    constructor ()
      ensures Valid() && Keys() == None
    {
      tokens, ts, expiresAt := None, None, 0.0;
    }

    /** The script, which Redis runs atomically at its time `clock`. */
    method Script(c: Config, r: Request) returns (v: Verdict)
      requires c.Valid() && Valid()
      modifies this
      ensures Valid()
      ensures v == Decide(c, Level(c, Alive(old(Keys()), r.clock), r.now), r.requested)
      ensures Alive(Keys(), r.clock) == Alive(After(c, Alive(old(Keys()), r.clock), r), r.clock)
      ensures Level(c, Alive(old(Keys()), r.clock), r.now) < r.requested ==> Keys() == old(Keys())
      ensures Level(c, Alive(old(Keys()), r.clock), r.now) >= r.requested ==>
                && Keys().Some? && Keys().value.ts == r.now
                && r.clock + 2.0 * FillTime(c) <= Keys().value.expiresAt < r.clock + 2.0 * FillTime(c) + 1.0
    {
      var fillTime := c.capacity / c.rate;
      var ttl := Ceil(fillTime * 2.0);
      TtlIsPositive(c);
      var expired := r.clock >= expiresAt;
      var lastTokens := c.capacity;
      if tokens.Some? && !expired {
        lastTokens := tokens.value;
      }
      var lastTs := r.now;
      if ts.Some? && !expired {
        lastTs := ts.value;
      }
      var delta := if r.now - lastTs >= 0.0 then r.now - lastTs else 0.0;
      var filled := Min(c.capacity, lastTokens + delta * c.rate);
      var allowed, remaining, resetAfter := false, filled, 0.0;
      if filled >= r.requested {
        allowed := true;
        filled := filled - r.requested;
        remaining := filled;
      } else {
        resetAfter := (r.requested - filled) / c.rate;
      }
      if allowed {
        tokens, ts := Some(filled), Some(r.now);
        expiresAt := r.clock + ttl as real;
      }
      v := Verdict(allowed, remaining, resetAfter);
    }

    /** A request as the middleware makes it: the script runs, and Redis hands on what it returns. */
    method TokenBucket(c: Config, r: Request) returns (reply: Reply)
      requires c.Valid() && Valid()
      modifies this
      ensures Valid()
      ensures reply == Replied(Decide(c, Level(c, Alive(old(Keys()), r.clock), r.now), r.requested))
      ensures Alive(Keys(), r.clock) == Alive(After(c, Alive(old(Keys()), r.clock), r), r.clock)
      ensures Level(c, Alive(old(Keys()), r.clock), r.now) < r.requested ==> Keys() == old(Keys())
      ensures Level(c, Alive(old(Keys()), r.clock), r.now) >= r.requested ==>
                && Keys().Some? && Keys().value.ts == r.now
                && r.clock + 2.0 * FillTime(c) <= Keys().value.expiresAt < r.clock + 2.0 * FillTime(c) + 1.0
      ensures Tells(c, r, reply, Level(c, Alive(old(Keys()), r.clock), r.now), Level(c, Alive(Keys(), r.clock), r.now))
    {
      hide Decide, Level, After, Tells, Replied;
      ghost var found := Alive(Keys(), r.clock);
      TokensLeft(c, found, r);
      var v := Script(c, r);
      DecisionTells(c, r, Level(c, found, r.now), Level(c, Alive(Keys(), r.clock), r.now));
      reply := Replied(v);
    }
  }

  lemma {:induction false} TtlIsPositive(c: Config)
    requires c.Valid()
    ensures Ttl(c) as real >= FillTime(c) * 2.0 > 0.0
  {
    QuotientIsPositive(c.capacity, c.rate);
  }

  lemma {:induction false} QuotientIsPositive(a: real, b: real)
    requires a > 0.0 && b > 0.0
    ensures a / b > 0.0 && (a / b) * b == a
  {
  }

  // ----- the reference: a bucket that always writes and never expires -----

  datatype Eager = Eager(tokens: real, ts: real)

  function EagerLevel(c: Config, e: Eager, now: real): real {
    Min(c.capacity, e.tokens + (if now > e.ts then now - e.ts else 0.0) * c.rate)
  }

  function EagerAfter(c: Config, e: Eager, r: Request): Eager {
    var level := EagerLevel(c, e, r.now);
    Eager(if level >= r.requested then level - r.requested else level, r.now)
  }

  /** The stored keys, refilled up to the reference's last write, agree with the reference. */
  ghost predicate Related(c: Config, b: Option<Bucket>, e: Eager) {
    && c.Valid()
    && 0.0 <= e.tokens <= c.capacity
    && e.tokens == Level(c, b, e.ts)
    && (b.Some? ==> 0.0 <= b.value.tokens <= c.capacity && b.value.ts <= e.ts)
  }

  /** A later request whose two clocks have not drifted apart by more than one fill time since the
      keys were written. */
  ghost predicate Fits(c: Config, b: Option<Bucket>, r: Request)
    requires c.Valid()
  {
    b.Some? ==>
      var wroteAt := b.value.expiresAt - Ttl(c) as real;
      r.now >= b.value.ts && r.now - b.value.ts >= (r.clock - wroteAt) - FillTime(c)
  }

  /** Refilling in two stretches is refilling once. */
  lemma {:induction false} RefillAdds(c: Config, tokens: real, t0: real, t1: real, t2: real)
    requires c.Valid() && t0 <= t1 <= t2 && tokens <= c.capacity
    ensures Min(c.capacity, Min(c.capacity, tokens + (t1 - t0) * c.rate) + (t2 - t1) * c.rate)
         == Min(c.capacity, tokens + (t2 - t0) * c.rate)
  {
    GainsAdd(t1 - t0, t2 - t1, c.rate);
    GainIsNonNegative(t2 - t1, c.rate);
  }

  lemma {:induction false} GainsAdd(a: real, b: real, rate: real)
    ensures (a + b) * rate == a * rate + b * rate
  {
  }

  lemma {:induction false} GainIsNonNegative(a: real, b: real)
    requires a >= 0.0 && b > 0.0
    ensures a * b >= 0.0
  {
  }

  lemma {:induction false} GainIsMonotonic(a: real, b: real, rate: real)
    requires a <= b && rate > 0.0
    ensures a * rate <= b * rate
  {
    assert b * rate - a * rate == (b - a) * rate;
    GainIsNonNegative(b - a, rate);
  }

  /** Skipping the write on denial is not observable. */
  lemma {:induction false} SameLevel(c: Config, b: Option<Bucket>, e: Eager, now: real)
    requires Related(c, b, e) && now >= e.ts
    ensures Level(c, b, now) == EagerLevel(c, e, now)
    ensures 0.0 <= Level(c, b, now) <= c.capacity
  {
    GainIsNonNegative(now - e.ts, c.rate);
    if b.Some? {
      RefillAdds(c, b.value.tokens, b.value.ts, e.ts, now);
      GainIsNonNegative(now - b.value.ts, c.rate);
    }
  }

  /** When the keys expire the bucket is full anyway. */
  lemma {:induction false} ExpiryIsInvisible(c: Config, b: Option<Bucket>, r: Request)
    requires c.Valid() && b.Some? && 0.0 <= b.value.tokens && Fits(c, b, r)
    requires r.clock >= b.value.expiresAt
    ensures Level(c, b, r.now) == c.capacity
  {
    TtlIsPositive(c);
    QuotientIsPositive(c.capacity, c.rate);
    assert r.now - b.value.ts >= FillTime(c);
    GainIsMonotonic(FillTime(c), r.now - b.value.ts, c.rate);
  }

  /** The reference may be refilled at any later moment. */
  lemma {:induction false} Refilled(c: Config, b: Option<Bucket>, e: Eager, now: real)
    requires Related(c, b, e) && now >= e.ts
    ensures Related(c, b, Eager(EagerLevel(c, e, now), now))
  {
    SameLevel(c, b, e, now);
  }

  lemma {:induction false} StepAgrees(c: Config, b: Option<Bucket>, e: Eager, r: Request)
    requires Related(c, b, e) && Fits(c, b, r) && r.now >= e.ts && r.requested >= 0.0
    ensures Level(c, Alive(b, r.clock), r.now) == EagerLevel(c, e, r.now)
    ensures Related(c, After(c, Alive(b, r.clock), r), EagerAfter(c, e, r))
  {
    SameLevel(c, b, e, r.now);
    if b.Some? && r.clock >= b.value.expiresAt {
      ExpiryIsInvisible(c, b, r);
    }
    var level := EagerLevel(c, e, r.now);
    if level < r.requested {
      Refilled(c, b, e, r.now);
    }
  }

  // ----- runs -----

  /** Clock readings do not go back, and from one request to a later one Redis' clock gains at most
      one fill time on the callers' clocks. */
  ghost predicate Clocks(c: Config, requests: seq<Request>)
    requires c.Valid()
  {
    && (forall i | 0 <= i < |requests| :: requests[i].requested >= 0.0)
    && (forall i, j | 0 <= i < j < |requests| ::
          && requests[i].now <= requests[j].now
          && requests[j].now - requests[i].now >= (requests[j].clock - requests[i].clock) - FillTime(c))
  }

  /** The keys the i-th request of a run finds, starting from an empty Redis. */
  function KeysAt(c: Config, requests: seq<Request>, i: nat): Option<Bucket>
    requires c.Valid() && i <= |requests|
  {
    if i == 0 then None
    else
      var r := requests[i - 1];
      After(c, Alive(KeysAt(c, requests, i - 1), r.clock), r)
  }

  /** What the reference holds at the same point, starting from a full bucket. */
  function EagerAt(c: Config, requests: seq<Request>, i: nat): Eager
    requires requests != [] && i <= |requests|
  {
    if i == 0 then Eager(c.capacity, requests[0].now)
    else EagerAfter(c, EagerAt(c, requests, i - 1), requests[i - 1])
  }

  function LastNow(requests: seq<Request>, i: nat): real
    requires requests != [] && i <= |requests|
  {
    if i == 0 then requests[0].now else requests[i - 1].now
  }

  /** Keys written by this request fit the later ones; keys it did not write still do. */
  lemma {:induction false} FitsLater(c: Config, b: Option<Bucket>, r: Request, later: Request)
    requires c.Valid() && Fits(c, b, later) && r.now <= later.now
    requires later.now - r.now >= (later.clock - r.clock) - FillTime(c)
    ensures Fits(c, After(c, Alive(b, r.clock), r), later)
  {
  }

  /** At every point of a run the keys and the reference agree, and fit the requests to come. */
  lemma {:induction false} AgreeAt(c: Config, requests: seq<Request>, i: nat)
    requires c.Valid() && Clocks(c, requests) && requests != [] && i <= |requests|
    ensures Related(c, KeysAt(c, requests, i), EagerAt(c, requests, i))
    ensures EagerAt(c, requests, i).ts == LastNow(requests, i)
    ensures forall j | i <= j < |requests| :: Fits(c, KeysAt(c, requests, i), requests[j])
    decreases i
  {
    if i > 0 {
      AgreeAt(c, requests, i - 1);
      var b, r := KeysAt(c, requests, i - 1), requests[i - 1];
      StepAgrees(c, b, EagerAt(c, requests, i - 1), r);
      forall j | i <= j < |requests|
        ensures Fits(c, KeysAt(c, requests, i), requests[j])
      {
        FitsLater(c, b, r, requests[j]);
      }
    }
  }

  /** The script's answer to the i-th request of a run. */
  function VerdictAt(c: Config, requests: seq<Request>, i: nat): Verdict
    requires c.Valid() && i < |requests|
  {
    var r := requests[i];
    Decide(c, Level(c, Alive(KeysAt(c, requests, i), r.clock), r.now), r.requested)
  }

  /** What the caller of the i-th request is told. */
  function ReplyAt(c: Config, requests: seq<Request>, i: nat): Reply
    requires c.Valid() && i < |requests|
  {
    Replied(VerdictAt(c, requests, i))
  }

  /** Lazy refill, no write on denial, and key expiry change no answer: on every run every caller is
      admitted exactly if the bucket that always writes and never expires has enough for it, and is told
      the whole tokens that bucket has left and the whole seconds it will take to have enough. */
  lemma {:induction false} LazyEqualsEager(c: Config, requests: seq<Request>, i: nat)
    requires c.Valid() && Clocks(c, requests) && i < |requests|
    ensures VerdictAt(c, requests, i)
         == Decide(c, EagerLevel(c, EagerAt(c, requests, i), requests[i].now), requests[i].requested)
    ensures Tells(c, requests[i], ReplyAt(c, requests, i),
                  EagerLevel(c, EagerAt(c, requests, i), requests[i].now), EagerAt(c, requests, i + 1).tokens)
  {
    hide Tells, Decide, Replied;
    AgreeAt(c, requests, i);
    StepAgrees(c, KeysAt(c, requests, i), EagerAt(c, requests, i), requests[i]);
    DecisionTells(c, requests[i], EagerLevel(c, EagerAt(c, requests, i), requests[i].now),
                  EagerAt(c, requests, i + 1).tokens);
  }

  /** The tokens granted to the requests from the i-th up to, not including, the j-th. */
  function Granted(c: Config, requests: seq<Request>, i: nat, j: nat): real
    requires c.Valid() && i <= j <= |requests|
  {
    if i == j then 0.0
    else
      Granted(c, requests, i, j - 1)
      + (if ReplyAt(c, requests, j - 1).allowed == 1 then requests[j - 1].requested else 0.0)
  }

  /** What one request is granted comes out of the refilled tokens of the reference. */
  lemma {:induction false} GrantIsPaidFor(c: Config, requests: seq<Request>, i: nat)
    requires c.Valid() && Clocks(c, requests) && i < |requests|
    ensures (if ReplyAt(c, requests, i).allowed == 1 then requests[i].requested else 0.0)
            + EagerAt(c, requests, i + 1).tokens
         == EagerLevel(c, EagerAt(c, requests, i), requests[i].now)
  {
    LazyEqualsEager(c, requests, i);
  }

  /** The tokens the rate yields between two clock readings. */
  function Yield(c: Config, from: real, to: real): real {
    (to - from) * c.rate
  }

  lemma {:induction false} YieldsAdd(c: Config, t0: real, t1: real, t2: real)
    ensures Yield(c, t0, t1) + Yield(c, t1, t2) == Yield(c, t0, t2)
  {
    GainsAdd(t1 - t0, t2 - t1, c.rate);
  }

  lemma {:induction false} EagerLevelIsBounded(c: Config, e: Eager, now: real)
    requires c.Valid() && now >= e.ts
    ensures EagerLevel(c, e, now) <= c.capacity && EagerLevel(c, e, now) <= e.tokens + Yield(c, e.ts, now)
  {
  }

  /** Everything granted since the i-th request, and the tokens left, come out of one full bucket
      and the refill since. */
  lemma {:induction false} GrantsArePaidFor(c: Config, requests: seq<Request>, i: nat, j: nat)
    requires c.Valid() && Clocks(c, requests) && i < j <= |requests|
    ensures Granted(c, requests, i, j) + EagerAt(c, requests, j).tokens
         <= c.capacity + Yield(c, requests[i].now, requests[j - 1].now)
    decreases j
  {
    hide After, EagerAfter, EagerLevel, Level, Related, ReplyAt, Yield;
    var last := requests[j - 1].now;
    GrantIsPaidFor(c, requests, j - 1);
    AgreeAt(c, requests, j - 1);
    EagerLevelIsBounded(c, EagerAt(c, requests, j - 1), last);
    if i == j - 1 {
      YieldsAdd(c, last, last, last);
    } else {
      GrantsArePaidFor(c, requests, i, j - 1);
      YieldsAdd(c, requests[i].now, requests[j - 2].now, last);
    }
  }

  lemma {:induction false} TokensStayInRange(c: Config, requests: seq<Request>, i: nat)
    requires c.Valid() && Clocks(c, requests) && requests != [] && i <= |requests|
    ensures EagerAt(c, requests, i).tokens >= 0.0
    ensures KeysAt(c, requests, i).Some? ==> 0.0 <= KeysAt(c, requests, i).value.tokens <= c.capacity
  {
    AgreeAt(c, requests, i);
  }

  /** The window bound: the requests from the i-th to the j-th of any run are granted at most the
      capacity plus what the rate yields between them; and the stored tokens stay between zero and
      the capacity. */
  lemma {:induction false} WindowBound(c: Config, requests: seq<Request>, i: nat, j: nat)
    requires c.Valid() && Clocks(c, requests) && i <= j < |requests|
    ensures Granted(c, requests, i, j + 1) <= c.capacity + Yield(c, requests[i].now, requests[j].now)
    ensures KeysAt(c, requests, i).Some? ==> 0.0 <= KeysAt(c, requests, i).value.tokens <= c.capacity
  {
    hide After, EagerAfter, EagerLevel, Level, ReplyAt, Yield;
    GrantsArePaidFor(c, requests, i, j + 1);
    TokensStayInRange(c, requests, j + 1);
    TokensStayInRange(c, requests, i);
  }

  /** A denied caller that alone waits as long as told is admitted, and not a moment earlier;
      unless it asks for more than the bucket can ever hold. */
  lemma {:induction false} ResetAfterIsExact(c: Config, b: Option<Bucket>, now: real, requested: real, later: real)
    requires c.Valid() && (b.Some? ==> b.value.ts <= now) && now <= later
    requires Level(c, b, now) < requested
    ensures var wait := Decide(c, Level(c, b, now), requested).resetAfter;
            Level(c, b, later) >= requested <==> requested <= c.capacity && later - now >= wait
  {
    if b.Some? && requested <= c.capacity {
      var missing := requested - Level(c, b, now);
      var ts := b.value.ts;
      assert (later - ts) * c.rate == (now - ts) * c.rate + (later - now) * c.rate;
      QuotientIsPositive(missing, c.rate);
      if later - now >= missing / c.rate {
        GainIsMonotonic(missing / c.rate, later - now, c.rate);
      } else {
        StrictGain(later - now, missing / c.rate, c.rate);
      }
    }
  }

  /** What the caller is told is the truncated wait. If it waits just that long it is admitted only when
      nothing was cut off; and one that asks for a single token at a rate of at least one per second is
      told to wait 0 seconds, unless the rate is exactly one and the bucket empty. */
  lemma {:induction false} ToldTooEarly(c: Config, b: Option<Bucket>, now: real, requested: real)
    requires c.Valid() && (b.Some? ==> b.value.ts <= now)
    requires Level(c, b, now) < requested
    ensures var v := Decide(c, Level(c, b, now), requested);
            var told := Replied(v).resetAfter as real;
            && 0.0 <= told <= v.resetAfter < told + 1.0
            && (Level(c, b, now + told) >= requested <==> requested <= c.capacity && told == v.resetAfter)
            && (requested == 1.0 <= c.rate && Level(c, b, now) >= 0.0 ==>
                  (told != 0.0 <==> c.rate == 1.0 && Level(c, b, now) == 0.0))
  {
    var level := Level(c, b, now);
    var wait := Decide(c, level, requested).resetAfter;
    QuotientIsPositive(requested - level, c.rate);
    ResetAfterIsExact(c, b, now, requested, now + wait.Floor as real);
    if requested == 1.0 <= c.rate && level >= 0.0 {
      WaitIsShort(1.0 - level, c.rate);
    }
  }

  lemma {:induction false} WaitIsShort(missing: real, rate: real)
    requires 0.0 < missing <= 1.0 <= rate
    ensures missing / rate <= 1.0
    ensures missing / rate == 1.0 <==> missing == rate == 1.0
  {
    var wait := missing / rate;
    assert wait * rate == missing;
    if wait >= 1.0 && !(wait == 1.0 && rate == 1.0) {
      if wait > 1.0 {
        StrictGain(1.0, wait, rate);
      }
    }
  }

  lemma {:induction false} StrictGain(a: real, b: real, rate: real)
    requires a < b && rate > 0.0
    ensures a * rate < b * rate
  {
    assert b * rate - a * rate == (b - a) * rate;
    ProductIsPositive(b - a, rate);
  }

  lemma {:induction false} ProductIsPositive(a: real, b: real)
    requires a > 0.0 && b > 0.0
    ensures a * b > 0.0
  {
  }
}
