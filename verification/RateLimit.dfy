/**
 * packages/hub/src/ratelimit.ts: token buckets refilled by arithmetic, and the sweep that drops
 * buckets nobody can tell from absent ones. Tokens and seconds are reals, so the rounding of
 * floating point is not modelled; the clock is in whole milliseconds.
 */
module RateLimit {
  import opened Wrappers

  datatype Config = Config(capacity: real, refillPerSecond: real) {
    predicate Valid() { capacity >= 0.0 && refillPerSecond > 0.0 }
  }

  datatype Bucket = Bucket(tokens: real, updatedAt: int)

  datatype Decision = Decision(ok: bool, retryAfter: int, remaining: int)

  function MinReal(a: real, b: real): real { if a < b then a else b }

  function MaxReal(a: real, b: real): real { if a < b then b else a }

  function MaxInt(a: int, b: int): int { if a < b then b else a }

  function Ceil(x: real): int { -((-x).Floor) }

  function Get(buckets: map<string, Bucket>, key: string): Option<Bucket> {
    if key in buckets then Some(buckets[key]) else None
  }

  function Seconds(ms: int): real { ms as real / 1000.0 }

  /** The tokens added over a stretch of time. */
  function Refill(c: Config, ms: int): real { Seconds(ms) * c.refillPerSecond }

  /** The tokens a bucket holds at `t`, a missing one being full. */
  function Level(c: Config, b: Option<Bucket>, t: int): real {
    match b
    case None => c.capacity
    case Some(b) =>
      MinReal(c.capacity, b.tokens + Refill(c, MaxInt(0, t - b.updatedAt)))
  }

  function Decide(c: Config, b: Option<Bucket>, t: int, cost: real): Decision
    requires c.Valid()
  {
    var tokens := Level(c, b, t);
    if tokens >= cost then Decision(true, 0, (tokens - cost).Floor)
    else Decision(false, MaxInt(1, Ceil((cost - tokens) / c.refillPerSecond)), 0)
  }

  function After(c: Config, b: Option<Bucket>, t: int, cost: real): Bucket {
    var tokens := Level(c, b, t);
    Bucket(if tokens >= cost then tokens - cost else tokens, t)
  }

  /** The age, in milliseconds, beyond which the sweep drops a bucket. */
  function FullAfter(c: Config): real
    requires c.Valid()
  {
    c.capacity / c.refillPerSecond * 1000.0
  }

  predicate Stale(c: Config, b: Bucket, t: int)
    requires c.Valid()
  {
    (t - b.updatedAt) as real > FullAfter(c)
  }

  function Swept(c: Config, buckets: map<string, Bucket>, t: int): map<string, Bucket>
    requires c.Valid()
  {
    map key | key in buckets && !Stale(c, buckets[key], t) :: buckets[key]
  }

  class RateLimiter {
    const config: Config
    var buckets: map<string, Bucket>
    var refusals: nat

    constructor (config: Config)
      ensures this.config == config && buckets == map[] && refusals == 0
    {
      this.config := config;
      buckets, refusals := map[], 0;
    }

    method Take(key: string, cost: real, now: int) returns (d: Decision)
      requires config.Valid()
      modifies this
      ensures d == Decide(config, Get(old(buckets), key), now, cost)
      ensures buckets == old(buckets)[key := After(config, Get(old(buckets), key), now, cost)]
      ensures refusals == old(refusals) + if d.ok then 0 else 1
    {
      var b := if key in buckets then buckets[key] else Bucket(config.capacity, now);
      var elapsed := MaxReal(0.0, Seconds(now - b.updatedAt));
      b := b.(tokens := MinReal(config.capacity, b.tokens + elapsed * config.refillPerSecond));
      b := b.(updatedAt := now);
      if b.tokens >= cost {
        b := b.(tokens := b.tokens - cost);
        buckets := buckets[key := b];
        return Decision(true, 0, b.tokens.Floor);
      }
      buckets := buckets[key := b];
      refusals := refusals + 1;
      var deficit := cost - b.tokens;
      return Decision(false, MaxInt(1, Ceil(deficit / config.refillPerSecond)), 0);
    }

    method Sweep(now: int) returns (dropped: nat)
      requires config.Valid()
      modifies this`buckets
      ensures buckets == Swept(config, old(buckets), now)
      ensures dropped == |old(buckets)| - |buckets|
    {
      var full := config.capacity / config.refillPerSecond * 1000.0;
      dropped := 0;
      var left := buckets.Keys;
      while left != {}
        invariant left <= old(buckets).Keys
        invariant forall key :: key in old(buckets) ==>
          (key in buckets <==> key in left || !Stale(config, old(buckets)[key], now))
        invariant buckets.Keys <= old(buckets).Keys
        invariant forall key :: key in buckets ==> buckets[key] == old(buckets)[key]
        invariant dropped == |old(buckets)| - |buckets|
        decreases left
      {
        var key :| key in left;
        left := left - {key};
        if (now - buckets[key].updatedAt) as real > full {
          buckets := buckets - {key};
          dropped := dropped + 1;
        }
      }
    }
  }

  // ----- Runs -----

  datatype Event = Take(key: string, cost: real, at: int) | Sweep(at: int)

  function Step(c: Config, m: map<string, Bucket>, e: Event): map<string, Bucket>
    requires c.Valid()
  {
    match e
    case Take(key, cost, at) => m[key := After(c, Get(m, key), at, cost)]
    case Sweep(at) => Swept(c, m, at)
  }

  /** Every answer of a run, in order. */
  function Decisions(c: Config, m: map<string, Bucket>, es: seq<Event>): seq<Decision>
    requires c.Valid()
    decreases |es|
  {
    if es == [] then []
    else
      var rest := Decisions(c, Step(c, m, es[0]), es[1..]);
      if es[0].Take? then [Decide(c, Get(m, es[0].key), es[0].at, es[0].cost)] + rest else rest
  }

  /** What a run grants one key between two instants, both included. */
  function Admitted(c: Config, m: map<string, Bucket>, es: seq<Event>, key: string, from: int, to: int): real
    requires c.Valid()
    decreases |es|
  {
    if es == [] then 0.0
    else
      var e := es[0];
      var rest := Admitted(c, Step(c, m, e), es[1..], key, from, to);
      if e.Take? && e.key == key && from <= e.at <= to && Decide(c, Get(m, key), e.at, e.cost).ok
      then e.cost + rest else rest
  }

  /** The clock never goes back and no request has a negative cost. */
  predicate Plausible(es: seq<Event>, clock: int) {
    es == [] ||
    (es[0].at >= clock && (es[0].Take? ==> es[0].cost >= 0.0) && Plausible(es[1..], es[0].at))
  }

  predicate Sound(c: Config, m: map<string, Bucket>, clock: int) {
    forall key :: key in m ==> 0.0 <= m[key].tokens <= c.capacity && m[key].updatedAt <= clock
  }

  // ----- One bucket over time -----

  lemma MulMonotone(a: real, b: real, r: real)
    requires a <= b && r >= 0.0
    ensures a * r <= b * r
  {
  }

  lemma RefillAdds(c: Config, a: int, b: int)
    requires c.Valid() && a >= 0 && b >= 0
    ensures Refill(c, a + b) == Refill(c, a) + Refill(c, b)
    ensures Refill(c, a) >= 0.0 && Refill(c, b) >= 0.0
  {
    assert Seconds(a + b) == Seconds(a) + Seconds(b);
    MulMonotone(0.0, Seconds(a), c.refillPerSecond);
    MulMonotone(0.0, Seconds(b), c.refillPerSecond);
  }

  ghost predicate SoundBucket(c: Config, b: Option<Bucket>, clock: int) {
    b.Some? ==> 0.0 <= b.value.tokens <= c.capacity && b.value.updatedAt <= clock
  }

  /** Left alone, a bucket loses nothing and gains at most what the refill rate allows. */
  lemma LevelGrows(c: Config, b: Option<Bucket>, t: int, u: int)
    requires c.Valid() && SoundBucket(c, b, t) && t <= u
    ensures 0.0 <= Level(c, b, t) <= Level(c, b, u) <= c.capacity
    ensures Level(c, b, u) <= Level(c, b, t) + Refill(c, u - t)
  {
    RefillAdds(c, 0, u - t);
    if b.Some? {
      RefillAdds(c, t - b.value.updatedAt, u - t);
    }
  }

  lemma StaleIsFull(c: Config, b: Bucket, t: int)
    requires c.Valid() && b.tokens >= 0.0 && Stale(c, b, t)
    ensures Level(c, Some(b), t) == c.capacity
  {
    var r := c.refillPerSecond;
    var elapsed := Seconds(t - b.updatedAt);
    assert elapsed > c.capacity / r;
    MulMonotone(c.capacity / r, elapsed, r);
    assert c.capacity / r * r == c.capacity;
    assert t - b.updatedAt >= 0;
  }

  lemma StepIsSound(c: Config, m: map<string, Bucket>, e: Event, clock: int)
    requires c.Valid() && Sound(c, m, clock) && e.at >= clock && (e.Take? ==> e.cost >= 0.0)
    ensures Sound(c, Step(c, m, e), e.at)
  {
    if e.Take? { LevelGrows(c, Get(m, e.key), e.at, e.at); }
  }

  ghost predicate InRange(c: Config, m: map<string, Bucket>) {
    forall key :: key in m ==> 0.0 <= m[key].tokens <= c.capacity
  }

  lemma RefillGrows(c: Config, a: int, b: int)
    requires c.Valid() && a <= b
    ensures Refill(c, a) <= Refill(c, b)
  {
    MulMonotone(Seconds(a), Seconds(b), c.refillPerSecond);
  }

  lemma CapKeepsGain(capacity: real, tokens: real, was: real, now: real, gain: real)
    requires 0.0 <= gain && now <= was + gain
    ensures MinReal(capacity, tokens + now) <= MinReal(capacity, tokens + was) + gain
  {
  }

  /** Wherever the clock moves, a bucket gains no more than the refill of a move forward. */
  lemma LevelMoves(c: Config, b: Option<Bucket>, t: int, u: int)
    requires c.Valid() && (b.Some? ==> 0.0 <= b.value.tokens <= c.capacity)
    ensures 0.0 <= Level(c, b, t) <= c.capacity
    ensures Level(c, b, u) <= Level(c, b, t) + Refill(c, MaxInt(0, u - t))
  {
    RefillAdds(c, 0, MaxInt(0, u - t));
    if b.Some? {
      var past, gap := MaxInt(0, t - b.value.updatedAt), MaxInt(0, u - t);
      var now := MaxInt(0, u - b.value.updatedAt);
      RefillAdds(c, past, gap);
      RefillGrows(c, now, past + gap);
      CapKeepsGain(c.capacity, b.value.tokens, Refill(c, past), Refill(c, now), Refill(c, gap));
    }
  }

  function Granted(c: Config, m: map<string, Bucket>, e: Event, key: string): real
    requires c.Valid()
  {
    if e.Take? && e.key == key && Decide(c, Get(m, key), e.at, e.cost).ok then e.cost else 0.0
  }

  lemma StepPaysForGrant(c: Config, m: map<string, Bucket>, e: Event, key: string)
    requires c.Valid() && InRange(c, m) && (e.Take? ==> e.cost >= 0.0)
    ensures Level(c, Get(Step(c, m, e), key), e.at) + Granted(c, m, e, key) == Level(c, Get(m, key), e.at)
  {
    if e.Take? && e.key == key {
      LevelMoves(c, Get(m, key), e.at, e.at);
      assert Refill(c, 0) == 0.0;
    } else if e.Sweep? && key in m && Stale(c, m[key], e.at) {
      StaleIsFull(c, m[key], e.at);
    }
  }

  // ----- The window bound -----

  /** What may still be granted in the window, seen from `clock`. */
  function Allowance(c: Config, m: map<string, Bucket>, key: string, clock: int, from: int, to: int): real {
    if clock < from then c.capacity + Refill(c, to - from)
    else if clock <= to then Level(c, Get(m, key), clock) + Refill(c, to - clock)
    else 0.0
  }

  lemma {:induction false} AdmittedWithinAllowance(
    c: Config, m: map<string, Bucket>, es: seq<Event>, key: string, clock: int, from: int, to: int)
    requires c.Valid() && Sound(c, m, clock) && Plausible(es, clock) && from <= to
    ensures Admitted(c, m, es, key, from, to) <= Allowance(c, m, key, clock, from, to)
    decreases |es|
  {
    if es == [] {
      LevelGrows(c, Get(m, key), clock, clock);
      RefillAdds(c, 0, to - from);
      if clock <= to { RefillAdds(c, 0, to - clock); }
    } else {
      var e := es[0];
      StepIsSound(c, m, e, clock);
      AdmittedWithinAllowance(c, Step(c, m, e), es[1..], key, e.at, from, to);
      AllowanceCovers(c, m, e, key, clock, from, to);
    }
  }

  /** One event: what it grants and what may be granted after it fit in what was allowed before it. */
  lemma AllowanceCovers(c: Config, m: map<string, Bucket>, e: Event, key: string, clock: int, from: int, to: int)
    requires c.Valid() && Sound(c, m, clock) && e.at >= clock && from <= to && (e.Take? ==> e.cost >= 0.0)
    ensures (if from <= e.at <= to then Granted(c, m, e, key) else 0.0)
      + Allowance(c, Step(c, m, e), key, e.at, from, to) <= Allowance(c, m, key, clock, from, to)
  {
    LevelGrows(c, Get(m, key), clock, e.at);
    StepPaysForGrant(c, m, e, key);
    RefillAdds(c, 0, to - from);
    if clock <= to { RefillAdds(c, 0, to - clock); }
    if from <= e.at <= to {
      RefillAdds(c, e.at - from, to - e.at);
      if clock >= from { RefillAdds(c, e.at - clock, to - e.at); }
    }
  }

  /**
   * The limit. From an empty limiter, over any run of takes and sweeps on a clock that never goes
   * back, what one key is granted in any interval is at most the capacity plus the refill of that
   * interval.
   */
  lemma WindowBound(c: Config, es: seq<Event>, key: string, start: int, from: int, to: int)
    requires c.Valid() && Plausible(es, start) && from <= to
    ensures Admitted(c, map[], es, key, from, to) <= c.capacity + Refill(c, to - from)
  {
    AdmittedWithinAllowance(c, map[], es, key, start, from, to);
    RefillAdds(c, 0, to - from);
    if from < start <= to { RefillAdds(c, start - from, to - start); }
  }

  // ----- Any clock -----

  predicate NoNegativeCosts(es: seq<Event>) { forall i :: 0 <= i < |es| && es[i].Take? ==> es[i].cost >= 0.0 }

  function AfterAll(c: Config, m: map<string, Bucket>, es: seq<Event>): map<string, Bucket>
    requires c.Valid()
    decreases |es|
  {
    if es == [] then m else AfterAll(c, Step(c, m, es[0]), es[1..])
  }

  /** What a run grants one key. */
  function GrantedOver(c: Config, m: map<string, Bucket>, es: seq<Event>, key: string): real
    requires c.Valid()
    decreases |es|
  {
    if es == [] then 0.0 else Granted(c, m, es[0], key) + GrantedOver(c, Step(c, m, es[0]), es[1..], key)
  }

  /** How far the clock goes forward from the first event to the last, its steps back not counted against it. */
  function Forward(es: seq<Event>): int {
    if |es| < 2 then 0 else MaxInt(0, es[1].at - es[0].at) + Forward(es[1..])
  }

  lemma StepStaysInRange(c: Config, m: map<string, Bucket>, e: Event)
    requires c.Valid() && InRange(c, m) && (e.Take? ==> e.cost >= 0.0)
    ensures InRange(c, Step(c, m, e))
  {
    if e.Take? { LevelMoves(c, Get(m, e.key), e.at, e.at); }
  }

  lemma {:induction false} StaysInRange(c: Config, m: map<string, Bucket>, es: seq<Event>)
    requires c.Valid() && InRange(c, m) && NoNegativeCosts(es)
    ensures InRange(c, AfterAll(c, m, es))
    decreases |es|
  {
    if es != [] {
      StepStaysInRange(c, m, es[0]);
      StaysInRange(c, Step(c, m, es[0]), es[1..]);
    }
  }

  lemma {:induction false} GrantedWithinForward(c: Config, m: map<string, Bucket>, es: seq<Event>, key: string)
    requires c.Valid() && InRange(c, m) && NoNegativeCosts(es) && es != []
    ensures GrantedOver(c, m, es, key) <= Level(c, Get(m, key), es[0].at) + Refill(c, Forward(es))
    decreases |es|
  {
    var next := Step(c, m, es[0]);
    StepStaysInRange(c, m, es[0]);
    StepPaysForGrant(c, m, es[0], key);
    LevelMoves(c, Get(next, key), es[0].at, es[0].at);
    if |es| > 1 {
      GrantedWithinForward(c, next, es[1..], key);
      LevelMoves(c, Get(next, key), es[0].at, es[1].at);
      ForwardIsNotNegative(es[1..]);
      RefillAdds(c, MaxInt(0, es[1].at - es[0].at), Forward(es[1..]));
    } else {
      assert GrantedOver(c, next, es[1..], key) == 0.0 == Refill(c, 0);
    }
  }

  lemma {:induction false} ForwardIsNotNegative(es: seq<Event>)
    ensures Forward(es) >= 0
  {
    if |es| >= 2 { ForwardIsNotNegative(es[1..]); }
  }

  /**
   * The limit for a clock that is set back and forth at will: over any stretch of any run one key is
   * granted at most the capacity plus the refill of the clock's moves forward.
   */
  lemma ForwardBound(c: Config, before: seq<Event>, es: seq<Event>, key: string)
    requires c.Valid() && NoNegativeCosts(before) && NoNegativeCosts(es)
    ensures GrantedOver(c, AfterAll(c, map[], before), es, key) <= c.capacity + Refill(c, Forward(es))
  {
    var m := AfterAll(c, map[], before);
    StaysInRange(c, map[], before);
    if es != [] {
      GrantedWithinForward(c, m, es, key);
      LevelMoves(c, Get(m, key), es[0].at, es[0].at);
    }
  }

  /** On a clock that never goes back those moves add up to the time elapsed. */
  lemma {:induction false} ForwardIsElapsed(es: seq<Event>, clock: int)
    requires Plausible(es, clock) && es != []
    ensures Forward(es) == es[|es| - 1].at - es[0].at
  {
    if |es| > 1 { ForwardIsElapsed(es[1..], es[0].at); }
  }

  /** Elapsed time alone is no limit for such a clock: set back, it refills the same second twice. */
  lemma ClockSetBackBreaksTheBound()
    ensures var c := Config(1.0, 1.0);
      var es := [Take("k", 1.0, 1000), Take("k", 1.0, 0), Take("k", 1.0, 1000)];
      Admitted(c, map[], es, "k", 1000, 1000) > c.capacity + Refill(c, 0)
  {
    var c := Config(1.0, 1.0);
    var b1 := After(c, None, 1000, 1.0);
    assert b1 == Bucket(0.0, 1000);
    var b2 := After(c, Some(b1), 0, 1.0);
    assert b2 == Bucket(0.0, 0);
    var es := [Take("k", 1.0, 1000), Take("k", 1.0, 0), Take("k", 1.0, 1000)];
    var m1 := Step(c, map[], es[0]);
    assert Get(m1, "k") == Some(b1);
    var m2 := Step(c, m1, es[1]);
    assert Get(m2, "k") == Some(b2);
    var m3 := Step(c, m2, es[2]);
    assert Admitted(c, m3, [], "k", 1000, 1000) == 0.0;
    assert es[1..][1..] == [es[2]] && [es[2]][1..] == [];
    assert Admitted(c, m2, [es[2]], "k", 1000, 1000) == 1.0;
    assert Admitted(c, m1, es[1..], "k", 1000, 1000) == 1.0;
  }

  // ----- The sweep cannot be observed -----

  function TakesOnly(es: seq<Event>): seq<Event> {
    if es == [] then [] else (if es[0].Take? then [es[0]] else []) + TakesOnly(es[1..])
  }

  /** The swept limiter differs from the unswept one only by full buckets it no longer holds. */
  ghost predicate SameButFull(c: Config, swept: map<string, Bucket>, kept: map<string, Bucket>, clock: int) {
    forall key :: key in swept || key in kept ==>
      key in kept && if key in swept then swept[key] == kept[key] else Level(c, Some(kept[key]), clock) == c.capacity
  }

  lemma {:induction false} SweptLimiterAgrees(
    c: Config, swept: map<string, Bucket>, kept: map<string, Bucket>, es: seq<Event>, clock: int)
    requires c.Valid() && Plausible(es, clock)
    requires Sound(c, swept, clock) && Sound(c, kept, clock) && SameButFull(c, swept, kept, clock)
    ensures Decisions(c, swept, es) == Decisions(c, kept, TakesOnly(es))
    decreases |es|
  {
    if es != [] {
      var e := es[0];
      StepIsSound(c, swept, e, clock);
      FullStaysFull(c, swept, kept, clock, e.at);
      if e.Take? {
        StepIsSound(c, kept, e, clock);
        TakeKeepsSame(c, swept, kept, e);
        SweptLimiterAgrees(c, Step(c, swept, e), Step(c, kept, e), es[1..], e.at);
        assert TakesOnly(es)[0] == e && TakesOnly(es)[1..] == TakesOnly(es[1..]);
      } else {
        SweepKeepsSame(c, swept, kept, e);
        SweptLimiterAgrees(c, Step(c, swept, e), kept, es[1..], e.at);
        assert TakesOnly(es) == TakesOnly(es[1..]);
      }
    }
  }

  lemma TakeKeepsSame(c: Config, swept: map<string, Bucket>, kept: map<string, Bucket>, e: Event)
    requires c.Valid() && e.Take? && SameButFull(c, swept, kept, e.at)
    ensures SameButFull(c, Step(c, swept, e), Step(c, kept, e), e.at)
    ensures Decide(c, Get(swept, e.key), e.at, e.cost) == Decide(c, Get(kept, e.key), e.at, e.cost)
  {
    assert Level(c, Get(swept, e.key), e.at) == Level(c, Get(kept, e.key), e.at);
  }

  lemma SweepKeepsSame(c: Config, swept: map<string, Bucket>, kept: map<string, Bucket>, e: Event)
    requires c.Valid() && e.Sweep? && Sound(c, swept, e.at) && SameButFull(c, swept, kept, e.at)
    ensures SameButFull(c, Step(c, swept, e), kept, e.at)
  {
    forall key | key in swept && Stale(c, swept[key], e.at) ensures Level(c, Some(kept[key]), e.at) == c.capacity {
      StaleIsFull(c, swept[key], e.at);
    }
  }

  lemma FullStaysFull(c: Config, swept: map<string, Bucket>, kept: map<string, Bucket>, t: int, u: int)
    requires c.Valid() && Sound(c, kept, t) && SameButFull(c, swept, kept, t) && t <= u
    ensures SameButFull(c, swept, kept, u)
  {
    forall key | key in kept && key !in swept ensures Level(c, Some(kept[key]), u) == c.capacity {
      LevelGrows(c, Some(kept[key]), t, u);
    }
  }

  /** A limiter swept at arbitrary moments answers every take exactly as one never swept. */
  lemma SweepIsUnobservable(c: Config, es: seq<Event>, start: int)
    requires c.Valid() && Plausible(es, start)
    ensures Decisions(c, map[], es) == Decisions(c, map[], TakesOnly(es))
  {
    SweptLimiterAgrees(c, map[], map[], es, start);
  }

  /** The sweep drops exactly the buckets that would have filled up from nothing in the time they have been left. */
  lemma SweptIff(c: Config, buckets: map<string, Bucket>, t: int, key: string)
    requires c.Valid()
    ensures key in Swept(c, buckets, t) <==>
            key in buckets && Refill(c, t - buckets[key].updatedAt) <= c.capacity
    ensures key in Swept(c, buckets, t) ==> Swept(c, buckets, t)[key] == buckets[key]
  {
    if key in buckets { StaleIff(c, buckets[key], t); }
  }

  lemma StaleIff(c: Config, b: Bucket, t: int)
    requires c.Valid()
    ensures Stale(c, b, t) <==> Refill(c, t - b.updatedAt) > c.capacity
  {
    var r, age := c.refillPerSecond, Seconds(t - b.updatedAt);
    assert Stale(c, b, t) <==> age > c.capacity / r;
    assert c.capacity / r * r == c.capacity;
    if age > c.capacity / r {
      assert (age - c.capacity / r) * r > 0.0;
    } else {
      MulMonotone(age, c.capacity / r, r);
    }
  }

  /** What is said to remain is the largest whole cost that would still be granted at that moment. */
  lemma RemainingIsServed(c: Config, b: Option<Bucket>, t: int, cost: real, n: int)
    requires c.Valid() && (b.Some? ==> 0.0 <= b.value.tokens <= c.capacity)
    requires cost >= 0.0 && Decide(c, b, t, cost).ok
    ensures var left := Some(After(c, b, t, cost));
      Decide(c, left, t, n as real).ok <==> n <= Decide(c, b, t, cost).remaining
  {
    LevelMoves(c, b, t, t);
    var left := After(c, b, t, cost);
    assert Refill(c, 0) == 0.0;
    assert Level(c, Some(left), t) == left.tokens;
    FloorIsLargest(left.tokens, n);
  }

  /** A request that is granted need not wait, and one that is refused leaves nothing to be had. */
  lemma AnswersAreOneOrTheOther(c: Config, b: Option<Bucket>, t: int, cost: real)
    requires c.Valid()
    ensures var d := Decide(c, b, t, cost);
      && (d.ok <==> cost <= Level(c, b, t)) && (d.ok <==> d.retryAfter == 0) && (!d.ok ==> d.remaining == 0)
  {
  }

  lemma FloorIsLargest(x: real, n: int)
    ensures x >= n as real <==> n <= x.Floor
  {
  }

  // ----- retryAfter is tight -----

  lemma CeilBounds(x: real)
    ensures Ceil(x) as real - 1.0 < x <= Ceil(x) as real
  {
  }

  /**
   * A refused caller who waits `retryAfter` seconds undisturbed is served exactly when the bucket
   * can hold what it asks for, and any fewer whole seconds fail.
   */
  lemma RetryAfterIsTight(c: Config, b: Option<Bucket>, t: int, cost: real, w: int)
    requires c.Valid() && SoundBucket(c, b, t) && !Decide(c, b, t, cost).ok
    ensures var wait := Decide(c, b, t, cost).retryAfter;
      var left := Some(After(c, b, t, cost));
      && wait >= 1
      && (Decide(c, left, t + 1000 * wait, cost).ok <==> cost <= c.capacity)
      && (0 <= w < wait ==> !Decide(c, left, t + 1000 * w, cost).ok)
  {
    LevelGrows(c, b, t, t);
    var deficit := cost - Level(c, b, t);
    var wait := Decide(c, b, t, cost).retryAfter;
    CeilBounds(deficit / c.refillPerSecond);
    DeficitIsRefilled(c, deficit, wait);
    if 0 < w < wait { DeficitIsRefilled(c, deficit, w); }
    assert Refill(c, 0) == 0.0;
  }

  lemma DeficitIsRefilled(c: Config, deficit: real, seconds: int)
    requires c.Valid() && seconds > 0
    ensures Refill(c, 1000 * seconds) >= deficit <==> seconds as real >= deficit / c.refillPerSecond
  {
    var r := c.refillPerSecond;
    assert Seconds(1000 * seconds) == seconds as real;
    assert deficit / r * r == deficit;
    if seconds as real >= deficit / r {
      MulMonotone(deficit / r, seconds as real, r);
    } else {
      assert (deficit / r - seconds as real) * r > 0.0;
    }
  }
}
