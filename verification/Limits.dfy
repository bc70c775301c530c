/**
 Token buckets, over the reals: the per-subscriber input limits
 (`server/src/relay/mirror.rs`) and the request limits with their sweep
 (`server/src/app.rs`).
 */
module Limits {
  /** What one bucket keeps between calls; times are seconds. */
  datatype Level = Level(tokens: real, last: real)

  /** One request: so many tokens, under a limit of `limit` per `window` seconds. */
  datatype Draw = Draw(amount: real, limit: nat, window: nat, at: real)

  predicate Sane(d: Draw) { 0.0 <= d.amount && 0 < d.window }

  function Rate(limit: nat, window: nat): (rate: real)
    requires 0 < window
    ensures 0.0 <= rate && rate * window as real == limit as real
  {
    limit as real / window as real
  }

  /** What flows in over a stretch of time. */
  function Gain(span: real, limit: nat, window: nat): (gain: real)
    requires 0 < window
    ensures 0.0 <= span ==> 0.0 <= gain
    ensures span == 0.0 ==> gain == 0.0
  {
    span * Rate(limit, window)
  }

  /** Refilled for the time passed, never above the limit now in force. */
  function Refilled(l: Level, limit: nat, window: nat, now: real): (tokens: real)
    requires 0 < window
    ensures tokens <= limit as real
    ensures 0.0 <= l.tokens && l.last <= now ==> 0.0 <= tokens
  {
    var full := l.tokens + Gain(now - l.last, limit, window);
    if full < limit as real then full else limit as real
  }

  function Drawn(l: Level, d: Draw): (r: (Level, bool))
    requires Sane(d)
    ensures 0.0 <= l.tokens && l.last <= d.at ==> 0.0 <= r.0.tokens <= d.limit as real
  {
    var tokens := Refilled(l, d.limit, d.window, d.at);
    if d.amount <= tokens then (Level(tokens - d.amount, d.at), true) else (Level(tokens, d.at), false)
  }

  // -------------------------------------------------------------- what a run is granted

  predicate Ordered(from: real, draws: seq<Draw>)
    decreases |draws|
  {
    draws == [] || (Sane(draws[0]) && from <= draws[0].at && Ordered(draws[0].at, draws[1..]))
  }

  /** The sum of the amounts granted, from any level. */
  function Granted(l: Level, draws: seq<Draw>): real
    requires Ordered(l.last, draws)
    decreases |draws|
  {
    if draws == [] then 0.0
    else
      var (next, ok) := Drawn(l, draws[0]);
      (if ok then draws[0].amount else 0.0) + Granted(next, draws[1..])
  }

  /** What flows in after `from`, each stretch at the limit of the draw that ends it. */
  function Inflow(from: real, draws: seq<Draw>): real
    requires Ordered(from, draws)
    decreases |draws|
  {
    if draws == [] then 0.0
    else Gain(draws[0].at - from, draws[0].limit, draws[0].window) + Inflow(draws[0].at, draws[1..])
  }

  lemma {:induction false} GrantedWithinInflow(l: Level, draws: seq<Draw>)
    requires Ordered(l.last, draws) && 0.0 <= l.tokens
    ensures Granted(l, draws) <= l.tokens + Inflow(l.last, draws)
    decreases |draws|
  {
    if draws != [] {
      GrantedWithinInflow(Drawn(l, draws[0]).0, draws[1..]);
    }
  }

  /**
   However the limit changes on the way, and whatever the level was: no more is granted than
   the limit at the first draw and what flowed in since.
   */
  lemma GrantedWithinBudget(l: Level, draws: seq<Draw>)
    requires draws != [] && Ordered(l.last, draws) && 0.0 <= l.tokens
    ensures Granted(l, draws) <= draws[0].limit as real + Inflow(draws[0].at, draws[1..])
  {
    GrantedWithinInflow(Drawn(l, draws[0]).0, draws[1..]);
  }

  /** A draw costs what it grants: with what may still flow in by `until`, the level never rises. */
  lemma DrawCosts(l: Level, d: Draw, limit: nat, until: real)
    requires Sane(d) && 0.0 <= l.tokens && l.last <= d.at <= until && d.limit <= limit
    ensures var (after, ok) := Drawn(l, d);
            && 0.0 <= after.tokens && after.last == d.at
            && after.tokens + Gain(until - after.last, limit, d.window) + (if ok then d.amount else 0.0)
               <= l.tokens + Gain(until - l.last, limit, d.window)
  {
    Slower(d.at - l.last, d.limit, limit, d.window);
    Spread(l.last, d.at, until, limit, d.window);
  }

  predicate AtMost(draws: seq<Draw>, limit: nat, window: nat) {
    forall d | d in draws :: d.limit <= limit && d.window == window
  }

  lemma Spread(a: real, b: real, c: real, limit: nat, window: nat)
    requires 0 < window
    ensures Gain(b - a, limit, window) + Gain(c - b, limit, window) == Gain(c - a, limit, window)
  {
    var rate := Rate(limit, window);
    assert (b - a) * rate + (c - b) * rate == (c - a) * rate;
  }

  lemma Slower(span: real, limit: nat, cap: nat, window: nat)
    requires 0.0 <= span && limit <= cap && 0 < window
    ensures Gain(span, limit, window) <= Gain(span, cap, window)
  {
    assert Rate(limit, window) <= Rate(cap, window);
  }

  lemma {:induction false} InflowBound(from: real, draws: seq<Draw>, limit: nat, window: nat, until: real)
    requires Ordered(from, draws) && AtMost(draws, limit, window) && 0 < window
    requires from <= until && (draws != [] ==> draws[|draws| - 1].at <= until)
    ensures Inflow(from, draws) <= Gain(until - from, limit, window)
    decreases |draws|
  {
    if draws != [] {
      var first, rest := draws[0], draws[1..];
      LastIsLast(from, draws);
      assert rest != [] ==> rest[|rest| - 1] == draws[|draws| - 1];
      InflowBound(first.at, rest, limit, window, until);
      Slower(first.at - from, first.limit, limit, window);
      Spread(from, first.at, until, limit, window);
    }
  }

  lemma {:induction false} LastIsLast(from: real, draws: seq<Draw>)
    requires draws != [] && Ordered(from, draws)
    ensures draws[0].at <= draws[|draws| - 1].at
    decreases |draws|
  {
    if |draws| > 1 {
      LastIsLast(draws[0].at, draws[1..]);
    }
  }

  lemma InflowAfterFirst(from: real, draws: seq<Draw>, limit: nat, window: nat, until: real)
    requires draws != [] && Ordered(from, draws) && AtMost(draws, limit, window) && 0 < window
    requires draws[|draws| - 1].at <= until
    ensures draws[0].limit <= limit && draws[0].at <= until
    ensures Inflow(draws[0].at, draws[1..]) <= Gain(until - draws[0].at, limit, window)
  {
    var rest := draws[1..];
    LastIsLast(from, draws);
    assert rest != [] ==> rest[|rest| - 1] == draws[|draws| - 1];
    InflowBound(draws[0].at, rest, limit, window, until);
  }

  lemma Chained(a: real, b: real, c: real, d: real, e: real)
    requires a <= b + c && b <= d && c <= e
    ensures a <= d + e
  {
  }

  /**
   In any interval, from any level and under limits that never exceed C: at most C, and C for
   each window's length that passed.
   */
  lemma IntervalBound(l: Level, draws: seq<Draw>, limit: nat, window: nat, until: real)
    requires draws != [] && Ordered(l.last, draws) && 0.0 <= l.tokens
    requires 0 < window && AtMost(draws, limit, window) && draws[|draws| - 1].at <= until
    ensures Granted(l, draws) <= limit as real + Gain(until - draws[0].at, limit, window)
  {
    GrantedWithinBudget(l, draws);
    InflowAfterFirst(l.last, draws, limit, window, until);
    Chained(Granted(l, draws), draws[0].limit as real, Inflow(draws[0].at, draws[1..]),
            limit as real, Gain(until - draws[0].at, limit, window));
  }

  lemma GrantedTwo(l: Level, a: Draw, b: Draw)
    requires Sane(a) && Sane(b) && l.last <= a.at <= b.at
    requires Drawn(l, a).1 && Drawn(Drawn(l, a).0, b).1
    ensures Ordered(l.last, [a, b]) && Granted(l, [a, b]) == a.amount + b.amount
  {
    assert Ordered(a.at, [b]) && Ordered(b.at, []);
    assert [a, b][1..] == [b] && [b][1..] == [];
    assert Granted(Drawn(l, a).0, [b]) == b.amount + Granted(Drawn(Drawn(l, a).0, b).0, []);
  }

  /** The bound is reached: a full bucket drained at once, and again as it refills. */
  lemma BoundIsReached(limit: nat, window: nat, start: real, pause: real)
    requires 0 < window && 0.0 <= pause && Gain(pause, limit, window) <= limit as real
    ensures var draws := [Draw(limit as real, limit, window, start),
                          Draw(Gain(pause, limit, window), limit, window, start + pause)];
            && Ordered(start, draws)
            && Granted(Level(limit as real, start), draws) == limit as real + Gain(pause, limit, window)
  {
    var full, gain := Level(limit as real, start), Gain(pause, limit, window);
    var first, second := Draw(limit as real, limit, window, start), Draw(gain, limit, window, start + pause);
    assert Drawn(full, first) == (Level(0.0, start), true);
    assert second.at - start == pause;
    assert Refilled(Level(0.0, start), limit, window, second.at) == gain;
    GrantedTwo(full, first, second);
  }

  /** One subscriber's input bucket, which re-reads its limit on every call. */
  class Bucket {
    var tokens: real
    var capacity: real
    var refillPerSecond: real
    var last: real

    ghost predicate Valid()
      reads this
    {
      0.0 <= tokens <= capacity && refillPerSecond == capacity / 60.0
    }

    ghost function Now(): Level
      reads this
    {
      Level(tokens, last)
    }

    constructor (perMinute: nat, now: real)
      ensures Valid() && Now() == Level(perMinute as real, now)
    {
      tokens := perMinute as real;
      capacity := perMinute as real;
      refillPerSecond := perMinute as real / 60.0;
      last := now;
    }

    method Take(amount: real, perMinute: nat, now: real) returns (ok: bool)
      requires Valid() && last <= now && 0.0 <= amount
      modifies this
      ensures Valid() && (Now(), ok) == Drawn(old(Now()), Draw(amount, perMinute, 60, now))
    {
      if perMinute as real != capacity {
        capacity := perMinute as real;
        refillPerSecond := perMinute as real / 60.0;
        tokens := if tokens < perMinute as real then tokens else perMinute as real;
      }
      var elapsed := now - last;
      var full := tokens + elapsed * refillPerSecond;
      assert elapsed * refillPerSecond == Gain(now - old(last), perMinute, 60);
      tokens := if full < capacity then full else capacity;
      last := now;
      ok := amount <= tokens;
      if ok {
        tokens := tokens - amount;
      }
    }
  }

  // ----------------------------------------------------------- request limits and the sweep

  type Levels = map<string, Level>

  /** A bucket idle this long is dropped. */
  const IDLE: real := 600.0

  datatype Request = Check(key: string, capacity: int, window: int, at: real) | Sweep(at: real)

  /** One token, from a bucket that starts full. */
  function Checked(m: Levels, key: string, capacity: int, window: int, now: real): (Levels, bool) {
    if capacity <= 0 || window <= 0 then (m, false)
    else
      var l := if key in m then m[key] else Level(capacity as real, now);
      var (next, ok) := Drawn(l, Draw(1.0, capacity, window, now));
      (m[key := next], ok)
  }

  function Swept(m: Levels, now: real): Levels {
    map k | k in m && now - m[k].last < IDLE :: m[k]
  }

  /** The answers a run of requests gets, with the sweeps in it honoured or not. */
  function Decisions(m: Levels, requests: seq<Request>, sweeping: bool): seq<bool>
    decreases |requests|
  {
    if requests == [] then []
    else match requests[0]
      case Check(key, capacity, window, at) =>
        var (next, ok) := Checked(m, key, capacity, window, at);
        [ok] + Decisions(next, requests[1..], sweeping)
      case Sweep(at) =>
        Decisions(if sweeping then Swept(m, at) else m, requests[1..], sweeping)
  }

  predicate InTime(from: real, requests: seq<Request>)
    decreases |requests|
  {
    requests == [] || (from <= requests[0].at && InTime(requests[0].at, requests[1..]))
  }

  predicate WindowsUpTo(requests: seq<Request>, longest: int) {
    forall r | r in requests && r.Check? :: r.window <= longest
  }

  /** `swept` is `whole` without some buckets that have been idle too long. */
  ghost predicate Tracks(swept: Levels, whole: Levels, now: real) {
    && swept.Keys <= whole.Keys
    && (forall k | k in swept :: swept[k] == whole[k])
    && (forall k | k in whole :: 0.0 <= whole[k].tokens && whole[k].last <= now)
    && (forall k | k in whole && k !in swept :: IDLE <= now - whole[k].last)
  }

  lemma Longer(a: real, b: real, limit: nat, window: nat)
    requires 0 < window && a <= b
    ensures Gain(a, limit, window) <= Gain(b, limit, window)
  {
    assert (b - a) * Rate(limit, window) >= 0.0;
  }

  lemma IdleIsFull(l: Level, capacity: nat, window: nat, now: real)
    requires 0.0 <= l.tokens && IDLE <= now - l.last && 0 < window <= 600
    ensures Refilled(l, capacity, window, now) == capacity as real
  {
    Longer(window as real, now - l.last, capacity, window);
    assert Gain(window as real, capacity, window) == capacity as real;
  }

  lemma CheckTracks(swept: Levels, whole: Levels, key: string, capacity: int, window: int, now: real)
    requires Tracks(swept, whole, now) && window <= 600
    ensures Checked(swept, key, capacity, window, now).1 == Checked(whole, key, capacity, window, now).1
    ensures Tracks(Checked(swept, key, capacity, window, now).0, Checked(whole, key, capacity, window, now).0, now)
  {
    if 0 < capacity && 0 < window {
      if key in whole && key !in swept {
        IdleIsFull(whole[key], capacity, window, now);
      }
    }
  }

  lemma {:induction false} SweptRunAnswersAlike(swept: Levels, whole: Levels, requests: seq<Request>, now: real)
    requires Tracks(swept, whole, now) && InTime(now, requests) && WindowsUpTo(requests, 600)
    ensures Decisions(swept, requests, true) == Decisions(whole, requests, false)
    decreases |requests|
  {
    if requests != [] {
      var rest := requests[1..];
      match requests[0]
      case Check(key, capacity, window, at) =>
        assert Tracks(swept, whole, at);
        CheckTracks(swept, whole, key, capacity, window, at);
        SweptRunAnswersAlike(Checked(swept, key, capacity, window, at).0,
                             Checked(whole, key, capacity, window, at).0, rest, at);
      case Sweep(at) =>
        SweptRunAnswersAlike(Swept(swept, at), whole, rest, at);
    }
  }

  /** No run with windows up to `longest` can tell whether idle buckets are dropped. */
  ghost predicate SweepUnnoticed(longest: int) {
    forall requests | InTime(0.0, requests) && WindowsUpTo(requests, longest) ::
      Decisions(map[], requests, true) == Decisions(map[], requests, false)
  }

  /** One an hour, asked again after ten idle minutes. */
  function TenMinutesLater(window: int): seq<Request> {
    [Check("k", 1, window, 0.0), Sweep(IDLE), Check("k", 1, window, IDLE)]
  }

  /** Asked at once, then after ten minutes: from the same level, or from a new bucket. */
  lemma SpentThenAsked(window: int)
    requires 600 < window
    ensures Checked(map[], "k", 1, window, 0.0) == (map["k" := Level(0.0, 0.0)], true)
    ensures !Checked(map["k" := Level(0.0, 0.0)], "k", 1, window, IDLE).1
    ensures Checked(map[], "k", 1, window, IDLE).1
    ensures Swept(map["k" := Level(0.0, 0.0)], IDLE) == map[]
  {
    var rate := Rate(1, window);
    assert IDLE * rate < 1.0;
    assert Gain(IDLE, 1, window) < 1.0;
  }

  lemma DecideThree(m: Levels, key: string, window: int, a: real, b: real, sweeping: bool)
    ensures var requests := [Check(key, 1, window, a), Sweep(b), Check(key, 1, window, b)];
            var first := Checked(m, key, 1, window, a);
            var kept := if sweeping then Swept(first.0, b) else first.0;
            Decisions(m, requests, sweeping) == [first.1, Checked(kept, key, 1, window, b).1]
  {
    var requests := [Check(key, 1, window, a), Sweep(b), Check(key, 1, window, b)];
    var first := Checked(m, key, 1, window, a);
    var kept := if sweeping then Swept(first.0, b) else first.0;
    var last := Checked(kept, key, 1, window, b);
    assert requests[1..] == [Sweep(b), Check(key, 1, window, b)];
    assert requests[1..][1..] == [Check(key, 1, window, b)] && requests[1..][1..][1..] == [];
    assert Decisions(last.0, [], sweeping) == [];
    assert Decisions(kept, requests[1..][1..], sweeping) == [last.1];
    assert Decisions(first.0, requests[1..], sweeping) == [last.1];
  }

  /** For a longer window the sweep gives back what had been spent. */
  lemma LongWindowForgets(window: int)
    requires 600 < window
    ensures Decisions(map[], TenMinutesLater(window), true) == [true, true]
    ensures Decisions(map[], TenMinutesLater(window), false) == [true, false]
  {
    SpentThenAsked(window);
    DecideThree(map[], "k", window, 0.0, IDLE, true);
    DecideThree(map[], "k", window, 0.0, IDLE, false);
  }

  /** The sweep changes no answer exactly when no window is longer than the idle time. */
  lemma SweepUnnoticedIff(longest: int)
    ensures SweepUnnoticed(longest) <==> longest <= 600
  {
    if longest <= 600 {
      forall requests | InTime(0.0, requests) && WindowsUpTo(requests, longest)
        ensures Decisions(map[], requests, true) == Decisions(map[], requests, false)
      {
        SweptRunAnswersAlike(map[], map[], requests, 0.0);
      }
    } else {
      LongWindowForgets(longest);
      var requests := TenMinutesLater(longest);
      assert InTime(IDLE, []) && InTime(IDLE, requests[2..]) && requests[1..][1..] == requests[2..];
      assert InTime(0.0, requests) && WindowsUpTo(requests, longest);
    }
  }

  // ------------------------------------------------------------------ what one caller gets

  /** How often `key` is let through. */
  function Grants(m: Levels, requests: seq<Request>, key: string, sweeping: bool): nat
    decreases |requests|
  {
    if requests == [] then 0
    else match requests[0]
      case Check(k, capacity, window, at) =>
        var (next, ok) := Checked(m, k, capacity, window, at);
        (if ok && k == key then 1 else 0) + Grants(next, requests[1..], key, sweeping)
      case Sweep(at) =>
        Grants(if sweeping then Swept(m, at) else m, requests[1..], key, sweeping)
  }

  ghost predicate Lively(m: Levels, now: real) {
    forall k | k in m :: 0.0 <= m[k].tokens && m[k].last <= now
  }

  /** What `key` has, and may still get by `until`. */
  function Budget(m: Levels, key: string, limit: nat, window: nat, now: real, until: real): real
    requires 0 < window
  {
    if key in m then m[key].tokens + Gain(until - m[key].last, limit, window)
    else limit as real + Gain(until - now, limit, window)
  }

  predicate Of(requests: seq<Request>, key: string, limit: nat, window: nat) {
    forall r | r in requests && r.Check? && r.key == key :: r.capacity <= limit && r.window == window
  }

  lemma CheckCosts(m: Levels, r: Request, key: string, limit: nat, window: nat, now: real, until: real)
    requires r.Check? && Lively(m, now) && now <= r.at <= until && 0 < window
    requires r.key == key ==> r.capacity <= limit && r.window == window
    ensures var (next, ok) := Checked(m, r.key, r.capacity, r.window, r.at);
            && Lively(next, r.at)
            && Budget(next, key, limit, window, r.at, until) + (if ok && r.key == key then 1.0 else 0.0)
               <= Budget(m, key, limit, window, now, until)
  {
    Longer(until - r.at, until - now, limit, window);
    if 0 < r.capacity && 0 < r.window {
      var l := if r.key in m then m[r.key] else Level(r.capacity as real, r.at);
      if r.key == key {
        DrawCosts(l, Draw(1.0, r.capacity, window, r.at), limit, until);
      }
    }
  }

  /** Dropping a bucket that has been idle for longer than its window gives nothing back. */
  lemma SweepCosts(m: Levels, key: string, limit: nat, window: nat, now: real, at: real, until: real)
    requires Lively(m, now) && now <= at <= until && 0 < window <= 600
    ensures Lively(Swept(m, at), at)
    ensures Budget(Swept(m, at), key, limit, window, at, until) <= Budget(m, key, limit, window, now, until)
  {
    Longer(until - at, until - now, limit, window);
    if key in m && key !in Swept(m, at) {
      Longer(window as real, at - m[key].last, limit, window);
      Spread(m[key].last, at, until, limit, window);
    }
  }

  /**
   Whoever else asks, and however often idle buckets are swept: one caller is let through at most
   `limit` times, and as many again for each window's length that passes.
   */
  lemma {:induction false} GrantsWithinBudget(m: Levels, requests: seq<Request>, key: string, limit: nat, window: nat,
                                              now: real, until: real, sweeping: bool)
    requires Lively(m, now) && InTime(now, requests) && Of(requests, key, limit, window) && 0 < window
    requires sweeping ==> window <= 600
    requires now <= until && forall r | r in requests :: r.at <= until
    ensures Grants(m, requests, key, sweeping) as real <= Budget(m, key, limit, window, now, until)
    decreases |requests|
  {
    if requests == [] {
      assert 0.0 <= Gain(until - now, limit, window);
    } else {
      var first, rest := requests[0], requests[1..];
      assert first in requests && forall r | r in rest :: r in requests;
      match first
      case Check(k, capacity, w, at) =>
        CheckCosts(m, first, key, limit, window, now, until);
        GrantsWithinBudget(Checked(m, k, capacity, w, at).0, rest, key, limit, window, at, until, sweeping);
      case Sweep(at) =>
        if sweeping {
          SweepCosts(m, key, limit, window, now, at, until);
        } else {
          Longer(until - at, until - now, limit, window);
        }
        GrantsWithinBudget(if sweeping then Swept(m, at) else m, rest, key, limit, window, at, until, sweeping);
    }
  }

  /** A caller that has asked nothing yet is let through, unless the limit is switched off; and nobody else pays. */
  lemma FirstIsGranted(m: Levels, key: string, capacity: int, window: int, now: real)
    requires key !in m
    ensures Checked(m, key, capacity, window, now).1 <==> 1 <= capacity && 1 <= window
    ensures capacity < 1 || window < 1 ==> Checked(m, key, capacity, window, now) == (m, false)
    ensures forall k | k != key :: (k in Checked(m, key, capacity, window, now).0 <==> k in m)
                                   && (k in m ==> Checked(m, key, capacity, window, now).0[k] == m[k])
  {
  }

  class RateLimiter {
    var buckets: Levels

    constructor ()
      ensures buckets == map[]
    {
      buckets := map[];
    }

    method CheckWindow(key: string, capacity: int, window: int, now: real) returns (ok: bool)
      requires key in buckets ==> buckets[key].last <= now
      modifies this
      ensures (buckets, ok) == Checked(old(buckets), key, capacity, window, now)
    {
      ok := false;
      if 0 < capacity && 0 < window {
        var perSecond := capacity as real / window as real;
        if key !in buckets {
          buckets := buckets[key := Level(capacity as real, now)];
        }
        var full := buckets[key].tokens + (now - buckets[key].last) * perSecond;
        assert (now - buckets[key].last) * perSecond == Gain(now - buckets[key].last, capacity, window);
        var tokens := if full < capacity as real then full else capacity as real;
        ok := 1.0 <= tokens;
        buckets := buckets[key := Level(if ok then tokens - 1.0 else tokens, now)];
        assert buckets == old(buckets)[key := buckets[key]];
      }
    }

    method Sweep(now: real)
      modifies this
      ensures buckets == Swept(old(buckets), now)
    {
      buckets := map k | k in buckets && now - buckets[k].last < IDLE :: buckets[k];
    }
  }
}
