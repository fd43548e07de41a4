/** Retrying an export: the loop around one request, the exponential backoff it shares with all other requests, and the
    time it may spend. Times are in nanoseconds. */
module Retry {
  import opened Prelude

  datatype Config = Config(enabled: bool, initialInterval: nat, maxInterval: nat, maxElapsedTime: int)

  /** An error of the request and what evaluate makes of it. */
  datatype Failure = Failure(id: int, retryable: bool, throttle: int)

  /** How a wait went: the timer fired, possibly late, or the context was done first. */
  datatype Pause = Expired(late: nat) | Done(after: nat)

  /** What a random generator gives. */
  type Unit = x: real | 0.0 <= x < 1.0

  /** What the environment does around one call of the request: how long the call took, how it ended, the random number
      for the backoff, the time between the two clock readings, and the wait that follows if one does. */
  datatype Attempt = Attempt(took: nat, failure: Option<Failure>, random: Unit, lag: nat, pause: Pause)

  /** One planned wait: the time since the reset when it was planned, what was asked for, and its length. */
  datatype Wait = Wait(elapsed: int, backoff: nat, throttle: int, delay: int)

  datatype Verdict = Delivered | Rejected(error: Failure) | TimeUp(error: Failure) | WouldExceed(error: Failure)
                   | ContextDone | StillTrying

  datatype Clock = Clock(now: nat, interval: nat)

  datatype Outcome = Outcome(verdict: Verdict, calls: nat, waits: seq<Wait>, clock: Clock)

  // ----- the backoff (cenkalti/backoff v4, randomization factor 0.5, multiplier 1.5)

  /** The random part of the length. */
  function Spread(interval: nat, random: Unit): (x: real)
    ensures 0.0 <= x < interval as real + 1.0
  {
    PartOf(random, interval as real + 1.0)
  }

  function PartOf(x: Unit, y: real): (r: real)
    requires y > 0.0
    ensures 0.0 <= r < y
  {
    Positive(1.0 - x, y);
    assert y - x * y == (1.0 - x) * y;
    x * y
  }

  lemma Positive(x: real, y: real)
    requires x > 0.0 && y > 0.0
    ensures x * y > 0.0
  {}

  /** A random value around the interval: the library's minimum, half the interval, plus the random number times the
      distance to its maximum and one, rounded down. */
  function NextInterval(interval: nat, random: Unit): (r: nat)
    ensures interval / 2 <= r <= (3 * interval + 1) / 2
  {
    Around(interval, Spread(interval, random));
    (0.5 * interval as real + Spread(interval, random)).Floor
  }

  lemma Around(interval: nat, x: real)
    requires 0.0 <= x < interval as real + 1.0
    ensures interval / 2 <= (0.5 * interval as real + x).Floor <= (3 * interval + 1) / 2
  {
    assert interval == 2 * (interval / 2) + interval % 2;
  }

  /** The maximum once half as much again would reach it, else half as much again, rounded down. */
  function Grown(c: Config, interval: nat): (r: nat) {
    if 3 * interval >= 2 * c.maxInterval then c.maxInterval else 3 * interval / 2
  }

  /** No backoff is shorter than this. */
  function Shortest(c: Config): (r: nat) {
    (if c.initialInterval <= c.maxInterval then c.initialInterval else c.maxInterval) / 2
  }

  ghost predicate InRange(c: Config, interval: nat) {
    c.initialInterval <= interval || c.maxInterval <= interval
  }

  /** The bound on time spent; zero means none. */
  predicate Exceeds(c: Config, time: int) {
    c.maxElapsedTime != 0 && time > c.maxElapsedTime
  }

  lemma Quotient(x: real, y: real) returns (q: Unit)
    requires 0.0 <= x < y
    ensures q * y == x
  {
    q := x / y;
  }

  lemma BackoffReached(interval: nat, value: nat) returns (random: Unit)
    requires interval / 2 <= value <= (3 * interval + 1) / 2
    ensures NextInterval(interval, random) == value
  {
    var low := 0.5 * interval as real;
    random := Quotient(if value as real < low then 0.0 else value as real - low, interval as real + 1.0);
  }

  /** A backoff can be any length from half the interval, rounded down, to one and a half, rounded up, and no other. */
  lemma BackoffRange(interval: nat, value: nat)
    ensures (exists random :: NextInterval(interval, random) == value)
       <==> interval / 2 <= value <= (3 * interval + 1) / 2
  {
    if interval / 2 <= value <= (3 * interval + 1) / 2 {
      var random := BackoffReached(interval, value);
    }
  }

  /** At the maximum interval m the backoff is m exactly if the random number times m + 1 lies from m / 2 to less than
      m / 2 + 1. */
  lemma BackoffIsMaxIff(m: nat, random: Unit)
    ensures NextInterval(m, random) == m
       <==> 0.5 * m as real <= Spread(m, random) < 0.5 * m as real + 1.0
  {}

  /** The backoff at the maximum interval is always that interval, as documented, only if it is zero. */
  lemma BackoffAlwaysMaxIff(m: nat)
    ensures (forall random :: NextInterval(m, random) == m) <==> m == 0
  {
    if m > 0 {
      var random := BackoffReached(m, m / 2);
      assert NextInterval(m, random) != m;
    } else {
      forall random
        ensures NextInterval(0, random) == 0
      {}
    }
  }

  /** The interval grows towards its maximum, by half at a time, and stays there. */
  lemma GrownTowardsMax(c: Config, interval: nat)
    ensures interval <= c.maxInterval ==> interval <= Grown(c, interval) <= c.maxInterval
    ensures interval >= c.maxInterval ==> Grown(c, interval) == c.maxInterval
    ensures 2 <= interval < c.maxInterval ==> Grown(c, interval) > interval
    ensures 3 * interval >= 2 * c.maxInterval ==> Grown(c, interval) == c.maxInterval
    ensures 3 * interval < 2 * c.maxInterval ==> 2 * Grown(c, interval) <= 3 * interval < 2 * Grown(c, interval) + 2
  {}

  /** The bound on backoffs is reached: it is half the smaller of the initial and the maximum interval. */
  lemma ShortestReached(c: Config)
    ensures var low := if c.initialInterval <= c.maxInterval then c.initialInterval else c.maxInterval;
      exists random :: NextInterval(low, random) == Shortest(c)
  {
    var low := if c.initialInterval <= c.maxInterval then c.initialInterval else c.maxInterval;
    var random := BackoffReached(low, low / 2);
  }

  // ----- one request, attempt by attempt

  /** Where one attempt leaves the request: at its end, or after a wait with another attempt to come. */
  datatype Step = End(verdict: Verdict, waits: seq<Wait>, clock: Clock) | Again(wait: Wait, clock: Clock)

  function Once(c: Config, start: nat, clock: Clock, a: Attempt): (r: Step) {
    var now := clock.now + a.took;
    if a.failure.None? then
      End(Delivered, [], Clock(now, clock.interval))
    else if !a.failure.value.retryable then
      End(Rejected(a.failure.value), [], Clock(now, clock.interval))
    else
      var backoff, throttle := NextInterval(clock.interval, a.random), a.failure.value.throttle;
      var interval, checked := Grown(c, clock.interval), now + a.lag;
      if Exceeds(c, now - start + backoff) then
        End(TimeUp(a.failure.value), [], Clock(now, interval))
      else if backoff > throttle then
        Paused(Wait(now - start, backoff, throttle, backoff), Clock(now, interval), a.pause)
      else if Exceeds(c, checked - start + throttle) then
        End(WouldExceed(a.failure.value), [], Clock(checked, interval))
      else
        Paused(Wait(checked - start, backoff, throttle, throttle), Clock(checked, interval), a.pause)
  }

  function Paused(wait: Wait, clock: Clock, pause: Pause): (r: Step)
    requires wait.delay >= 0
  {
    match pause
    case Done(after) => End(ContextDone, [wait], clock.(now := clock.now + after))
    case Expired(late) => Again(wait, clock.(now := clock.now + wait.delay + late))
  }

  function Run(c: Config, start: nat, clock: Clock, script: seq<Attempt>): (r: Outcome)
    decreases |script|
  {
    if script == [] then Outcome(StillTrying, 0, [], clock)
    else
      match Once(c, start, clock, script[0])
      case End(verdict, waits, after) => Outcome(verdict, 1, waits, after)
      case Again(wait, after) =>
        var rest := Run(c, start, after, script[1..]);
        rest.(calls := 1 + rest.calls, waits := [wait] + rest.waits)
  }

  // ----- what the loop promises

  /** A wait that honours what was asked for and fits in the time allowed since the reset. */
  ghost predicate Honoured(c: Config, w: Wait, a: Attempt) {
    && a.failure.Some? && a.failure.value.retryable && w.throttle == a.failure.value.throttle
    && w.delay >= w.throttle && w.delay >= w.backoff >= Shortest(c)
    && w.elapsed >= 0 && !Exceeds(c, w.elapsed + w.delay)
  }

  /** One attempt plans at most one wait, that wait is honoured, and another attempt comes after the whole of it. */
  lemma OnceHonours(c: Config, start: nat, clock: Clock, a: Attempt)
    requires start <= clock.now && InRange(c, clock.interval)
    ensures var s := Once(c, start, clock, a);
      && InRange(c, s.clock.interval) && s.clock.now >= clock.now
      && (s.End? ==> |s.waits| <= 1 && (|s.waits| == 1 ==>
            Honoured(c, s.waits[0], a) && s.waits[0].elapsed >= clock.now - start))
      && (s.Again? ==>
            && Honoured(c, s.wait, a) && s.wait.elapsed >= clock.now - start
            && s.clock.now - start >= s.wait.elapsed + s.wait.delay)
  {}

  lemma {:induction false} WaitsHonoured(c: Config, start: nat, clock: Clock, script: seq<Attempt>)
    requires start <= clock.now && InRange(c, clock.interval)
    ensures var r := Run(c, start, clock, script);
      && |r.waits| <= |script|
      && forall i :: 0 <= i < |r.waits| ==> Honoured(c, r.waits[i], script[i])
    decreases |script|
  {
    hide Once, Honoured, InRange;
    if script != [] {
      OnceHonours(c, start, clock, script[0]);
      var s := Once(c, start, clock, script[0]);
      if s.Again? {
        WaitsHonoured(c, start, s.clock, script[1..]);
      }
    }
  }

  lemma DivBound(n: nat, d: nat, m: int)
    requires d > 0 && n * d <= m
    ensures n <= m / d
  {
    if n > m / d {
      TimesMonotone(m / d + 1, n, d);
      assert false;
    }
  }

  lemma TimesMonotone(a: int, b: int, d: nat)
    requires a <= b
    ensures a * d <= b * d
  {}

  lemma {:induction false} WaitsFit(c: Config, start: nat, clock: Clock, script: seq<Attempt>)
    requires start <= clock.now && InRange(c, clock.interval) && c.maxElapsedTime > 0
    ensures var r := Run(c, start, clock, script);
      && r.calls <= |r.waits| + 1
      && (r.waits != [] ==> |r.waits| * Shortest(c) <= c.maxElapsedTime - (clock.now - start))
    decreases |script|
  {
    hide Once, InRange, Shortest;
    if script != [] {
      OnceHonours(c, start, clock, script[0]);
      var s := Once(c, start, clock, script[0]);
      if s.Again? {
        WaitsFit(c, start, s.clock, script[1..]);
        var n := |Run(c, start, s.clock, script[1..]).waits|;
        assert (n + 1) * Shortest(c) == n * Shortest(c) + Shortest(c);
      }
    }
  }

  /** The request is called at most once more than shortest backoffs fit into the time allowed, whatever happens. */
  lemma CallsBounded(c: Config, start: nat, clock: Clock, script: seq<Attempt>)
    requires start <= clock.now && InRange(c, clock.interval) && c.maxElapsedTime > 0 && Shortest(c) > 0
    ensures Run(c, start, clock, script).calls <= 1 + c.maxElapsedTime / Shortest(c)
  {
    hide Run, InRange, Shortest;
    WaitsFit(c, start, clock, script);
    var n := |Run(c, start, clock, script).waits|;
    if n > 0 {
      DivBound(n, Shortest(c), c.maxElapsedTime);
    }
  }

  /** The time allowed runs from the reset, which happens once, when the request function is made: a request begun too
      long after that is never tried twice, and only such a request. */
  lemma NeverRetriedIff(c: Config, start: nat, clock: Clock)
    requires start <= clock.now
    ensures (forall script :: Run(c, start, clock, script).calls <= 1)
       <==> Exceeds(c, clock.now - start + clock.interval / 2)
  {
    if Exceeds(c, clock.now - start + clock.interval / 2) {
      forall script
        ensures Run(c, start, clock, script).calls <= 1
      {
        if script != [] {
          TooLate(c, start, clock, script[0]);
        }
      }
    } else {
      var a := Attempt(0, Some(Failure(0, true, 0)), 0.0, 0, Expired(0));
      var s := Once(c, start, clock, a);
      var script := [a, a];
      assert script[1..] == [a];
      assert Run(c, start, s.clock, [a]).calls >= 1;
      assert Run(c, start, clock, script).calls >= 2;
    }
  }

  lemma TooLate(c: Config, start: nat, clock: Clock, a: Attempt)
    requires Exceeds(c, clock.now - start + clock.interval / 2)
    ensures Once(c, start, clock, a).End?
  {}

  /** The verdict is that of the last call; every call before it failed for a retryable reason and was waited out. */
  lemma {:induction false} VerdictExplained(c: Config, start: nat, clock: Clock, script: seq<Attempt>)
    ensures var r := Run(c, start, clock, script);
      && r.calls <= |script| && (r.verdict.StillTrying? ==> r.calls == |script|)
      && |r.waits| == (if r.verdict.StillTrying? || r.verdict.ContextDone? then r.calls else r.calls - 1)
      && (!r.verdict.StillTrying? ==> r.calls > 0 && Explained(c, r.verdict, script[r.calls - 1]))
      && forall i :: 0 <= i < (if r.verdict.StillTrying? then r.calls else r.calls - 1) ==>
           script[i].failure.Some? && script[i].failure.value.retryable && script[i].pause.Expired?
    decreases |script|
  {
    hide Explained;
    if script != [] {
      var s := Once(c, start, clock, script[0]);
      OnceExplained(c, start, clock, script[0]);
      hide Once;
      if s.Again? {
        VerdictExplained(c, start, s.clock, script[1..]);
      }
    }
  }

  ghost predicate Explained(c: Config, verdict: Verdict, a: Attempt) {
    match verdict
    case Delivered => a.failure.None?
    case Rejected(e) => a.failure == Some(e) && !e.retryable
    case TimeUp(e) => a.failure == Some(e) && e.retryable && c.maxElapsedTime != 0
    case WouldExceed(e) => a.failure == Some(e) && e.retryable && c.maxElapsedTime != 0
    case ContextDone => a.failure.Some? && a.failure.value.retryable && a.pause.Done?
    case StillTrying => false
  }

  lemma OnceExplained(c: Config, start: nat, clock: Clock, a: Attempt)
    ensures var s := Once(c, start, clock, a);
      if s.End? then
        Explained(c, s.verdict, a) && |s.waits| == if s.verdict.ContextDone? then 1 else 0
      else
        a.failure.Some? && a.failure.value.retryable && a.pause.Expired?
  {}

  /** An attempt is followed by a wait exactly if it failed for a retryable reason and the backoff and, if that is no
      shorter, the throttle each end within the time allowed. */
  lemma WaitsIff(c: Config, start: nat, clock: Clock, a: Attempt)
    ensures var s, e := Once(c, start, clock, a), clock.now + a.took - start;
      (s.Again? || s.verdict.ContextDone?) <==>
        && a.failure.Some? && a.failure.value.retryable
        && var backoff, throttle := NextInterval(clock.interval, a.random), a.failure.value.throttle;
          && !Exceeds(c, e + backoff)
          && (throttle >= backoff ==> !Exceeds(c, e + a.lag + throttle))
  {}

  /** The interval only grows, also from one request to the next: it never returns to the initial interval. */
  lemma {:induction false} IntervalCarriesOver(c: Config, start: nat, clock: Clock, script: seq<Attempt>)
    requires clock.interval <= c.maxInterval
    ensures clock.interval <= Run(c, start, clock, script).clock.interval <= c.maxInterval
    ensures (script != [] && script[0].failure.Some? && script[0].failure.value.retryable
             && 2 <= clock.interval < c.maxInterval)
        ==> Run(c, start, clock, script).clock.interval > clock.interval
    decreases |script|
  {
    if script != [] {
      GrownTowardsMax(c, clock.interval);
      hide Grown;
      var s := Once(c, start, clock, script[0]);
      if s.Again? {
        IntervalCarriesOver(c, start, s.clock, script[1..]);
      }
    }
  }

  /** It stays as it is exactly if the request is not called at all or its first call does not fail retryably. */
  lemma IntervalStaysIff(c: Config, start: nat, clock: Clock, script: seq<Attempt>)
    requires 2 <= clock.interval < c.maxInterval
    ensures Run(c, start, clock, script).clock.interval == clock.interval
       <==> script == [] || script[0].failure.None? || !script[0].failure.value.retryable
  {
    IntervalCarriesOver(c, start, clock, script);
  }

  // ----- the request function

  /** With retrying switched off the request is called once and its own result is the result. */
  function Direct(clock: Clock, script: seq<Attempt>): (r: Outcome) {
    if script == [] then Outcome(StillTrying, 0, [], clock)
    else
      var after := clock.(now := clock.now + script[0].took);
      if script[0].failure.None? then Outcome(Delivered, 1, [], after)
      else Outcome(Rejected(script[0].failure.value), 1, [], after)
  }

  /** `done` before `rest`. */
  ghost function Resumed(calls: nat, waits: seq<Wait>, rest: Outcome): (r: Outcome) {
    rest.(calls := calls + rest.calls, waits := waits + rest.waits)
  }

  lemma RunNext(c: Config, start: nat, clock: Clock, script: seq<Attempt>, i: nat)
    requires i < |script|
    ensures var s, run := Once(c, start, clock, script[i]), Run(c, start, clock, script[i..]);
      run == if s.End? then Outcome(s.verdict, 1, s.waits, s.clock)
             else Resumed(1, [s.wait], Run(c, start, s.clock, script[i + 1..]))
  {
    hide Once;
    assert script[i..][0] == script[i] && script[i..][1..] == script[i + 1..];
  }

  lemma ResumedTwice(calls: nat, waits: seq<Wait>, wait: Wait, rest: Outcome)
    ensures Resumed(calls, waits, Resumed(1, [wait], rest)) == Resumed(calls + 1, waits + [wait], rest)
  {
    assert waits + ([wait] + rest.waits) == waits + [wait] + rest.waits;
  }

  class RequestFunc {
    const config: Config
    /** When the backoff was reset: at construction, and never again. */
    const start: nat
    /** The backoff's current interval, shared by all requests. */
    var interval: nat

    ghost predicate Valid()
      reads this
    {
      InRange(config, interval)
    }

    constructor (config: Config, now: nat)
      ensures Valid() && this.config == config && start == now && interval == config.initialInterval
    {
      this.config, start, interval := config, now, config.initialInterval;
    }

    /** b.NextBackOff: None stands for backoff.Stop. A backoff that is given is no shorter than the shortest, lies
        around the interval and ends within the time allowed; none is given only if there is a limit and the longest
        possible one would end after it. The interval never falls, except to its maximum. */
    method NextBackOff(elapsed: int, random: Unit) returns (next: Option<nat>)
      requires Valid()
      modifies this
      ensures Valid() && interval == Grown(config, old(interval))
      ensures next.None? <==>
        config.maxElapsedTime != 0 && elapsed + NextInterval(old(interval), random) > config.maxElapsedTime
      ensures next.Some? ==> next.value == NextInterval(old(interval), random)
      ensures next.Some? ==> next.value >= Shortest(config) && !Exceeds(config, elapsed + next.value)
      ensures next.Some? ==> old(interval) / 2 <= next.value <= (3 * old(interval) + 1) / 2
      ensures next.None? ==> Exceeds(config, elapsed + (3 * old(interval) + 1) / 2)
      ensures old(interval) <= config.maxInterval ==> old(interval) <= interval <= config.maxInterval
    {
      GrownTowardsMax(config, interval);
      var value := NextInterval(interval, random);
      interval := Grown(config, interval);
      if config.maxElapsedTime != 0 && elapsed + value > config.maxElapsedTime {
        return None;
      }
      return Some(value);
    }

    /** The body of the loop: one call, and what follows from how it ended. */
    method Try(now: nat, a: Attempt) returns (step: Step)
      requires Valid() && start <= now
      modifies this
      ensures Valid() && step == Once(config, start, Clock(now, old(interval)), a)
      ensures step.clock.interval == interval && step.clock.now >= now
    {
      GrownInRange(config, interval);
      hide InRange;
      var time := now + a.took;
      if a.failure.None? {
        return End(Delivered, [], Clock(time, interval));
      }
      var failure := a.failure.value;
      if !failure.retryable {
        return End(Rejected(failure), [], Clock(time, interval));
      }
      var next := NextBackOff(time - start, a.random);
      if next.None? {
        return End(TimeUp(failure), [], Clock(time, interval));
      }
      var wait;
      if next.value > failure.throttle {
        wait := Wait(time - start, next.value, failure.throttle, next.value);
      } else {
        time := time + a.lag;
        var elapsed := time - start;
        if config.maxElapsedTime != 0 && elapsed + failure.throttle > config.maxElapsedTime {
          return End(WouldExceed(failure), [], Clock(time, interval));
        }
        wait := Wait(elapsed, next.value, failure.throttle, failure.throttle);
      }
      if a.pause.Done? {
        return End(ContextDone, [wait], Clock(time + a.pause.after, interval));
      }
      return Again(wait, Clock(time + wait.delay + a.pause.late, interval));
    }

    method Request(now: nat, script: seq<Attempt>) returns (r: Outcome)
      requires Valid() && start <= now
      modifies this
      ensures Valid()
      ensures r == if config.enabled then Run(config, start, Clock(now, old(interval)), script)
                   else Direct(Clock(now, old(interval)), script)
      ensures r.clock.interval == interval
      ensures !config.enabled && script != [] ==>
        && r.calls == 1 && r.waits == [] && interval == old(interval)
        && r.verdict == if script[0].failure.Some? then Rejected(script[0].failure.value) else Delivered
    {
      r := Direct(Clock(now, interval), script);
      if !config.enabled {
        return;
      }
      hide Run, InRange, Once;
      ghost var whole := Run(config, start, Clock(now, interval), script);
      var time, waits: seq<Wait> := now, [];
      assert script[0..] == script;
      for i := 0 to |script|
        invariant Valid() && time >= now
        invariant Resumed(i, waits, Run(config, start, Clock(time, interval), script[i..])) == whole
      {
        RunNext(config, start, Clock(time, interval), script, i);
        var step := Try(time, script[i]);
        if step.End? {
          return Outcome(step.verdict, i + 1, waits + step.waits, step.clock);
        }
        ResumedTwice(i, waits, step.wait, Run(config, start, step.clock, script[i + 1..]));
        time, waits := step.clock.now, waits + [step.wait];
      }
      r := Outcome(StillTrying, |script|, waits, Clock(time, interval));
      RunOut(config, start, r.clock);
    }
  }

  lemma GrownInRange(c: Config, interval: nat)
    requires InRange(c, interval)
    ensures InRange(c, Grown(c, interval))
  {}

  lemma RunOut(c: Config, start: nat, clock: Clock)
    ensures Run(c, start, clock, []) == Outcome(StillTrying, 0, [], clock)
  {}
}
