/** Retry delays, and the loop that repeats a sync attempt until it succeeds, fails for good, or runs out
    of time. Durations are whole nanoseconds; the interval is computed with reals and cut down to one. */
module Backoff {

  datatype Config = Config(initial: int, max: int, multiplier: real, jitter: real, maxElapsed: int)

  /** What the agent's configuration is checked for when it is loaded. */
  predicate Validated(cfg: Config) {
    && cfg.initial > 0 && cfg.max >= cfg.initial && cfg.maxElapsed > 0
    && cfg.multiplier >= 1.0 && 0.0 <= cfg.jitter <= 1.0
  }

  function Pow(base: real, n: nat): real
    decreases n
  {
    if n == 0 then 1.0 else base * Pow(base, n - 1)
  }

  lemma {:induction false} PowAtLeastOne(base: real, n: nat)
    requires base >= 1.0
    ensures Pow(base, n) >= 1.0
    decreases n
  {
    if n > 0 {
      PowAtLeastOne(base, n - 1);
      Scaled(1.0, base, Pow(base, n - 1));
    }
  }

  lemma {:induction false} Scaled(a: real, b: real, c: real)
    requires a <= b && c >= 0.0
    ensures a * c <= b * c
  {
    assert (b - a) * c >= 0.0;
    assert b * c - a * c == (b - a) * c;
  }

  /** The interval before jitter. */
  function Interval(cfg: Config, attempt: nat): real {
    var grown := cfg.initial as real * Pow(cfg.multiplier, attempt);
    if grown > cfg.max as real then cfg.max as real else grown
  }

  /** With a random number u from 0 up to 1. */
  function Jittered(interval: real, jitter: real, u: real): real {
    if jitter > 0.0 then interval - interval * jitter / 2.0 + u * (interval * jitter) else interval
  }

  /** The delay of an attempt, in whole nanoseconds. */
  function DelayOf(cfg: Config, attempt: nat, u: real): int { Jittered(Interval(cfg, attempt), cfg.jitter, u).Floor }

  /** The interval grown, capped, jittered and cut down. */
  method Draw(cfg: Config, attempt: nat, u: real) returns (d: int)
    ensures d == DelayOf(cfg, attempt, u)
  {
    hide Pow;
    var interval := cfg.initial as real * Pow(cfg.multiplier, attempt);
    if interval > cfg.max as real { interval := cfg.max as real; }
    assert interval == Interval(cfg, attempt);
    hide Interval;
    ghost var base := interval;
    if cfg.jitter > 0.0 {
      var jitterRange := interval * cfg.jitter;
      interval := interval - jitterRange / 2.0 + u * jitterRange;
    }
    assert interval == Jittered(base, cfg.jitter, u);
    hide Jittered;
    d := interval.Floor;
  }

  /** The smallest delay there can be. */
  function LeastDelay(cfg: Config): int { (cfg.initial as real * (1.0 - cfg.jitter / 2.0)).Floor }

  lemma {:induction false} IntervalAtLeastInitial(cfg: Config, attempt: nat)
    requires Validated(cfg)
    ensures Interval(cfg, attempt) >= cfg.initial as real
  {
    hide Pow;
    var initial, pow := cfg.initial as real, Pow(cfg.multiplier, attempt);
    PowAtLeastOne(cfg.multiplier, attempt);
    Scaled(1.0, pow, initial);
    Commutes(pow, initial);
  }

  /** The interval starts at the initial one and is multiplied from attempt to attempt until it reaches the
      largest one, where it stays. */
  lemma {:induction false} IntervalSteps(cfg: Config, attempt: nat)
    requires Validated(cfg)
    ensures Interval(cfg, 0) == cfg.initial as real
    ensures var next := Interval(cfg, attempt) * cfg.multiplier;
      Interval(cfg, attempt + 1) == if next > cfg.max as real then cfg.max as real else next
  {
    var max, pow := cfg.max as real, Pow(cfg.multiplier, attempt);
    var grown := cfg.initial as real * pow;
    Regroup(cfg.initial as real, cfg.multiplier, pow);
    assert Pow(cfg.multiplier, attempt + 1) == cfg.multiplier * pow;
    if grown > max {
      Scaled(1.0, cfg.multiplier, grown);
      Scaled(1.0, cfg.multiplier, max);
      Commutes(cfg.multiplier, grown);
      Commutes(cfg.multiplier, max);
    }
  }

  lemma {:induction false} Regroup(a: real, b: real, c: real)
    ensures a * (b * c) == (a * c) * b && a * 1.0 == a
  {}

  lemma {:induction false} JitterAtMost(interval: real, jitter: real, u: real)
    requires interval >= 0.0 && 0.0 <= jitter && u <= 1.0
    ensures Jittered(interval, jitter, u) <= interval * (1.0 + jitter / 2.0)
  {
    Scaled(0.0, interval, jitter);
    Scaled(u, 1.0, interval * jitter);
    assert interval * (1.0 + jitter / 2.0) == interval + interval * jitter / 2.0;
    if jitter == 0.0 { assert interval * jitter == 0.0; }
  }

  /** A delay stays within half the jitter of its interval, below it by less than a nanosecond at most. */
  lemma {:induction false} DelayWithin(cfg: Config, attempt: nat, u: real)
    requires Validated(cfg) && 0.0 <= u <= 1.0
    ensures var interval := Interval(cfg, attempt);
      && interval * (1.0 - cfg.jitter / 2.0) - 1.0 < DelayOf(cfg, attempt, u) as real
      && DelayOf(cfg, attempt, u) as real <= interval * (1.0 + cfg.jitter / 2.0)
  {
    hide Interval;
    IntervalAtLeastInitial(cfg, attempt);
    var interval := Interval(cfg, attempt);
    JitterAtMost(interval, cfg.jitter, u);
    JitterAtLeast(interval, interval, cfg.jitter, u);
  }

  lemma {:induction false} Commutes(a: real, b: real)
    ensures a * b == b * a && 1.0 * b == b
  {}

  lemma {:induction false} JitterAtLeast(interval: real, initial: real, jitter: real, u: real)
    requires interval >= initial > 0.0 && 0.0 <= jitter <= 1.0 && 0.0 <= u
    ensures Jittered(interval, jitter, u) >= initial * (1.0 - jitter / 2.0) >= 0.0
  {
    var rest := 1.0 - jitter / 2.0;
    Scaled(initial, interval, rest);
    Scaled(0.0, initial, rest);
    Scaled(0.0, interval, jitter);
    Scaled(0.0, u, interval * jitter);
    assert interval * rest == interval - interval * jitter / 2.0;
    if jitter == 0.0 { assert interval * rest == interval; }
    assert Jittered(interval, jitter, u) >= interval * rest;
  }

  /** Every delay is at least the least one, whatever the attempt and the random number. */
  lemma {:induction false} DelayAtLeast(cfg: Config, attempt: nat, u: real)
    requires Validated(cfg) && 0.0 <= u
    ensures DelayOf(cfg, attempt, u) >= LeastDelay(cfg) >= 0
  {
    IntervalAtLeastInitial(cfg, attempt);
    JitterAtLeast(Interval(cfg, attempt), cfg.initial as real, cfg.jitter, u);
  }

  function Sum(delays: seq<int>): int
    decreases |delays|
  {
    if delays == [] then 0 else Sum(delays[..|delays| - 1]) + delays[|delays| - 1]
  }

  /** n delays of at least d add up to at least n * d. */
  lemma {:induction false} SumAtLeast(delays: seq<int>, d: int)
    requires forall i :: 0 <= i < |delays| ==> delays[i] >= d
    ensures Sum(delays) >= |delays| * d
    decreases |delays|
  {
    if delays != [] {
      SumAtLeast(delays[..|delays| - 1], d);
      assert |delays| * d == (|delays| - 1) * d + d;
    }
  }

  lemma {:induction false} CountBound(n: nat, d: int, total: int)
    requires d > 0 && n * d <= total
    ensures n <= total / d
  {
    var q := total / d;
    assert total == q * d + total % d;
    assert (q + 1) * d == q * d + d;
    if n > q { Product(q + 1, n, d); }
  }

  lemma {:induction false} Product(a: int, b: int, d: int)
    requires a <= b && d >= 0
    ensures a * d <= b * d
  {}

  /** The time spent is what was given out, and it never passes the limit. */
  ghost predicate Tallied(cfg: Config, given: seq<int>, elapsed: int) {
    && Validated(cfg)
    && elapsed == Sum(given) && 0 <= elapsed <= cfg.maxElapsed
    && (forall i :: 0 <= i < |given| ==> given[i] >= LeastDelay(cfg) && given[i] > 0)
  }

  lemma {:induction false} TalliedIs(cfg: Config, given: seq<int>, elapsed: int)
    requires Tallied(cfg, given, elapsed)
    ensures Validated(cfg) && elapsed == Sum(given)
  {}

  lemma {:induction false} TalliedMore(cfg: Config, given: seq<int>, elapsed: int, d: int)
    requires Tallied(cfg, given, elapsed) && d >= LeastDelay(cfg) && elapsed + d <= cfg.maxElapsed
    ensures d > 0 ==> Tallied(cfg, given + [d], elapsed + d)
  {
    hide LeastDelay;
    assert (given + [d])[..|given|] == given;
  }

  class Delays {
    const cfg: Config
    var attempt: nat
    var elapsed: int
    ghost var given: seq<int>

    ghost predicate Valid()
      reads this
    {
      Tallied(cfg, given, elapsed)
    }

    constructor (cfg: Config)
      requires Validated(cfg)
      ensures this.cfg == cfg && given == [] && attempt == 0 && Valid()
    {
      this.cfg, attempt, elapsed, given := cfg, 0, 0, [];
    }

    /** The next delay; zero when there is no time left for it. */
    method Next(u: real) returns (d: int)
      requires Valid() && 0.0 <= u < 1.0
      modifies this
      ensures Valid() && d >= 0 && elapsed == old(elapsed) + d
      ensures d > 0 ==>
        given == old(given) + [d] && d == DelayOf(cfg, old(attempt), u) && attempt == old(attempt) + 1
      ensures d == 0 ==> given == old(given)
      ensures old(elapsed) >= cfg.maxElapsed ==> d == 0 && attempt == old(attempt)
      ensures d == 0 ==>
        || old(elapsed) >= cfg.maxElapsed
        || old(elapsed) + DelayOf(cfg, old(attempt), u) > cfg.maxElapsed
        || DelayOf(cfg, old(attempt), u) == 0
    {
      TalliedIs(cfg, given, elapsed);
      hide Tallied, DelayOf, LeastDelay;
      if cfg.maxElapsed > 0 && elapsed >= cfg.maxElapsed { return 0; }
      d := Draw(cfg, attempt, u);
      DelayAtLeast(cfg, attempt, u);
      attempt := attempt + 1;
      if cfg.maxElapsed > 0 && elapsed + d > cfg.maxElapsed { return 0; }
      TalliedMore(cfg, given, elapsed, d);
      elapsed := elapsed + d;
      if d > 0 { given := given + [d]; }
    }

    /** Number of delays given out, bounded by the time limit over the least delay. */
    lemma {:induction false} GivenBounded()
      requires Valid()
      ensures Sum(given) <= cfg.maxElapsed
      ensures LeastDelay(cfg) > 0 ==> |given| <= cfg.maxElapsed / LeastDelay(cfg)
      ensures |given| <= cfg.maxElapsed
    {
      SumAtLeast(given, 1);
      if LeastDelay(cfg) > 0 {
        SumAtLeast(given, LeastDelay(cfg));
        CountBound(|given|, LeastDelay(cfg), cfg.maxElapsed);
      }
    }
  }
}
