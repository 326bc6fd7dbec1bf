/** The per-key token bucket of the local HTTP interface. Time and tokens are real numbers; the clock
    is monotone and read several times in one call. */
module TokenBucket {
  class Clock {
    var now: real

    constructor ()
    {
      now := 0.0;
    }

    method Read() returns (t: real)
      modifies this
      ensures now >= old(now) && t == now
    {
      var d: real := *;
      if d > 0.0 { now := now + d; }
      t := now;
    }
  }

  datatype Bucket = Bucket(tokens: real, last: real)

  /** One call for a key: entry time, the clock reading the refill used, the tokens after the refill,
      the answer, and the reading stored as the bucket's last. */
  datatype Request = Request(entry: real, read: real, filled: real, allowed: bool, last: real)

  function Left(q: Request): real { if q.allowed then q.filled - 1.0 else q.filled }

  /** A request against a bucket of the given rate and size; it is allowed exactly when a whole token
      is there. */
  ghost predicate Fair(q: Request, burst: real) {
    && q.entry <= q.read <= q.last
    && 0.0 <= q.filled <= burst
    && (q.allowed <==> q.filled >= 1.0)
  }

  /** The requests of one key in order: each refill is what the bucket had, plus the rate for the time
      since the last stored reading, cut off at the burst. The first finds a full bucket. */
  ghost predicate Trace(qs: seq<Request>, rate: real, burst: real) {
    && (forall k :: 0 <= k < |qs| ==> Fair(qs[k], burst))
    && (qs != [] ==> qs[0].filled == burst)
    && (forall k :: 0 < k < |qs| ==>
          && qs[k - 1].last <= qs[k].entry
          && qs[k].filled == Refill(Left(qs[k - 1]), qs[k].read - qs[k - 1].last, rate, burst))
  }

  /** What a stretch of time is worth. */
  function Earned(elapsed: real, rate: real): real { elapsed * rate }

  function Refill(tokens: real, elapsed: real, rate: real, burst: real): real {
    var t := tokens + Earned(elapsed, rate);
    if t > burst then burst else t
  }

  function Allowed(qs: seq<Request>): nat
    decreases |qs|
  {
    if qs == [] then 0 else Allowed(qs[..|qs| - 1]) + if qs[|qs| - 1].allowed then 1 else 0
  }

  lemma {:induction false} AllowedSnoc(qs: seq<Request>, q: Request)
    ensures Allowed(qs + [q]) as real + Left(q) == Allowed(qs) as real + q.filled
  {
    assert (qs + [q])[..|qs|] == qs;
  }

  lemma {:induction false} EarnedMore(a: real, b: real, rate: real)
    requires a <= b && rate >= 0.0
    ensures Earned(a, rate) <= Earned(b, rate)
    ensures a >= 0.0 ==> Earned(a, rate) >= 0.0
  {
    assert b * rate - a * rate == (b - a) * rate;
  }

  lemma {:induction false} EarnedSum(a: real, b: real, rate: real)
    ensures Earned(a, rate) + Earned(b, rate) == Earned(a + b, rate)
  {}

  lemma {:induction false} TraceAt(qs: seq<Request>, rate: real, burst: real, k: nat)
    requires Trace(qs, rate, burst) && k < |qs|
    ensures Fair(qs[k], burst)
    ensures k > 0 ==>
      qs[k - 1].last <= qs[k].entry && qs[k].filled == Refill(Left(qs[k - 1]), qs[k].read - qs[k - 1].last, rate, burst)
    ensures k > 0 ==> qs[k].filled <= Left(qs[k - 1]) + Earned(qs[k].read - qs[k - 1].last, rate)
  {}

  /** In every window of one key's requests at most burst + rate * elapsed are allowed, and what is left
      in the bucket counts against that. */
  lemma {:induction false} WindowBound(qs: seq<Request>, rate: real, burst: real, i: nat, j: nat)
    requires Trace(qs, rate, burst) && rate >= 0.0 && i <= j < |qs|
    ensures Allowed(qs[i..j + 1]) as real + Left(qs[j]) <= burst + Earned(qs[j].read - qs[i].read, rate)
    decreases j
  {
    hide Trace, Allowed, Left, Earned, Refill;
    assert qs[i..j + 1] == qs[i..j] + [qs[j]];
    AllowedSnoc(qs[i..j], qs[j]);
    TraceAt(qs, rate, burst, j);
    if i < j {
      WindowBound(qs, rate, burst, i, j - 1);
      TraceAt(qs, rate, burst, j - 1);
      var now, last, read, first := qs[j].read, qs[j - 1].last, qs[j - 1].read, qs[i].read;
      EarnedMore(now - last, now - read, rate);
      EarnedSum(now - read, read - first, rate);
    } else {
      assert qs[i..j] == [];
      NoneAllowed();
      EarnedMore(0.0, 0.0, rate);
    }
  }

  lemma {:induction false} NoneAllowed()
    ensures Allowed([]) == 0
  {}

  /** The bound in terms of the window itself: from the entry of its first request to the end of its
      last. */
  lemma {:induction false} RequestsBounded(qs: seq<Request>, rate: real, burst: real, i: nat, j: nat)
    requires Trace(qs, rate, burst) && rate >= 0.0 && i <= j < |qs|
    ensures Allowed(qs[i..j + 1]) as real <= burst + Earned(qs[j].last - qs[i].entry, rate)
  {
    hide Trace, Allowed, Earned, Refill;
    WindowBound(qs, rate, burst, i, j);
    TraceAt(qs, rate, burst, i);
    TraceAt(qs, rate, burst, j);
    EarnedMore(qs[j].read - qs[i].read, qs[j].last - qs[i].entry, rate);
  }

  /** A key that leaves at least 1/rate between its requests is never refused. */
  lemma {:induction false} SteadyIsAllowed(qs: seq<Request>, rate: real, burst: real, j: nat)
    requires Trace(qs, rate, burst) && burst >= 1.0 && j < |qs|
    requires forall k :: 0 < k <= j ==> Earned(qs[k].read - qs[k - 1].last, rate) >= 1.0
    ensures qs[j].allowed
    decreases j
  {
    TraceAt(qs, rate, burst, j);
    if j > 0 {
      SteadyIsAllowed(qs, rate, burst, j - 1);
      TraceAt(qs, rate, burst, j - 1);
    } else {
      assert qs[0].filled == burst;
    }
  }

  lemma {:induction false} Extended(past: seq<Request>, q: Request, rate: real, burst: real)
    requires past == [] || Trace(past, rate, burst)
    requires Fair(q, burst)
    requires past == [] ==> q.filled == burst
    requires past != [] ==> var p := past[|past| - 1];
      p.last <= q.entry && q.filled == Refill(Left(p), q.read - p.last, rate, burst)
    ensures Trace(past + [q], rate, burst)
  {}

  /** The request a call makes of the bucket it found. */
  lemma {:induction false} Served(past: seq<Request>, b: Bucket, q: Request, rate: real, burst: real)
    requires rate >= 0.0 && burst >= 0.0
    requires past == [] ==> b.tokens == burst
    requires past != [] ==>
      Trace(past, rate, burst) && b == Bucket(Left(past[|past| - 1]), past[|past| - 1].last) && b.last <= q.entry
    requires 0.0 <= b.tokens <= burst && b.last <= q.read && q.entry <= q.read <= q.last
    requires q.filled == var t := b.tokens + (q.read - b.last) * rate; if t > burst then burst else t
    requires q.allowed <==> q.filled >= 1.0
    ensures Trace(past + [q], rate, burst)
  {
    hide Trace;
    EarnedMore(0.0, q.read - b.last, rate);
    assert Refill(b.tokens, q.read - b.last, rate, burst) == q.filled;
    Extended(past, q, rate, burst);
  }

  /** A bucket is the outcome of its key's requests. */
  ghost predicate Mirrors(buckets: map<string, Bucket>, traces: map<string, seq<Request>>, key: string, rate: real,
                          burst: real) {
    && key in traces && traces[key] != [] && Trace(traces[key], rate, burst)
    && key in buckets
    && var q := traces[key][|traces[key]| - 1];
       buckets[key] == Bucket(Left(q), q.last)
  }

  ghost predicate Consistent(buckets: map<string, Bucket>, traces: map<string, seq<Request>>, rate: real, burst: real,
                             now: real) {
    && rate >= 0.0 && burst >= 0.0
    && traces.Keys == buckets.Keys
    && (forall key :: key in buckets ==> Mirrors(buckets, traces, key, rate, burst) && buckets[key].last <= now)
  }

  function Past(traces: map<string, seq<Request>>, key: string): seq<Request> {
    if key in traces then traces[key] else []
  }

  /** Tokens stay between nothing and the burst. */
  lemma {:induction false} TokensBounded(buckets: map<string, Bucket>, traces: map<string, seq<Request>>, rate: real,
                                         burst: real, now: real, key: string)
    requires Consistent(buckets, traces, rate, burst, now) && key in buckets
    ensures 0.0 <= buckets[key].tokens <= burst && buckets[key].last <= now
  {
    assert Mirrors(buckets, traces, key, rate, burst);
    TraceAt(traces[key], rate, burst, |traces[key]| - 1);
  }

  /** The state after one request. */
  lemma {:induction false} ConsistentStep(buckets: map<string, Bucket>, traces: map<string, seq<Request>>, rate: real,
                                          burst: real, now: real, key: string, b: Bucket, q: Request)
    requires Consistent(buckets, traces, rate, burst, now)
    requires if key in buckets then b == buckets[key] else b.tokens == burst && now <= b.last
    requires now == q.entry <= q.read <= q.last && b.last <= q.read
    requires q.filled == var t := b.tokens + (q.read - b.last) * rate; if t > burst then burst else t
    requires q.allowed <==> q.filled >= 1.0
    ensures Consistent(buckets[key := Bucket(Left(q), q.last)], traces[key := Past(traces, key) + [q]], rate, burst,
      q.last)
  {
    hide Trace, Left;
    if key in buckets {
      TokensBounded(buckets, traces, rate, burst, now, key);
      assert Mirrors(buckets, traces, key, rate, burst);
    }
    Served(Past(traces, key), b, q, rate, burst);
    var buckets1, traces1 := buckets[key := Bucket(Left(q), q.last)], traces[key := Past(traces, key) + [q]];
    forall k | k in buckets1 ensures Mirrors(buckets1, traces1, k, rate, burst) && buckets1[k].last <= q.last {
      if k != key { assert Mirrors(buckets, traces, k, rate, burst); }
    }
  }

  class RateLimiter {
    const rate: real
    const burst: real
    const clock: Clock
    var buckets: map<string, Bucket>
    ghost var traces: map<string, seq<Request>>

    ghost predicate Valid()
      reads this, clock
    {
      Consistent(buckets, traces, rate, burst, clock.now)
    }

    constructor (ratePerSec: real, burst: real, clock: Clock)
      requires ratePerSec >= 0.0 && burst >= 0.0
      ensures this.rate == ratePerSec && this.burst == burst && this.clock == clock && buckets == map[]
      ensures traces == map[] && Valid()
    {
      this.rate, this.burst, this.clock := ratePerSec, burst, clock;
      buckets, traces := map[], map[];
    }

    /** One request. It extends the history of its own key by one request, on the terms of Trace, and
        touches no other key. */
    method Allow(key: string) returns (ok: bool)
      requires Valid()
      modifies this, clock
      ensures Valid() && clock.now >= old(clock.now)
      ensures key in traces && |traces[key]| == |Past(old(traces), key)| + 1
      ensures traces == old(traces)[key := traces[key]]
      ensures traces[key][..|traces[key]| - 1] == Past(old(traces), key)
      ensures var q := traces[key][|traces[key]| - 1];
        q.allowed == ok && q.entry == old(clock.now) && q.last == clock.now
      ensures key in buckets && buckets == old(buckets)[key := buckets[key]]
    {
      hide Consistent;
      ghost var was, entry := buckets, clock.now;
      if key in buckets { TokensBounded(buckets, traces, rate, burst, clock.now, key); }
      if key !in buckets {
        var last := clock.Read();
        buckets := buckets[key := Bucket(burst, last)];
      }
      var b := buckets[key];
      var read := clock.Read();
      var elapsed := read - b.last;
      var tokens := b.tokens + elapsed * rate;
      if tokens > burst { tokens := burst; }
      var again := clock.Read();
      ok := tokens >= 1.0;
      buckets := buckets[key := Bucket(if ok then tokens - 1.0 else tokens, again)];
      ghost var q := Request(entry, read, tokens, ok, again);
      ConsistentStep(was, traces, rate, burst, entry, key, b, q);
      assert buckets == was[key := Bucket(Left(q), q.last)];
      traces := traces[key := Past(traces, key) + [q]];
    }
  }
}
