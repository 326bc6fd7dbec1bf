/** The bandwidth limiter of one push: how much may be sent in any window of a run. */
module Bandwidth {
  import opened Integers
  import opened Packager

  const SECOND: int := 1_000_000_000

  /** A 64-bit signed result. */
  function Wrap64(x: int): int {
    (x + 0x8000_0000_0000_0000) % 0x1_0000_0000_0000_0000 - 0x8000_0000_0000_0000
  }

  /** The time one payload is worth, in the arithmetic the agent uses. */
  function PayloadTime(bytes: int, rate: int): int
    requires rate > 0
  {
    Quotient(Wrap64(Wrap64(bytes * SECOND) + rate - 1), rate)
  }

  /** The product and the sum stay within 64 bits. */
  predicate Fits(bytes: int, rate: int) { bytes * SECOND + rate - 1 < 0x8000_0000_0000_0000 }

  /** The payload time is the exact quotient, rounded up. */
  predicate IsCeiling(t: int, n: int, rate: int) { (t - 1) * rate < n <= t * rate }

  lemma {:induction false} WrapSmall(x: int)
    requires 0 <= x < 0x8000_0000_0000_0000
    ensures Wrap64(x) == x
  {}

  /** Wrapping takes off a number of whole ranges. */
  lemma {:induction false} WrapBy(x: int) returns (k: int)
    ensures Wrap64(x) == x - k * 0x1_0000_0000_0000_0000
    ensures Wrap64(x) < 0x8000_0000_0000_0000
  {
    k := (x + 0x8000_0000_0000_0000) / 0x1_0000_0000_0000_0000;
  }

  /** A sum that does not fit comes out smaller than the product it started from. */
  lemma {:induction false} WrappedIsLess(n: int, rate: int)
    requires n > 0 && 0 < rate < 0x8000_0000_0000_0000 && n + rate - 1 >= 0x8000_0000_0000_0000
    ensures Wrap64(Wrap64(n) + rate - 1) < n
  {
    hide Wrap64;
    var j := WrapBy(n);
    var k := WrapBy(Wrap64(n) + rate - 1);
    assert Wrap64(Wrap64(n) + rate - 1) == n + rate - 1 - (j + k) * 0x1_0000_0000_0000_0000;
    assert j + k >= 1;
  }

  /** Rounding up needs a numerator of at least n. */
  lemma {:induction false} QuotientBelow(m: int, rate: int, n: int)
    requires rate > 0 && n > 0 && m < n
    ensures Quotient(m, rate) * rate < n
  {
    if m >= 0 { assert m == rate * (m / rate) + m % rate; } else { assert -m == rate * (-m / rate) + -m % rate; }
  }

  /** Exactly when the arithmetic is right: when nothing overflows. A wrapped sum is too small by at least
      the whole range, so no quotient of it can reach the bytes. */
  lemma {:induction false} PayloadTimeExactIff(bytes: int, rate: int)
    requires bytes > 0 && 0 < rate < 0x8000_0000_0000_0000
    ensures IsCeiling(PayloadTime(bytes, rate), bytes * SECOND, rate) <==> Fits(bytes, rate)
  {
    hide Wrap64, Quotient;
    var n := bytes * SECOND;
    if Fits(bytes, rate) {
      WrapSmall(n);
      WrapSmall(n + rate - 1);
      QuotientUp(n + rate - 1, rate);
      Ceiling(n, rate);
    } else {
      WrappedIsLess(n, rate);
      QuotientBelow(Wrap64(Wrap64(n) + rate - 1), rate, n);
    }
  }

  lemma {:induction false} QuotientUp(n: int, rate: int)
    requires n >= 0 && rate > 0
    ensures Quotient(n, rate) == n / rate
  {}

  lemma {:induction false} Ceiling(n: int, rate: int)
    requires n > 0 && rate > 0
    ensures ((n + rate - 1) / rate - 1) * rate < n <= (n + rate - 1) / rate * rate
  {
    var q := (n + rate - 1) / rate;
    assert n + rate - 1 == q * rate + (n + rate - 1) % rate;
    assert (q - 1) * rate == q * rate - rate;
  }

  /** Every payload the packer allows fits at any rate up to half the range. */
  lemma {:induction false} PackedFits(bytes: int, rate: int)
    requires 0 < bytes <= MAX_BATCH_CONTENT_BYTES && 0 < rate <= 0x4000_0000_0000_0000
    ensures Fits(bytes, rate)
  {}

  /** A payload that does not fit may cost no waiting at all: just above nine gigabytes the slot is negative. */
  lemma {:induction false} HugePayloadOverflows()
    ensures !Fits(9_223_372_037, 1) && PayloadTime(9_223_372_037, 1) < 0
  {}

  /** Time in nanoseconds. It never goes back, and a sleep lasts at least as long as asked for. */
  class Clock {
    var now: int

    constructor ()
      ensures now >= 0
    {
      now := 0;
    }

    method Read() returns (t: int)
      modifies this
      ensures now >= old(now) && t == now
    {
      var d: int := *;
      if d > 0 { now := now + d; }
      t := now;
    }

    method Sleep(d: int)
      requires d > 0
      modifies this
      ensures now >= old(now) + d
    {
      var more: int := *;
      now := now + d + if more > 0 then more else 0;
    }
  }

  /** One call: what it was asked to send, when it was entered and when it returned, and the slot of
      time it reserved. */
  datatype Call = Call(bytes: int, entry: int, start: int, next: int, ret: int)

  /** The slot lasts exactly as long as the payload is worth; one that ends in the past costs no sleep. */
  ghost predicate Paced(c: Call, rate: int) {
    0 < c.bytes && c.entry <= c.start && c.next <= c.ret && IsCeiling(c.next - c.start, c.bytes * SECOND, rate)
  }

  /** What a call does, whether or not its payload fits. */
  ghost predicate Slotted(c: Call, rate: int)
    requires rate > 0
  {
    0 < c.bytes && c.entry <= c.start && c.next == c.start + PayloadTime(c.bytes, rate) && c.next <= c.ret
  }

  /** Slots follow one another. */
  ghost predicate InTurn(calls: seq<Call>) {
    forall k :: 0 < k < |calls| ==> calls[k - 1].next <= calls[k].start && calls[k - 1].ret <= calls[k].entry
  }

  /** No slot starts later than it has to: it starts where the one before ended, or while its call runs. */
  ghost predicate Prompt(calls: seq<Call>) {
    forall k :: 0 <= k < |calls| ==> PromptAt(calls, k)
  }

  ghost predicate PromptAt(calls: seq<Call>, k: nat)
    requires k < |calls|
  {
    calls[k].start <= calls[k].ret || (k > 0 && calls[k].start == calls[k - 1].next)
  }

  function Worth(calls: seq<Call>, rate: int): int
    requires rate > 0
    decreases |calls|
  {
    if calls == [] then 0
    else Worth(calls[..|calls| - 1], rate) + PayloadTime(calls[|calls| - 1].bytes, rate)
  }

  /** The limiter never holds back more than the rate asks for: every slot ends a stretch of slots without a
      gap, and the first of them started while its call was running. */
  lemma {:induction false} NoGaps(calls: seq<Call>, rate: int, j: nat) returns (i: nat)
    requires rate > 0 && InTurn(calls) && AllSlotted(calls, rate) && Prompt(calls) && j < |calls|
    ensures i <= j && calls[i].entry <= calls[i].start <= calls[i].ret
    ensures calls[j].next == calls[i].start + Worth(calls[i..j + 1], rate)
    decreases j
  {
    hide PayloadTime, InTurn;
    assert Slotted(calls[j], rate);
    assert PromptAt(calls, j);
    i := j;
    if calls[j].start > calls[j].ret { i := NoGaps(calls, rate, j - 1); }
    var window := calls[i..j + 1];
    assert window[..|window| - 1] == calls[i..j];
  }

  ghost predicate AllSlotted(calls: seq<Call>, rate: int)
    requires rate > 0
  {
    forall k :: 0 <= k < |calls| ==> Slotted(calls[k], rate)
  }

  ghost predicate Run(calls: seq<Call>, rate: int) {
    InTurn(calls) && forall k :: 0 <= k < |calls| ==> Paced(calls[k], rate)
  }

  /** The calls of a limiter are a run exactly if every payload fitted. */
  lemma {:induction false} RunIff(calls: seq<Call>, rate: int)
    requires 0 < rate < 0x8000_0000_0000_0000 && InTurn(calls) && AllSlotted(calls, rate)
    ensures Run(calls, rate) <==> forall k :: 0 <= k < |calls| ==> Fits(calls[k].bytes, rate)
  {
    hide PayloadTime, IsCeiling, Fits;
    forall k | 0 <= k < |calls| ensures Paced(calls[k], rate) <==> Fits(calls[k].bytes, rate) {
      assert Slotted(calls[k], rate);
      PayloadTimeExactIff(calls[k].bytes, rate);
    }
  }

  function Bytes(calls: seq<Call>): int
    decreases |calls|
  {
    if calls == [] then 0 else Bytes(calls[..|calls| - 1]) + calls[|calls| - 1].bytes
  }

  /** In every window of consecutive calls the bytes are at most the rate times the time from the entry
      of the first to the return of the last. */
  lemma {:induction false} WindowBound(calls: seq<Call>, rate: int, i: nat, j: nat)
    requires rate > 0 && Run(calls, rate) && i <= j < |calls|
    ensures Bytes(calls[i..j + 1]) * SECOND <= (calls[j].next - calls[i].start) * rate
    ensures Bytes(calls[i..j + 1]) * SECOND <= (calls[j].ret - calls[i].entry) * rate
    decreases j
  {
    hide InTurn, IsCeiling;
    var window, c := calls[i..j + 1], calls[j];
    assert window[..|window| - 1] == calls[i..j];
    PacedMeans(calls, i, rate);
    PacedMeans(calls, j, rate);
    if i < j {
      WindowBound(calls, rate, i, j - 1);
      TurnOf(calls, j);
      Added(Bytes(calls[i..j]), c.bytes, calls[j - 1].next - calls[i].start, c.next - c.start,
            c.next - calls[i].start, rate);
    } else {
      assert calls[i..j] == [];
    }
    Monotone(c.next - calls[i].start, c.ret - calls[i].entry, rate);
  }

  lemma {:induction false} PacedMeans(calls: seq<Call>, k: nat, rate: int)
    requires rate > 0 && Run(calls, rate) && k < |calls|
    ensures calls[k].entry <= calls[k].start && calls[k].next <= calls[k].ret
    ensures calls[k].bytes * SECOND <= (calls[k].next - calls[k].start) * rate
  {
    hide InTurn;
    assert Paced(calls[k], rate);
  }

  lemma {:induction false} TurnOf(calls: seq<Call>, k: nat)
    requires InTurn(calls) && 0 < k < |calls|
    ensures calls[k - 1].next <= calls[k].start
  {}

  lemma {:induction false} Added(a: int, b: int, x: int, y: int, z: int, rate: int)
    requires a * SECOND <= x * rate && b * SECOND <= y * rate && x + y <= z && rate >= 0
    ensures (a + b) * SECOND <= z * rate
  {
    Monotone(x + y, z, rate);
    assert (x + y) * rate == x * rate + y * rate;
  }

  lemma {:induction false} Monotone(a: int, b: int, rate: int)
    requires a <= b && rate >= 0
    ensures a * rate <= b * rate
  {}

  /** The limiter of one push; a rate that is not positive means there is none. */
  class Limiter {
    const rate: int
    var next: int
    ghost var calls: seq<Call>

    ghost predicate Valid(clock: Clock)
      reads this, clock
    {
      && clock.now >= 0
      && (rate > 0 ==> AllSlotted(calls, rate)) && InTurn(calls) && Prompt(calls)
      && (if calls == [] then next == 0 else next == calls[|calls| - 1].next && calls[|calls| - 1].ret <= clock.now)
    }

    constructor (rate: int, clock: Clock)
      requires clock.now >= 0
      ensures this.rate == rate && calls == [] && Valid(clock)
    {
      this.rate, next, calls := rate, 0, [];
    }

    /** Reserves the next slot and sleeps until it is over. The calls stay a run exactly as long as every
        payload fits. */
    method Wait(clock: Clock, bytes: int)
      requires Valid(clock) && rate < 0x8000_0000_0000_0000
      modifies this`next, this`calls, clock
      ensures Valid(clock) && clock.now >= old(clock.now)
      ensures rate <= 0 || bytes <= 0 ==> calls == old(calls) && clock.now == old(clock.now)
      ensures rate > 0 && bytes > 0 ==>
        |calls| == |old(calls)| + 1 && calls[..|old(calls)|] == old(calls) &&
        var c := calls[|old(calls)|]; c.bytes == bytes && c.entry == old(clock.now) && c.ret == clock.now
      ensures rate > 0 ==> (Run(calls, rate) <==> forall k :: 0 <= k < |calls| ==> Fits(calls[k].bytes, rate))
    {
      hide Run, PayloadTime, InTurn, AllSlotted, Slotted, Fits, Prompt;
      if rate > 0 && bytes > 0 {
        ghost var entry := clock.now;
        var now := clock.Read();
        if next < now { next := now; }
        ghost var start := next;
        next := next + PayloadTime(bytes, rate);
        var delay := next - now;
        if delay > 0 { clock.Sleep(delay); }
        ghost var c := Call(bytes, entry, start, next, clock.now);
        CallsMore(calls, c, rate);
        calls := calls + [c];
      }
      if rate > 0 { RunIff(calls, rate); }
    }
  }

  lemma {:induction false} CallsMore(calls: seq<Call>, c: Call, rate: int)
    requires rate > 0 && InTurn(calls) && AllSlotted(calls, rate)
    requires 0 < c.bytes && c.entry <= c.start && c.next == c.start + PayloadTime(c.bytes, rate) && c.next <= c.ret
    requires calls != [] ==> calls[|calls| - 1].next <= c.start && calls[|calls| - 1].ret <= c.entry
    requires Prompt(calls) && (c.start <= c.ret || (calls != [] && c.start == calls[|calls| - 1].next))
    ensures InTurn(calls + [c]) && AllSlotted(calls + [c], rate) && Prompt(calls + [c])
  {
    hide PayloadTime, Slotted, Prompt;
    SlottedIs(c, rate);
    PromptMore(calls, c);
  }

  lemma {:induction false} PromptMore(calls: seq<Call>, c: Call)
    requires Prompt(calls) && (c.start <= c.ret || (calls != [] && c.start == calls[|calls| - 1].next))
    ensures Prompt(calls + [c])
  {
    var more := calls + [c];
    forall k | 0 <= k < |more| ensures PromptAt(more, k) {
      if k < |calls| { assert PromptAt(calls, k); }
    }
  }

  lemma {:induction false} SlottedIs(c: Call, rate: int)
    requires rate > 0 && 0 < c.bytes && c.entry <= c.start
    requires c.next == c.start + PayloadTime(c.bytes, rate) && c.next <= c.ret
    ensures Slotted(c, rate)
  {
    hide PayloadTime;
  }
}
