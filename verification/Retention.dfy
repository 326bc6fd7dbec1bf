/** Snapshot retention: a count limit and a free-space floor, both bounded below by a minimum
    number of kept snapshots. */
module Retention {
  import opened Integers
  import opened Model
  import opened Server

  const GIB: int := 1024 * 1024 * 1024

  datatype Policy = Policy(minKeep: nat, maxKeep: int, minFreeGB: int)

  /** How many snapshots the count limit alone would leave. */
  function CountLimit(n: nat, p: Policy): nat { Min(n, Max(p.minKeep, p.maxKeep)) }

  /** So many free bytes meet a floor in GiB. Whole GiB are counted, and a negative reading is rounded towards
      zero. */
  ghost predicate Meets(freeBytes: int, floor: int) {
    if floor > 0 then freeBytes >= floor * 1_073_741_824 else freeBytes > (floor - 1) * 1_073_741_824
  }

  lemma {:induction false} MeetsIff(freeBytes: int, floor: int)
    ensures Quotient(freeBytes, GIB) >= floor <==> Meets(freeBytes, floor)
  {}

  /** All readings but the last were below the floor; the last met it. */
  ghost predicate LowUntilLast(readings: seq<int>, p: Policy) {
    && readings != []
    && Meets(readings[|readings| - 1], p.minFreeGB)
    && forall i :: 0 <= i < |readings| - 1 ==> !Meets(readings[i], p.minFreeGB)
  }

  /** What remains is the newest part of the list. */
  ghost predicate Suffix(after: seq<Snapshot>, before: seq<Snapshot>) {
    |after| <= |before| && after == before[|before| - |after|..]
  }

  /** On every exit what remains is a suffix of the creation-ordered list with at least
      min(original, minKeep) entries. On success nothing was destroyed unless the count limit or a
      free-space reading below the floor called for it, one snapshot a reading, and the last reading
      met the floor. Without a fault it fails exactly when the minimum is reached and every reading was
      below the floor. */
  method CleanupSnapshots(disk: Disk, p: Policy) returns (ok: bool, readings: seq<int>, ghost fault: bool)
    modifies disk`snaps
    ensures Suffix(disk.snaps, old(disk.snaps))
    ensures |disk.snaps| >= Min(|old(disk.snaps)|, p.minKeep)
    ensures |old(disk.snaps)| <= p.minKeep ==> disk.snaps == old(disk.snaps) && readings == []
    ensures ok && |old(disk.snaps)| > p.minKeep ==>
      && LowUntilLast(readings, p)
      && |disk.snaps| == CountLimit(|old(disk.snaps)|, p) - (|readings| - 1)
    ensures !ok && !fault ==>
      && |old(disk.snaps)| > p.minKeep == |disk.snaps|
      && readings != [] && forall i :: 0 <= i < |readings| ==> !Meets(readings[i], p.minFreeGB)
  {
    hide Meets;
    ok, readings, fault := false, [], false;
    var fails: bool := *;
    if fails { return false, [], true; }
    var remaining := disk.snaps;
    ghost var before := disk.snaps;
    if |remaining| <= p.minKeep { return true, [], false; }
    while |remaining| > p.minKeep && |remaining| > p.maxKeep
      invariant disk.snaps == remaining && Suffix(remaining, before)
      invariant |remaining| >= Min(|before|, Max(p.minKeep, p.maxKeep))
    {
      fails := *;
      if fails { return false, [], true; }
      disk.snaps := disk.snaps[1..];
      remaining := remaining[1..];
    }
    while true
      invariant !fault && disk.snaps == remaining && Suffix(remaining, before) && |remaining| >= p.minKeep
      invariant |remaining| == CountLimit(|before|, p) - |readings|
      invariant forall i :: 0 <= i < |readings| ==> !Meets(readings[i], p.minFreeGB)
      decreases |remaining| - p.minKeep
    {
      fails := *;
      if fails { return false, readings, true; }
      var freeBytes: int := *;
      var freeGB := Quotient(freeBytes, GIB);
      MeetsIff(freeBytes, p.minFreeGB);
      readings := readings + [freeBytes];
      if freeGB >= p.minFreeGB { return true, readings, false; }
      if |remaining| <= p.minKeep { return; }
      fails := *;
      if fails { return false, readings, true; }
      disk.snaps := disk.snaps[1..];
      remaining := remaining[1..];
    }
  }

  /** With the floor of two that the server configuration enforces, the newest snapshot survives
      every clean-up. */
  lemma {:induction false} NewestSurvives(after: seq<Snapshot>, before: seq<Snapshot>, p: Policy)
    requires Suffix(after, before) && |after| >= Min(|before|, p.minKeep)
    requires before != [] && p.minKeep >= 1
    ensures after != [] && after[|after| - 1] == before[|before| - 1]
  {}

  lemma {:induction false} SuffixTransitive(a: seq<Snapshot>, b: seq<Snapshot>, c: seq<Snapshot>)
    requires Suffix(a, b) && Suffix(b, c)
    ensures Suffix(a, c)
  {
    assert b[|b| - |a|..] == c[|c| - |b|..][|b| - |a|..];
  }

  lemma {:induction false} SuffixMore(a: seq<Snapshot>, b: seq<Snapshot>, s: Snapshot)
    requires Suffix(a, b)
    ensures Suffix(a + [s], b + [s])
  {
    assert (b + [s])[|b| - |a|..] == b[|b| - |a|..] + [s];
  }

  /** The lists of a run: after each stream what was there and the new snapshot, pruned. */
  ghost predicate Retained(lists: seq<seq<Snapshot>>, taken: seq<Snapshot>, minKeep: nat) {
    |lists| == |taken| + 1 && forall i :: 0 <= i < |taken| ==> Pruned(lists[i], taken[i], lists[i + 1], minKeep)
  }

  ghost predicate Pruned(before: seq<Snapshot>, s: Snapshot, after: seq<Snapshot>, minKeep: nat) {
    Suffix(after, before + [s]) && |after| >= Min(|before| + 1, minKeep)
  }

  /** One more stream of a run, after k snapshots in all. */
  lemma {:induction false} KeptStep(kept: seq<Snapshot>, all: seq<Snapshot>, k: nat, s: Snapshot, after: seq<Snapshot>,
                                    minKeep: nat)
    requires Suffix(kept, all) && |kept| >= Min(k, minKeep) && Pruned(kept, s, after, minKeep)
    ensures Suffix(after, all + [s]) && |after| >= Min(k + 1, minKeep)
  {
    SuffixMore(kept, all, s);
    SuffixTransitive(after, kept + [s], all + [s]);
  }

  lemma {:induction false} PrunedAt(lists: seq<seq<Snapshot>>, taken: seq<Snapshot>, minKeep: nat, i: nat)
    requires Retained(lists, taken, minKeep) && i < |taken| && |lists| == |taken| + 1
    ensures Pruned(lists[i], taken[i], lists[i + 1], minKeep)
  {
    hide Pruned;
  }

  lemma {:induction false} RunStart(a: seq<Snapshot>, b: seq<Snapshot>, minKeep: nat)
    ensures Suffix(a, a + b[..0]) && |a| >= Min(|a| + 0, minKeep)
  {
    assert a + b[..0] == a;
  }

  lemma {:induction false} RunMore(a: seq<Snapshot>, b: seq<Snapshot>, n: nat)
    requires n < |b|
    ensures a + b[..n + 1] == (a + b[..n]) + [b[n]]
  {}

  /** Over any run of streams what is kept is the newest part of everything ever taken, and never less
      than the minimum once that many exist. */
  lemma {:induction false} RetainedOverRuns(lists: seq<seq<Snapshot>>, taken: seq<Snapshot>, minKeep: nat, n: nat)
    requires |lists| == |taken| + 1 && Retained(lists, taken, minKeep) && n <= |taken|
    ensures Suffix(lists[n], lists[0] + taken[..n]) && |lists[n]| >= Min(|lists[0]| + n, minKeep)
    decreases n
  {
    hide *;
    if n == 0 {
      RunStart(lists[0], taken, minKeep);
    } else {
      var m := n - 1;
      RetainedOverRuns(lists, taken, minKeep, m);
      PrunedAt(lists, taken, minKeep, m);
      RunMore(lists[0], taken, m);
      KeptStep(lists[m], lists[0] + taken[..m], |lists[0]| + m, taken[m], lists[n], minKeep);
    }
  }

  /** The snapshot a restore reads. */
  method LatestSnapshot(disk: Disk) returns (r: Result<Snapshot, string>, ghost fault: bool)
    ensures r.Ok? ==> disk.snaps != [] && r.value == disk.snaps[|disk.snaps| - 1]
    ensures r.Err? ==> fault || disk.snaps == []
  {
    var fails: bool := *;
    if fails { return Err("list"), true; }
    if |disk.snaps| == 0 { return Err("no snapshots available"), false; }
    return Ok(disk.snaps[|disk.snaps| - 1]), false;
  }
}
