/** Splitting a difference list into transmission batches, and the proof that the greedy splitter
    emits the fewest batches possible. */
module Packager {
  import opened Model

  const DEFAULT_BATCH_SIZE: int := 1000
  const MAX_BATCH_CONTENT_BYTES: int := 15 * 1024 * 1024

  datatype PackedBatch = PackedBatch(id: nat, files: seq<FileDiff>)

  function FileBytes(d: FileDiff): int { if d.action == Delete then 0 else d.file.size }

  predicate Oversized(d: FileDiff, maxBytes: int) {
    d.action != Delete && maxBytes > 0 && d.file.size > maxBytes
  }

  function Total(ds: seq<FileDiff>): int
    decreases |ds|
  {
    if ds == [] then 0 else Total(ds[..|ds| - 1]) + FileBytes(ds[|ds| - 1])
  }

  function Limit(batchSize: int): int { if batchSize <= 0 then DEFAULT_BATCH_SIZE else batchSize }

  // ---- what a caller may send as one batch ---------------------------------------------------

  /** One oversized file alone, or at most `limit` files none of which is oversized and whose
      contents together fit. */
  ghost predicate Admissible(b: seq<FileDiff>, limit: int, maxBytes: int) {
    b != [] &&
    if |b| == 1 && maxBytes > 0 && FileBytes(b[0]) > maxBytes then true
    else
      && (maxBytes > 0 ==> forall i :: 0 <= i < |b| ==> FileBytes(b[i]) <= maxBytes)
      && |b| <= limit
      && (maxBytes > 0 ==> Total(b) <= maxBytes)
  }

  function Concat(cut: seq<seq<FileDiff>>): seq<FileDiff>
    decreases |cut|
  {
    if cut == [] then [] else Concat(cut[..|cut| - 1]) + cut[|cut| - 1]
  }

  /** An order-preserving division of the list into admissible batches. */
  ghost predicate IsCut(cut: seq<seq<FileDiff>>, ds: seq<FileDiff>, limit: int, maxBytes: int) {
    Concat(cut) == ds && forall i :: 0 <= i < |cut| ==> Admissible(cut[i], limit, maxBytes)
  }

  // ---- the greedy state after a prefix -------------------------------------------------------

  /** Batches already emitted, and the batch being filled. */
  datatype Packing = Packing(done: seq<seq<FileDiff>>, open: seq<FileDiff>) {
    function Flushed(): seq<seq<FileDiff>> { if open == [] then done else done + [open] }
  }

  predicate MustFlush(p: Packing, d: FileDiff, limit: int, maxBytes: int) {
    p.open != [] && (|p.open| >= limit || (maxBytes > 0 && Total(p.open) + FileBytes(d) > maxBytes))
  }

  function Add(p: Packing, d: FileDiff, limit: int, maxBytes: int): Packing {
    if Oversized(d, maxBytes) then Packing(p.Flushed() + [[d]], [])
    else if MustFlush(p, d, limit, maxBytes) then Packing(p.Flushed(), [d])
    else Packing(p.done, p.open + [d])
  }

  function Greedy(ds: seq<FileDiff>, limit: int, maxBytes: int): Packing
    decreases |ds|
  {
    if ds == [] then Packing([], [])
    else Add(Greedy(ds[..|ds| - 1], limit, maxBytes), ds[|ds| - 1], limit, maxBytes)
  }

  ghost function FilesOf(batches: seq<PackedBatch>): seq<seq<FileDiff>> {
    seq(|batches|, i requires 0 <= i < |batches| => batches[i].files)
  }

  ghost predicate Numbered(batches: seq<PackedBatch>) {
    forall i :: 0 <= i < |batches| ==> batches[i].id == i + 1
  }

  lemma {:induction false} Emit(batches: seq<PackedBatch>, files: seq<FileDiff>)
    requires Numbered(batches)
    ensures var out := batches + [PackedBatch(|batches| + 1, files)];
      Numbered(out) && FilesOf(out) == FilesOf(batches) + [files]
  {}

  lemma {:induction false} GreedyStep(diffs: seq<FileDiff>, n: nat, limit: int, maxBytes: int)
    requires n < |diffs|
    ensures Greedy(diffs[..n + 1], limit, maxBytes) ==
      Add(Greedy(diffs[..n], limit, maxBytes), diffs[n], limit, maxBytes)
  {
    assert diffs[..n + 1][..n] == diffs[..n];
  }

  lemma {:induction false} GreedyEmpty(diffs: seq<FileDiff>, limit: int, maxBytes: int)
    ensures Greedy(diffs[..0], limit, maxBytes) == Packing([], [])
  {}

  /** The loop of the packager, with its running byte count. */
  method PackBatchesWithinSize(diffs: seq<FileDiff>, batchSize: int, maxBytes: int) returns (batches: seq<PackedBatch>)
    ensures FilesOf(batches) == Greedy(diffs, Limit(batchSize), maxBytes).Flushed()
    ensures Numbered(batches)
  {
    hide Greedy, Concat;
    GreedyEmpty(diffs, Limit(batchSize), maxBytes);
    var limit := batchSize;
    if limit <= 0 {
      limit := DEFAULT_BATCH_SIZE;
    }
    batches := [];
    var batchFiles: seq<FileDiff> := [];
    var batchBytes := 0;
    for n := 0 to |diffs|
      invariant limit == Limit(batchSize)
      invariant Packing(FilesOf(batches), batchFiles) == Greedy(diffs[..n], limit, maxBytes)
      invariant batchBytes == Total(batchFiles)
      invariant Numbered(batches)
    {
      var diff := diffs[n];
      GreedyStep(diffs, n, limit, maxBytes);
      var fileBytes := 0;
      if diff.action != Delete {
        fileBytes := diff.file.size;
        if maxBytes > 0 && fileBytes > maxBytes {
          batches, batchFiles, batchBytes := Flush(batches, batchFiles, batchBytes);
          Emit(batches, [diff]);
          batches := batches + [PackedBatch(|batches| + 1, [diff])];
          continue;
        }
      }
      if |batchFiles| > 0 && (|batchFiles| >= limit || (maxBytes > 0 && batchBytes + fileBytes > maxBytes)) {
        batches, batchFiles, batchBytes := Flush(batches, batchFiles, batchBytes);
      }
      TotalSnoc(batchFiles, diff);
      batchFiles := batchFiles + [diff];
      batchBytes := batchBytes + fileBytes;
    }
    assert diffs[..|diffs|] == diffs;
    batches, batchFiles, batchBytes := Flush(batches, batchFiles, batchBytes);
  }

  method Flush(batches: seq<PackedBatch>, batchFiles: seq<FileDiff>, batchBytes: int)
    returns (out: seq<PackedBatch>, files: seq<FileDiff>, bytes: int)
    requires batchBytes == Total(batchFiles) && Numbered(batches)
    ensures FilesOf(out) == Packing(FilesOf(batches), batchFiles).Flushed()
    ensures files == [] && bytes == 0 && Numbered(out)
  {
    if |batchFiles| == 0 {
      return batches, batchFiles, batchBytes;
    }
    Emit(batches, batchFiles);
    return batches + [PackedBatch(|batches| + 1, batchFiles)], [], 0;
  }

  // ---- soundness: the greedy batches are an admissible cut -----------------------------------

  ghost predicate Sound(p: Packing, ds: seq<FileDiff>, limit: int, maxBytes: int) {
    && Concat(p.done) + p.open == ds
    && (forall i :: 0 <= i < |p.done| ==> Admissible(p.done[i], limit, maxBytes))
    && (p.open != [] ==> Admissible(p.open, limit, maxBytes) && !Oversized(p.open[0], maxBytes))
    && (p.open == [] && ds != [] ==> Oversized(ds[|ds| - 1], maxBytes))
  }

  lemma {:induction false} ConcatSnoc(cut: seq<seq<FileDiff>>, b: seq<FileDiff>)
    ensures Concat(cut + [b]) == Concat(cut) + b
  {
    assert (cut + [b])[..|cut|] == cut;
  }

  lemma {:induction false} TotalSnoc(ds: seq<FileDiff>, d: FileDiff)
    ensures Total(ds + [d]) == Total(ds) + FileBytes(d)
  {
    assert (ds + [d])[..|ds|] == ds;
  }

  lemma {:induction false} FlushedSound(p: Packing, ds: seq<FileDiff>, limit: int, maxBytes: int)
    requires Sound(p, ds, limit, maxBytes)
    ensures IsCut(p.Flushed(), ds, limit, maxBytes)
  {
    if p.open != [] { ConcatSnoc(p.done, p.open); }
  }

  lemma {:induction false} EmptySums()
    ensures Total([]) == 0 && Concat([]) == []
  {}

  lemma {:induction false} AddSound(p: Packing, before: seq<FileDiff>, d: FileDiff, limit: int, maxBytes: int)
    requires Sound(p, before, limit, maxBytes) && limit >= 1
    ensures Sound(Add(p, d, limit, maxBytes), before + [d], limit, maxBytes)
  {
    hide Concat, Total;
    EmptySums();
    FlushedSound(p, before, limit, maxBytes);
    ConcatSnoc(p.Flushed(), [d]);
    TotalSnoc(p.open, d);
    TotalSnoc([], d);
    assert [] + [d] == [d];
    assert Concat(p.done) + (p.open + [d]) == before + [d];
  }

  lemma {:induction false} GreedySound(ds: seq<FileDiff>, limit: int, maxBytes: int)
    requires limit >= 1
    ensures Sound(Greedy(ds, limit, maxBytes), ds, limit, maxBytes)
    decreases |ds|
  {
    if ds != [] {
      var before := ds[..|ds| - 1];
      GreedySound(before, limit, maxBytes);
      AddSound(Greedy(before, limit, maxBytes), before, ds[|ds| - 1], limit, maxBytes);
      assert before + [ds[|ds| - 1]] == ds;
    }
  }

  /** Nothing is lost, duplicated or reordered, and every emitted batch may be sent. */
  lemma {:induction false} PackedIsCut(ds: seq<FileDiff>, batchSize: int, maxBytes: int)
    ensures var limit := if batchSize > 0 then batchSize else 1000;
      IsCut(Greedy(ds, Limit(batchSize), maxBytes).Flushed(), ds, limit, maxBytes)
  {
    GreedySound(ds, Limit(batchSize), maxBytes);
    FlushedSound(Greedy(ds, Limit(batchSize), maxBytes), ds, Limit(batchSize), maxBytes);
  }

  // ---- optimality: greedy stays ahead of every other cut -------------------------------------

  ghost predicate NonNegative(ds: seq<FileDiff>) {
    forall i :: 0 <= i < |ds| ==> FileBytes(ds[i]) >= 0
  }

  lemma {:induction false} TotalSuffix(ds: seq<FileDiff>, k: nat)
    requires NonNegative(ds) && k <= |ds|
    ensures Total(ds[k..]) <= Total(ds)
    decreases |ds|
  {
    if k < |ds| {
      var before := ds[..|ds| - 1];
      TotalSuffix(before, k);
      assert ds[k..][..|ds[k..]| - 1] == before[k..];
    } else if ds != [] {
      TotalSuffix(ds[..|ds| - 1], |ds| - 1);
      assert ds[k..] == [] == ds[..|ds| - 1][|ds| - 1..];
    }
  }

  /** Dropping the last file of a shared batch leaves an admissible batch. */
  lemma {:induction false} AdmissibleInit(b: seq<FileDiff>, limit: int, maxBytes: int)
    requires Admissible(b, limit, maxBytes) && NonNegative(b) && |b| >= 2
    ensures Admissible(b[..|b| - 1], limit, maxBytes)
  {}

  /** The cut of all files but the last that a cut of all files induces. */
  ghost function Shorten(cut: seq<seq<FileDiff>>): seq<seq<FileDiff>>
    requires cut != [] && cut[|cut| - 1] != []
  {
    var l := cut[|cut| - 1];
    if |l| == 1 then cut[..|cut| - 1] else cut[..|cut| - 1] + [l[..|l| - 1]]
  }

  lemma {:induction false} ShortenIsCut(cut: seq<seq<FileDiff>>, before: seq<FileDiff>, d: FileDiff, limit: int,
                                        maxBytes: int)
    requires IsCut(cut, before + [d], limit, maxBytes) && NonNegative(before + [d])
    ensures cut != [] && cut[|cut| - 1] != [] && cut[|cut| - 1][|cut[|cut| - 1]| - 1] == d
    ensures IsCut(Shorten(cut), before, limit, maxBytes)
  {
    assert cut != [];
    var init, l := cut[..|cut| - 1], cut[|cut| - 1];
    var ds := before + [d];
    assert Admissible(l, limit, maxBytes);
    assert ds == Concat(init) + l;
    assert l[|l| - 1] == ds[|ds| - 1];
    assert ds[..|ds| - 1] == before;
    if |l| == 1 {
      assert Concat(init) == ds[..|ds| - 1];
    } else {
      assert Concat(init) + l[..|l| - 1] == ds[..|ds| - 1];
      ConcatSnoc(init, l[..|l| - 1]);
      assert NonNegative(l) by {
        forall i | 0 <= i < |l| ensures FileBytes(l[i]) >= 0 { assert l[i] == ds[|Concat(init)| + i]; }
      }
      AdmissibleInit(l, limit, maxBytes);
    }
  }

  /** No cut has fewer batches, and a cut with equally many leaves no more room in its last one. */
  ghost predicate Ahead(p: Packing, cut: seq<seq<FileDiff>>) {
    && |cut| >= |p.Flushed()|
    && (p.open != [] && |cut| == |p.Flushed()| ==> |cut[|cut| - 1]| >= |p.open|)
  }

  lemma {:induction false} StaysAhead(ds: seq<FileDiff>, cut: seq<seq<FileDiff>>, limit: int, maxBytes: int)
    requires limit >= 1 && NonNegative(ds) && IsCut(cut, ds, limit, maxBytes)
    ensures Ahead(Greedy(ds, limit, maxBytes), cut)
    decreases |ds|
  {
    if ds != [] {
      var before, d := ds[..|ds| - 1], ds[|ds| - 1];
      assert ds == before + [d];
      ShortenIsCut(cut, before, d, limit, maxBytes);
      StaysAhead(before, Shorten(cut), limit, maxBytes);
      GreedySound(before, limit, maxBytes);
      AheadStep(Greedy(before, limit, maxBytes), before, d, cut, limit, maxBytes);
    }
  }

  lemma {:induction false} AheadStep(p: Packing, before: seq<FileDiff>, d: FileDiff, cut: seq<seq<FileDiff>>,
                                     limit: int, maxBytes: int)
    requires limit >= 1 && NonNegative(before + [d]) && IsCut(cut, before + [d], limit, maxBytes)
    requires Sound(p, before, limit, maxBytes)
    requires cut != [] && cut[|cut| - 1] != [] && cut[|cut| - 1][|cut[|cut| - 1]| - 1] == d
    requires IsCut(Shorten(cut), before, limit, maxBytes) && Ahead(p, Shorten(cut))
    ensures Ahead(Add(p, d, limit, maxBytes), cut)
  {
    hide Total, Concat;
    var l := cut[|cut| - 1];
    assert Admissible(l, limit, maxBytes);
    if !Oversized(d, maxBytes) && |l| >= 2 && |cut| == |p.Flushed()| {
      // The last batch of the cut already holds everything that is open, plus d.
      LastPart(cut, before, d);
      RoomForOpen(p.open, l, d, before, limit, maxBytes);
    }
  }

  /** The last batch of a cut ends the list. */
  lemma {:induction false} LastPart(cut: seq<seq<FileDiff>>, before: seq<FileDiff>, d: FileDiff)
    requires cut != [] && Concat(cut) == before + [d] && |cut[|cut| - 1]| >= 2
    ensures var l := cut[|cut| - 1];
      |l| - 1 <= |before| && before[|before| - (|l| - 1)..] == l[..|l| - 1] && before[|before| - 1] == l[|l| - 2]
  {
    var init, l := Concat(cut[..|cut| - 1]), cut[|cut| - 1];
    assert before + [d] == init + l;
    assert before == (before + [d])[..|before|] == init + l[..|l| - 1];
  }

  /** A batch that ends with the open files and d admits d, so the greedy step does not flush. */
  lemma {:induction false} RoomForOpen(open: seq<FileDiff>, l: seq<FileDiff>, d: FileDiff, before: seq<FileDiff>,
                                       limit: int, maxBytes: int)
    requires |l| >= 2 && l[|l| - 1] == d && Admissible(l, limit, maxBytes) && NonNegative(before + [d])
    requires |l| - 1 >= |open| && |l| - 1 <= |before| && before[|before| - (|l| - 1)..] == l[..|l| - 1]
    requires |open| <= |before| && before[|before| - |open|..] == open
    ensures |open| < limit
    ensures maxBytes > 0 ==> Total(open) + FileBytes(d) <= maxBytes
  {
    var k := |l| - 1 - |open|;
    assert l[k..] == open + [d] by {
      forall i | 0 <= i < |open| ensures l[k + i] == open[i] {
        assert l[..|l| - 1][k + i] == before[|before| - (|l| - 1) + k + i];
      }
    }
    assert NonNegative(l) by {
      forall i | 0 <= i < |l| ensures FileBytes(l[i]) >= 0 {
        if i < |l| - 1 {
          assert l[i] == l[..|l| - 1][i] == (before + [d])[|before| - (|l| - 1) + i];
        } else {
          assert l[i] == (before + [d])[|before|];
        }
      }
    }
    TotalSuffix(l, k);
    TotalSnoc(open, d);
  }

  /** The packer is optimal: for non-negative sizes it emits the fewest batches among all
      order-preserving divisions of the list into admissible batches. */
  lemma {:induction false} PackedIsOptimal(ds: seq<FileDiff>, batchSize: int, maxBytes: int, cut: seq<seq<FileDiff>>)
    requires NonNegative(ds) && IsCut(cut, ds, if batchSize > 0 then batchSize else 1000, maxBytes)
    ensures |Greedy(ds, Limit(batchSize), maxBytes).Flushed()| <= |cut|
  {
    StaysAhead(ds, cut, Limit(batchSize), maxBytes);
  }
}
