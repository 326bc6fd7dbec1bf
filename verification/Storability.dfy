/** What the tree conditions mean for a scan and a table: when a sync can be stored the first time,
    and when a retry after a partial one can. */
module Storability {
  import opened Model
  import opened Paths
  import opened Namespacing
  import opened FileSystem
  import opened Index
  import opened Patches
  import opened Diff
  import opened Wire
  import opened Packager
  import opened Pusher
  import opened StreamMachine
  import opened TreeConflicts

  /** The differences before the first addition. */
  function StoredCount(diffs: seq<FileDiff>): (m: nat)
    ensures m <= |diffs|
    ensures forall i :: 0 <= i < m ==> diffs[i].action != Add
    ensures m < |diffs| ==> diffs[m].action == Add
  {
    if diffs == [] || diffs[0].action == Add then 0 else 1 + StoredCount(diffs[1..])
  }

  lemma {:induction false} StoredCountSplits(diffs: seq<FileDiff>, i: nat)
    requires AddsLast(diffs) && i < |diffs|
    ensures i < StoredCount(diffs) <==> diffs[i].action != Add
  {}

  /** The scan is one tree below the root; every entry carries its own path. */
  ghost predicate TreeScan(scan: map<string, FileInfo>, prefix: string) {
    && (forall p :: p in scan ==> scan[p].path == p && InScope(p, prefix))
    && PrefixFree(scan.Keys)
  }

  /** A stored path under the root that is gone from the scan. */
  predicate Dropped(index: map<string, Meta>, scan: map<string, FileInfo>, prefix: string, p: string) {
    p in index && p !in scan && InScope(p, prefix)
  }

  predicate New(index: map<string, Meta>, scan: map<string, FileInfo>, p: string) {
    p in scan && p !in index
  }

  lemma {:induction false} NamedAs(diffs: seq<FileDiff>, index: map<string, Meta>, scan: map<string, FileInfo>,
                                   prefix: string, i: nat)
    requires IsDiff(diffs, index, scan, prefix) && TreeScan(scan, prefix) && i < |diffs|
    ensures var p := diffs[i].file.path;
      && (i < StoredCount(diffs) ==> p in index)
      && (diffs[i].action == Delete <==> Dropped(index, scan, prefix, p))
      && (i >= StoredCount(diffs) <==> New(index, scan, p))
      && (diffs[i].action != Delete ==> p in scan)
  {
    StoredCountSplits(diffs, i);
    assert Expected(index, scan, prefix, diffs[i].file.path) == Some(diffs[i]);
  }

  lemma {:induction false} NamedAt(diffs: seq<FileDiff>, index: map<string, Meta>, scan: map<string, FileInfo>,
                                   prefix: string, p: string) returns (i: nat)
    requires IsDiff(diffs, index, scan, prefix) && TreeScan(scan, prefix)
    requires Dropped(index, scan, prefix, p) || New(index, scan, p)
    ensures i < |diffs| && diffs[i].file.path == p
    ensures i < StoredCount(diffs) <==> p in index
  {
    assert Expected(index, scan, prefix, p).Some?;
    assert p in Named(diffs);
    i :| 0 <= i < |diffs| && diffs[i].file.path == p;
    NamedAs(diffs, index, scan, prefix, i);
  }

  lemma {:induction false} GoneAtIff(diffs: seq<FileDiff>, index: map<string, Meta>, scan: map<string, FileInfo>,
                                     prefix: string, disk: LocalFiles, p: string)
    requires IsDiff(diffs, index, scan, prefix) && TreeScan(scan, prefix)
    ensures GoneAt(ChangesFor(prefix, diffs, disk), StoredCount(diffs), p) <==> Dropped(index, scan, prefix, p)
  {
    hide InScope;
    var cs := ChangesFor(prefix, diffs, disk);
    if GoneAt(cs, StoredCount(diffs), p) {
      var i :| 0 <= i < StoredCount(diffs) && cs[i].body.Gone? && cs[i].path == p;
      NamedAs(diffs, index, scan, prefix, i);
    }
    if Dropped(index, scan, prefix, p) {
      var i := NamedAt(diffs, index, scan, prefix, p);
      NamedAs(diffs, index, scan, prefix, i);
      assert cs[i].body.Gone? && cs[i].path == p;
    }
  }

  /** A difference against a table that lists stored files has the shape the tree conditions are about. */
  lemma {:induction false} DiffShape(fs: FS, diffs: seq<FileDiff>, index: map<string, Meta>,
                                     scan: map<string, FileInfo>, prefix: string, disk: LocalFiles)
    requires WellFormed(fs) && index.Keys <= fs.files.Keys
    requires IsDiff(diffs, index, scan, prefix) && TreeScan(scan, prefix)
    ensures Shape(fs, ChangesFor(prefix, diffs, disk), StoredCount(diffs))
    ensures OneTree(ChangesFor(prefix, diffs, disk))
    ensures forall i :: 0 <= i < StoredCount(diffs) ==> ChangesFor(prefix, diffs, disk)[i].path in fs.files
  {
    hide InScope, StoredCount, IsDiff, LocalContent, ChangeFor;
    var cs, m := ChangesFor(prefix, diffs, disk), StoredCount(diffs);
    WellFormedPrefixFree(fs);
    StoredPrefix(diffs);
    DistinctDiffs(diffs, index, scan, prefix);
    forall i | 0 <= i < |cs|
      ensures cs[i].path == diffs[i].file.path && (cs[i].body.Gone? <==> diffs[i].action == Delete)
      ensures i < m ==> cs[i].path in fs.files
      ensures i >= m ==> !cs[i].body.Gone?
      ensures !cs[i].body.Gone? ==> cs[i].path in scan.Keys
    {
      ChangePath(prefix, diffs[i], disk);
      NamedAs(diffs, index, scan, prefix, i);
    }
    StoredRooted(fs, cs, m);
  }

  lemma {:induction false} StoredPrefix(diffs: seq<FileDiff>)
    ensures StoredCount(diffs) <= |diffs|
  {}

  lemma {:induction false} DistinctDiffs(diffs: seq<FileDiff>, index: map<string, Meta>, scan: map<string, FileInfo>,
                                         prefix: string)
    requires IsDiff(diffs, index, scan, prefix)
    ensures forall i, j :: 0 <= i < j < |diffs| ==> diffs[i].file.path != diffs[j].file.path
  {}

  lemma {:induction false} StoredRooted(fs: FS, cs: seq<Change>, m: nat)
    requires WellFormed(fs) && m <= |cs| && forall i :: 0 <= i < m ==> cs[i].path in fs.files
    ensures forall i :: 0 <= i < m ==> Rooted(fs.dirs, cs[i].path)
  {}

  /** When the first attempt can be stored: exactly if no new path is a directory of the dataset, and
      no file that the difference leaves alone stands where a new path needs a directory. */
  lemma {:induction false} FirstPushIff(fs: FS, diffs: seq<FileDiff>, index: map<string, Meta>,
                                        scan: map<string, FileInfo>, prefix: string, disk: LocalFiles)
    requires WellFormed(fs) && index.Keys <= fs.files.Keys
    requires IsDiff(diffs, index, scan, prefix) && TreeScan(scan, prefix)
    ensures ApplyAll(fs, ChangesFor(prefix, diffs, disk)).Some? <==>
      forall p :: New(index, scan, p) ==>
        p !in fs.dirs && forall a :: Ancestor(a, p) && a in fs.files ==> Dropped(index, scan, prefix, a)
  {
    hide InScope, ApplyAll;
    var cs, m := ChangesFor(prefix, diffs, disk), StoredCount(diffs);
    DiffShape(fs, diffs, index, scan, prefix, disk);
    StorableIff(fs, cs, m);
    forall p ensures GoneAt(cs, m, p) <==> Dropped(index, scan, prefix, p) {
      GoneAtIff(diffs, index, scan, prefix, disk, p);
    }
    forall i | 0 <= i < m ensures Removable(fs, cs[i].path) {}
    forall i | m <= i < |cs| ensures New(index, scan, cs[i].path) { NamedAs(diffs, index, scan, prefix, i); }
    forall p | New(index, scan, p) ensures exists i :: m <= i < |cs| && cs[i].path == p {
      var i := NamedAt(diffs, index, scan, prefix, p);
      assert cs[i].path == p;
    }
  }

  /** A difference that the tree refuses is refused for good: the table keeps its rows, so every later
      attempt sends the same list in some order, and wherever each of them stops, the next is refused. */
  lemma {:induction false} RefusedPushForever(fs: FS, diffs: seq<FileDiff>, index: map<string, Meta>,
                                              scan: map<string, FileInfo>, prefix: string, disk: LocalFiles,
                                              tries: seq<Attempt>)
    requires WellFormed(fs) && index.Keys <= fs.files.Keys
    requires IsDiff(diffs, index, scan, prefix) && TreeScan(scan, prefix)
    requires ApplyAll(fs, ChangesFor(prefix, diffs, disk)).None?
    requires Tried(fs, ChangesFor(prefix, diffs, disk), StoredCount(diffs), tries)
    ensures ApplyAll(TreeAfter(fs, tries), ChangesFor(prefix, diffs, disk)).None?
  {
    hide *;
    StoredPrefix(diffs);
    DiffShape(fs, diffs, index, scan, prefix, disk);
    RefusedForever(fs, ChangesFor(prefix, diffs, disk), StoredCount(diffs), tries);
  }

  // ---- a directory that became a file --------------------------------------------------------

  /** One push of some root's difference: what was scanned there, where the stream stopped, the tree it
      left, and how many rows were recorded, which takes a push of the whole difference. */
  datatype Pass = Pass(diffs: seq<FileDiff>, scan: map<string, FileInfo>, prefix: string, disk: LocalFiles, done: nat,
                       after: FS, recorded: nat)

  function TreeThen(fs: FS, passes: seq<Pass>): FS {
    if passes == [] then fs else passes[|passes| - 1].after
  }

  function RowsThen(index: map<string, Meta>, passes: seq<Pass>): map<string, Meta>
    decreases |passes|
  {
    if passes == [] then index
    else
      var t, before := passes[|passes| - 1], RowsThen(index, passes[..|passes| - 1]);
      if t.recorded <= |t.diffs| then Apply(before, IndexEdits(t.diffs)[..t.recorded]) else before
  }

  /** The root that p belongs to shows it as a file, and no other root shows it at all. */
  ghost predicate ShowsFile(scan: map<string, FileInfo>, prefix: string, p: string) {
    if InScope(p, prefix) then p in scan else p !in scan
  }

  ghost predicate OnePass(fs: FS, index: map<string, Meta>, t: Pass, p: string) {
    && IsDiff(t.diffs, index, t.scan, t.prefix) && ShowsFile(t.scan, t.prefix, p)
    && Stops(fs, ChangesFor(t.prefix, t.diffs, t.disk), t.done, t.after)
    && t.recorded <= |t.diffs| && (t.recorded > 0 ==> t.done == |t.diffs|)
  }

  /** A run of pushes of whatever the local tree looked like each time, p always a file of it. */
  ghost predicate Passes(fs: FS, index: map<string, Meta>, passes: seq<Pass>, p: string) {
    forall i :: 0 <= i < |passes| ==> OnePass(TreeThen(fs, passes[..i]), RowsThen(index, passes[..i]), passes[i], p)
  }

  /** Nothing but its own removal ends a directory. */
  lemma {:induction false} DirectoryKept(fs: FS, cs: seq<Change>, p: string)
    requires ApplyAll(fs, cs).Some? && p in fs.dirs
    requires forall i :: 0 <= i < |cs| && cs[i].path == p ==> !cs[i].body.Gone?
    ensures p in ApplyAll(fs, cs).value.dirs
    ensures forall i :: 0 <= i < |cs| ==> cs[i].path != p
    decreases |cs|
  {
    if cs != [] {
      var before := cs[..|cs| - 1];
      assert forall i :: 0 <= i < |before| ==> before[i] == cs[i];
      DirectoryKept(fs, before, p);
    }
  }

  /** What a difference says of a path that is no row: an addition or nothing. */
  lemma {:induction false} NoRowChange(diffs: seq<FileDiff>, index: map<string, Meta>, scan: map<string, FileInfo>,
                                       prefix: string, disk: LocalFiles, p: string)
    requires IsDiff(diffs, index, scan, prefix) && p !in index
    ensures var cs := ChangesFor(prefix, diffs, disk);
      forall i :: 0 <= i < |cs| && cs[i].path == p ==> !cs[i].body.Gone?
    ensures p in scan ==> exists i :: 0 <= i < |diffs| && ChangesFor(prefix, diffs, disk)[i].path == p
  {
    hide ChangeFor, InScope;
    forall i | 0 <= i < |diffs|
      ensures ChangesFor(prefix, diffs, disk)[i].path == diffs[i].file.path
      ensures ChangesFor(prefix, diffs, disk)[i].body.Gone? <==> diffs[i].action == Delete
      ensures diffs[i].file.path == p ==> diffs[i].action == Add
    {
      ChangePath(prefix, diffs[i], disk);
      assert Expected(index, scan, prefix, diffs[i].file.path) == Some(diffs[i]);
    }
    if p in scan {
      assert Expected(index, scan, prefix, p).Some? && p in Named(diffs);
      var i :| 0 <= i < |diffs| && diffs[i].file.path == p;
      assert ChangesFor(prefix, diffs, disk)[i].path == p;
    }
  }

  /** One push leaves the directory, and its row is not recorded. */
  lemma {:induction false} PassKeeps(fs: FS, index: map<string, Meta>, t: Pass, p: string)
    requires p in fs.dirs && p !in index && OnePass(fs, index, t, p)
    ensures p in t.after.dirs && p !in Apply(index, IndexEdits(t.diffs)[..t.recorded])
  {
    hide IsDiff, ApplyAll, ChangeFor, InScope, Beside;
    var cs := ChangesFor(t.prefix, t.diffs, t.disk);
    NoRowChange(t.diffs, index, t.scan, t.prefix, t.disk, p);
    DirectoryKept(fs, cs[..t.done], p);
    var edits := IndexEdits(t.diffs)[..t.recorded];
    if t.recorded > 0 {
      forall i | 0 <= i < t.recorded ensures edits[i].path != p {
        ChangePath(t.prefix, t.diffs[i], t.disk);
        assert cs[..t.done][i].path == t.diffs[i].file.path;
      }
    }
    ApplyUntouched(index, edits, p);
    assert Lookup(Apply(index, edits), p) == Lookup(index, p);
  }

  lemma {:induction false} PassesKeep(fs: FS, index: map<string, Meta>, passes: seq<Pass>, p: string)
    requires p in fs.dirs && p !in index && Passes(fs, index, passes, p)
    ensures p in TreeThen(fs, passes).dirs && p !in RowsThen(index, passes)
    decreases |passes|
  {
    hide OnePass, Apply;
    if passes != [] {
      var before, n := passes[..|passes| - 1], |passes| - 1;
      forall i | 0 <= i < n
        ensures OnePass(TreeThen(fs, before[..i]), RowsThen(index, before[..i]), before[i], p)
      {
        assert passes[..i] == before[..i] && passes[i] == before[i];
      }
      PassesKeep(fs, index, before, p);
      assert OnePass(TreeThen(fs, passes[..n]), RowsThen(index, passes[..n]), passes[n], p);
      PassKeeps(TreeThen(fs, before), RowsThen(index, before), passes[n], p);
    }
  }

  /** A directory that became a file can never be stored, because removing the files below it leaves the
      directory behind. After any run of pushes, of any trees in which it stays a file, the next difference
      is refused as well. */
  lemma {:induction false} DirectoryToFileFails(fs: FS, index: map<string, Meta>, passes: seq<Pass>, p: string,
                                                diffs: seq<FileDiff>, scan: map<string, FileInfo>, prefix: string,
                                                disk: LocalFiles)
    requires p in fs.dirs && p !in index && Passes(fs, index, passes, p)
    requires IsDiff(diffs, RowsThen(index, passes), scan, prefix) && p in scan
    ensures ApplyAll(TreeThen(fs, passes), ChangesFor(prefix, diffs, disk)).None?
  {
    hide *;
    PassesKeep(fs, index, passes, p);
    NoRowChange(diffs, RowsThen(index, passes), scan, prefix, disk, p);
    ChangeCount(prefix, diffs, disk);
    if ApplyAll(TreeThen(fs, passes), ChangesFor(prefix, diffs, disk)).Some? {
      DirectoryKept(TreeThen(fs, passes), ChangesFor(prefix, diffs, disk), p);
    }
  }

  lemma {:induction false} SameChanges(a: seq<FileDiff>, b: seq<FileDiff>, index: map<string, Meta>,
                                       scan: map<string, FileInfo>, prefix: string, disk: LocalFiles)
    requires IsDiff(a, index, scan, prefix) && IsDiff(b, index, scan, prefix) && TreeScan(scan, prefix)
    ensures SamePlan(ChangesFor(prefix, a, disk), StoredCount(a), ChangesFor(prefix, b, disk), StoredCount(b))
  {
    var ca, cb := ChangesFor(prefix, a, disk), ChangesFor(prefix, b, disk);
    forall i, j | 0 <= i < j < |cb| ensures cb[i].path != cb[j].path {
      assert b[i].file.path != b[j].file.path;
    }
    forall c ensures c in ca[..StoredCount(a)] <==> c in cb[..StoredCount(b)] {
      if c in ca[..StoredCount(a)] { OneSide(a, b, index, scan, prefix, disk, c); }
      if c in cb[..StoredCount(b)] { OneSide(b, a, index, scan, prefix, disk, c); }
    }
    forall c ensures c in ca[StoredCount(a)..] <==> c in cb[StoredCount(b)..] {
      if c in ca[StoredCount(a)..] { OneSide(a, b, index, scan, prefix, disk, c); }
      if c in cb[StoredCount(b)..] { OneSide(b, a, index, scan, prefix, disk, c); }
    }
  }

  lemma {:induction false} OneSide(a: seq<FileDiff>, b: seq<FileDiff>, index: map<string, Meta>,
                                   scan: map<string, FileInfo>, prefix: string, disk: LocalFiles, c: Change)
    requires IsDiff(a, index, scan, prefix) && IsDiff(b, index, scan, prefix) && TreeScan(scan, prefix)
    ensures c in ChangesFor(prefix, a, disk)[..StoredCount(a)] ==> c in ChangesFor(prefix, b, disk)[..StoredCount(b)]
    ensures c in ChangesFor(prefix, a, disk)[StoredCount(a)..] ==> c in ChangesFor(prefix, b, disk)[StoredCount(b)..]
  {
    hide *;
    var ca, cb := ChangesFor(prefix, a, disk), ChangesFor(prefix, b, disk);
    StoredPrefix(a);
    StoredPrefix(b);
    ChangeCount(prefix, a, disk);
    ChangeCount(prefix, b, disk);
    if c in ca[..StoredCount(a)] {
      var i :| 0 <= i < StoredCount(a) && ca[..StoredCount(a)][i] == c;
      var j := SameSide(a, b, index, scan, prefix, i);
      SameChange(prefix, a, b, disk, i, j);
      assert cb[..StoredCount(b)][j] == c;
    }
    if c in ca[StoredCount(a)..] {
      var t :| 0 <= t < |ca| - StoredCount(a) && ca[StoredCount(a)..][t] == c;
      var j := SameSide(a, b, index, scan, prefix, StoredCount(a) + t);
      SameChange(prefix, a, b, disk, StoredCount(a) + t, j);
      assert cb[StoredCount(b)..][j - StoredCount(b)] == c;
    }
  }

  lemma {:induction false} SameChange(prefix: string, a: seq<FileDiff>, b: seq<FileDiff>, disk: LocalFiles, i: nat,
                                      j: nat)
    requires i < |a| && j < |b| && a[i] == b[j]
    ensures ChangesFor(prefix, a, disk)[i] == ChangesFor(prefix, b, disk)[j]
  {
    hide ChangeFor;
  }

  lemma {:induction false} SameSide(a: seq<FileDiff>, b: seq<FileDiff>, index: map<string, Meta>,
                                    scan: map<string, FileInfo>, prefix: string, i: nat) returns (j: nat)
    requires IsDiff(a, index, scan, prefix) && IsDiff(b, index, scan, prefix) && TreeScan(scan, prefix) && i < |a|
    ensures j < |b| && b[j] == a[i] && (j < StoredCount(b) <==> i < StoredCount(a))
  {
    assert a[i] in a;
    DiffUnique(a, b, index, scan, prefix, a[i]);
    j :| 0 <= j < |b| && b[j] == a[i];
    NamedAs(a, index, scan, prefix, i);
    NamedAs(b, index, scan, prefix, j);
  }

  /** Below the dropped path d the stopped attempt left something: a published addition, a directory made
      for the change it stopped in, or a temporary file. */
  ghost predicate LeftBelow(fs: FS, first: seq<FileDiff>, k: nat, g: FS, prefix: string, disk: LocalFiles, d: string)
    requires k <= |first|
  {
    var cs := ChangesFor(prefix, first, disk);
    || (exists i :: 0 <= i < k && first[i].action == Add && Ancestor(d, first[i].file.path))
    || (exists e :: e in MadeBy(fs, cs, k, g) && Ancestor(d, e))
    || (exists q :: q in LeftBy(fs, cs, k, g) && Ancestor(d, q))
  }

  /** Nothing lies below a dropped path, and no temporary file stands where a new path needs a directory. */
  ghost predicate NothingInTheWay(fs: FS, first: seq<FileDiff>, k: nat, g: FS, index: map<string, Meta>,
                                  scan: map<string, FileInfo>, prefix: string, disk: LocalFiles)
    requires k <= |first|
  {
    && (forall d :: Dropped(index, scan, prefix, d) ==> !LeftBelow(fs, first, k, g, prefix, disk, d))
    && var left := LeftBy(fs, ChangesFor(prefix, first, disk), k, g);
       (forall q, p :: q in left && New(index, scan, p) && Ancestor(q, p) ==>
          Dropped(index, scan, prefix, q))
  }

  lemma {:induction false} PassableIff(fs: FS, first: seq<FileDiff>, k: nat, g: FS, index: map<string, Meta>,
                                       scan: map<string, FileInfo>, prefix: string, disk: LocalFiles)
    requires IsDiff(first, index, scan, prefix) && TreeScan(scan, prefix) && k <= |first|
    ensures Passable(fs, ChangesFor(prefix, first, disk), StoredCount(first), k, g) <==>
      NothingInTheWay(fs, first, k, g, index, scan, prefix, disk)
  {
    hide ApplyAll, InScope, IsDiff, TreeScan, LeftBy, MadeBy, LeftBelow, Occupied, StoredCount, ChangeFor;
    var cs, m := ChangesFor(prefix, first, disk), StoredCount(first);
    forall d
      ensures GoneAt(cs, m, d) <==> Dropped(index, scan, prefix, d)
      ensures Occupied(fs, cs, m, k, g, d) <==> LeftBelow(fs, first, k, g, prefix, disk, d)
    {
      GoneAtIff(first, index, scan, prefix, disk, d);
      OccupiedIff(fs, first, k, g, index, scan, prefix, disk, d);
    }
    forall i | m <= i < |cs| ensures New(index, scan, cs[i].path) {
      ChangePath(prefix, first[i], disk);
      NamedAs(first, index, scan, prefix, i);
    }
    forall p | New(index, scan, p) ensures exists i :: m <= i < |cs| && cs[i].path == p {
      var i := NamedAt(first, index, scan, prefix, p);
      ChangePath(prefix, first[i], disk);
      assert cs[i].path == p;
    }
  }

  /** When a retry can be stored, after an attempt at a storable difference was stopped anywhere: exactly if
      that attempt left nothing below a dropped path (a file that became a directory) and no temporary file
      where a new path needs a directory. */
  lemma {:induction false} RetryPushIff(fs: FS, first: seq<FileDiff>, k: nat, g: FS, second: seq<FileDiff>,
                                        index: map<string, Meta>, scan: map<string, FileInfo>, prefix: string,
                                        disk: LocalFiles)
    requires WellFormed(fs) && index.Keys <= fs.files.Keys && k <= |first|
    requires IsDiff(first, index, scan, prefix) && IsDiff(second, index, scan, prefix) && TreeScan(scan, prefix)
    requires ApplyAll(fs, ChangesFor(prefix, first, disk)).Some? && Stops(fs, ChangesFor(prefix, first, disk), k, g)
    ensures ApplyAll(g, ChangesFor(prefix, second, disk)).Some? <==>
      NothingInTheWay(fs, first, k, g, index, scan, prefix, disk)
  {
    hide *;
    var cs, m := ChangesFor(prefix, first, disk), StoredCount(first);
    StoredPrefix(first);
    StoredPrefix(second);
    ChangeCount(prefix, first, disk);
    ChangeCount(prefix, second, disk);
    DiffShape(fs, first, index, scan, prefix, disk);
    SameChanges(first, second, index, scan, prefix, disk);
    RetryIff(fs, cs, m, k, g, ChangesFor(prefix, second, disk), StoredCount(second));
    PassableIff(fs, first, k, g, index, scan, prefix, disk);
  }

  /** An attempt at the difference in some order: where it stopped, and the tree it left. */
  datatype Retry = Retry(diffs: seq<FileDiff>, done: nat, after: FS)

  function AfterRetries(fs: FS, retries: seq<Retry>): FS {
    if retries == [] then fs else retries[|retries| - 1].after
  }

  ghost predicate RetriedAt(fs: FS, retries: seq<Retry>, i: nat, index: map<string, Meta>,
                            scan: map<string, FileInfo>, prefix: string, disk: LocalFiles)
    requires i < |retries|
  {
    var t := retries[i];
    && IsDiff(t.diffs, index, scan, prefix) && t.done <= |t.diffs|
    && Stops(AfterRetries(fs, retries[..i]), ChangesFor(prefix, t.diffs, disk), t.done, t.after)
  }

  /** Attempts one after another, none of them recorded. */
  ghost predicate Retried(fs: FS, retries: seq<Retry>, index: map<string, Meta>, scan: map<string, FileInfo>,
                          prefix: string, disk: LocalFiles) {
    forall i :: 0 <= i < |retries| ==> RetriedAt(fs, retries, i, index, scan, prefix, disk)
  }

  /** Attempt i left nothing in the way. */
  ghost predicate LeftClear(fs: FS, retries: seq<Retry>, i: nat, index: map<string, Meta>,
                            scan: map<string, FileInfo>, prefix: string, disk: LocalFiles)
    requires i < |retries|
  {
    var t, before := retries[i], AfterRetries(fs, retries[..i]);
    t.done <= |t.diffs| && NothingInTheWay(before, t.diffs, t.done, t.after, index, scan, prefix, disk)
  }

  function Tries(prefix: string, retries: seq<Retry>, disk: LocalFiles): (tries: seq<Attempt>)
    ensures |tries| == |retries|
    ensures forall i :: 0 <= i < |tries| ==> tries[i] == TryOf(prefix, retries[i], disk)
  {
    seq(|retries|, i requires 0 <= i < |retries| => TryOf(prefix, retries[i], disk))
  }

  function TryOf(prefix: string, t: Retry, disk: LocalFiles): Attempt {
    Attempt(ChangesFor(prefix, t.diffs, disk), StoredCount(t.diffs), t.done, t.after)
  }

  lemma {:induction false} TriesTake(prefix: string, fs: FS, retries: seq<Retry>, disk: LocalFiles, i: nat)
    requires i <= |retries|
    ensures TreeAfter(fs, Tries(prefix, retries, disk)[..i]) == AfterRetries(fs, retries[..i])
  {}

  /** One attempt of the run, seen as changes. */
  lemma {:induction false} TryAt(fs: FS, retries: seq<Retry>, i: nat, diffs: seq<FileDiff>, index: map<string, Meta>,
                                 scan: map<string, FileInfo>, prefix: string, disk: LocalFiles)
    requires i < |retries| && RetriedAt(fs, retries, i, index, scan, prefix, disk)
    requires IsDiff(diffs, index, scan, prefix) && TreeScan(scan, prefix)
    requires StoredCount(diffs) <= |ChangesFor(prefix, diffs, disk)|
    ensures var tries := Tries(prefix, retries, disk);
      && OneTry(TreeAfter(fs, tries[..i]), ChangesFor(prefix, diffs, disk), StoredCount(diffs), tries[i])
      && (LeavesWay(fs, tries, i) <==> LeftClear(fs, retries, i, index, scan, prefix, disk))
  {
    hide IsDiff, TreeScan, Stops, SamePlan, Passable, NothingInTheWay, StoredCount, ChangesFor, TreeAfter, AfterRetries;
    var t := retries[i];
    TriesTake(prefix, fs, retries, disk, i);
    StoredPrefix(t.diffs);
    ChangeCount(prefix, t.diffs, disk);
    SameChanges(diffs, t.diffs, index, scan, prefix, disk);
    PassableIff(AfterRetries(fs, retries[..i]), t.diffs, t.done, t.after, index, scan, prefix, disk);
  }

  /** After any number of attempts at a storable difference, each stopped anywhere: it can be stored exactly if
      none of them left anything in the way. */
  lemma {:induction false} RetriesPushIff(fs: FS, retries: seq<Retry>, diffs: seq<FileDiff>, index: map<string, Meta>,
                                          scan: map<string, FileInfo>, prefix: string, disk: LocalFiles)
    requires WellFormed(fs) && index.Keys <= fs.files.Keys
    requires IsDiff(diffs, index, scan, prefix) && TreeScan(scan, prefix)
    requires ApplyAll(fs, ChangesFor(prefix, diffs, disk)).Some?
    requires Retried(fs, retries, index, scan, prefix, disk)
    ensures ApplyAll(AfterRetries(fs, retries), ChangesFor(prefix, diffs, disk)).Some? <==>
      forall i :: 0 <= i < |retries| ==> LeftClear(fs, retries, i, index, scan, prefix, disk)
  {
    hide ApplyAll, IsDiff, TreeScan, OneTry, LeavesWay, LeftClear, RetriedAt, Shape, OneTree, StoredCount, ChangesFor,
         TreeAfter, AfterRetries, WellFormed;
    StoredPrefix(diffs);
    ChangeCount(prefix, diffs, disk);
    DiffShape(fs, diffs, index, scan, prefix, disk);
    var tries := Tries(prefix, retries, disk);
    forall i | 0 <= i < |retries|
      ensures OneTry(TreeAfter(fs, tries[..i]), ChangesFor(prefix, diffs, disk), StoredCount(diffs), tries[i])
      ensures LeavesWay(fs, tries, i) <==> LeftClear(fs, retries, i, index, scan, prefix, disk)
    {
      TryAt(fs, retries, i, diffs, index, scan, prefix, disk);
    }
    RetriesIff(fs, ChangesFor(prefix, diffs, disk), StoredCount(diffs), tries);
    TriesTake(prefix, fs, retries, disk, |retries|);
    assert tries[..|retries|] == tries && retries[..|retries|] == retries;
  }

  /** The change the attempt was stopped in is an addition at least two levels below d. */
  predicate StartedDeepBelow(first: seq<FileDiff>, k: nat, d: string)
    requires k < |first|
  {
    exists e | e in Ancestors(first[k].file.path) :: Ancestor(d, e)
  }

  /** The usual stop, in the middle of a chunked upload: all parents of the next addition were made, and its
      staging file was removed. Then the condition speaks of the sent list alone: nothing published below a
      dropped path, and nothing started two or more levels below one. */
  lemma {:induction false} CutPushIff(fs: FS, first: seq<FileDiff>, k: nat, second: seq<FileDiff>,
                                      index: map<string, Meta>, scan: map<string, FileInfo>, prefix: string,
                                      disk: LocalFiles)
    requires WellFormed(fs) && index.Keys <= fs.files.Keys && k < |first| && first[k].action == Add
    requires IsDiff(first, index, scan, prefix) && IsDiff(second, index, scan, prefix) && TreeScan(scan, prefix)
    requires ApplyAll(fs, ChangesFor(prefix, first, disk)).Some?
    ensures ApplyAll(fs, ChangesFor(prefix, first, disk)[..k]).Some?
    ensures var cs := ChangesFor(prefix, first, disk);
      var g := MkParents(ApplyAll(fs, cs[..k]).value, cs[k].path);
      && Stops(fs, cs, k, g)
      && (ApplyAll(g, ChangesFor(prefix, second, disk)).Some? <==>
            forall d :: Dropped(index, scan, prefix, d) ==>
              && (forall i :: 0 <= i < k && first[i].action == Add ==> !Ancestor(d, first[i].file.path))
              && !StartedDeepBelow(first, k, d))
  {
    hide ApplyAll, InScope, Shape, IsDiff, TreeScan, Stops, ChangeFor, Reaches, MadeBy, LeftBy, StoredCount;
    var cs, m := ChangesFor(prefix, first, disk), StoredCount(first);
    DiffShape(fs, first, index, scan, prefix, disk);
    ChangePath(prefix, first[k], disk);
    ApplyAllPrefix(fs, cs, k);
    PrefixIff(fs, cs, m, k);
    var a := ApplyAll(fs, cs[..k]).value;
    var g := MkParents(a, cs[k].path);
    AllParentsMade(fs, cs, k, a);
    RetryPushIff(fs, first, k, g, second, index, scan, prefix, disk);
    forall d | Dropped(index, scan, prefix, d)
      ensures LeftBelow(fs, first, k, g, prefix, disk, d) <==>
        (exists i :: 0 <= i < k && first[i].action == Add && Ancestor(d, first[i].file.path)) ||
        StartedDeepBelow(first, k, d)
    {
      DeepIsMade(fs, first, k, a, index, scan, prefix, disk, d);
    }
  }

  lemma {:induction false} ApplyAllPrefix(fs: FS, cs: seq<Change>, k: nat)
    requires k < |cs| && ApplyAll(fs, cs).Some?
    ensures ApplyAll(fs, cs[..k]).Some? && ApplyOne(ApplyAll(fs, cs[..k]).value, cs[k]).Some?
    decreases |cs|
  {
    hide ApplyOne;
    var before := cs[..|cs| - 1];
    if k < |before| {
      ApplyAllPrefix(fs, before, k);
      assert before[..k] == cs[..k];
    }
  }

  lemma {:induction false} AllParentsMade(fs: FS, cs: seq<Change>, k: nat, a: FS)
    requires k < |cs| && ApplyAll(fs, cs[..k]) == Some(a) && ApplyOne(a, cs[k]).Some? && !cs[k].body.Gone?
    requires WellFormed(a)
    ensures var g := MkParents(a, cs[k].path);
      Stops(fs, cs, k, g) && LeftBy(fs, cs, k, g) == map[] && MadeBy(fs, cs, k, g) == Ancestors(cs[k].path) - a.dirs
  {
    hide ApplyAll;
    MkParentsWellFormed(a, cs[k].path);
    assert NewFiles(a, MkParents(a, cs[k].path)) == map[];
  }

  /** A directory two levels up from the started addition and below d was made for it, unless an addition
      published below d had made it before. */
  lemma {:induction false} DeepIsMade(fs: FS, first: seq<FileDiff>, k: nat, a: FS, index: map<string, Meta>,
                                      scan: map<string, FileInfo>, prefix: string, disk: LocalFiles, d: string)
    requires WellFormed(fs) && index.Keys <= fs.files.Keys && k < |first| && first[k].action == Add
    requires IsDiff(first, index, scan, prefix) && TreeScan(scan, prefix) && Dropped(index, scan, prefix, d)
    requires ApplyAll(fs, ChangesFor(prefix, first, disk)[..k]) == Some(a)
    requires WellFormed(a) && ApplyOne(a, ChangesFor(prefix, first, disk)[k]).Some?
    requires StoredCount(first) <= |first| && Reaches(fs, ChangesFor(prefix, first, disk), StoredCount(first), k, a)
    ensures var g := MkParents(a, ChangesFor(prefix, first, disk)[k].path);
      LeftBelow(fs, first, k, g, prefix, disk, d) <==>
        (exists i :: 0 <= i < k && first[i].action == Add && Ancestor(d, first[i].file.path)) ||
        StartedDeepBelow(first, k, d)
  {
    hide ApplyAll, ApplyOne, InScope, IsDiff, TreeScan, ChangeFor, MadeBy, LeftBy, StoredCount, Stops;
    var cs, m := ChangesFor(prefix, first, disk), StoredCount(first);
    ChangePath(prefix, first[k], disk);
    AllParentsMade(fs, cs, k, a);
    if e :| e in Ancestors(first[k].file.path) && Ancestor(d, e) {
      if e in a.dirs {
        assert e !in fs.dirs by { assert d in fs.files.Keys; }
        var i :| m <= i < k && Ancestor(e, cs[i].path);
        ChangePath(prefix, first[i], disk);
        IsAdd(first, index, scan, prefix, i);
        AncestorTransitive(d, e, cs[i].path);
      }
    }
  }

  lemma {:induction false} OccupiedIff(fs: FS, diffs: seq<FileDiff>, k: nat, g: FS, index: map<string, Meta>,
                                       scan: map<string, FileInfo>, prefix: string, disk: LocalFiles, d: string)
    requires IsDiff(diffs, index, scan, prefix) && TreeScan(scan, prefix) && k <= |diffs|
    ensures Occupied(fs, ChangesFor(prefix, diffs, disk), StoredCount(diffs), k, g, d) <==>
      LeftBelow(fs, diffs, k, g, prefix, disk, d)
  {
    hide InScope, ChangeFor, IsDiff, TreeScan, LeftBy, MadeBy;
    var cs := ChangesFor(prefix, diffs, disk);
    forall i | 0 <= i < |diffs|
      ensures cs[i].path == diffs[i].file.path && (i >= StoredCount(diffs) <==> diffs[i].action == Add)
    {
      ChangePath(prefix, diffs[i], disk);
      IsAdd(diffs, index, scan, prefix, i);
    }
  }

  lemma {:induction false} ChangePath(prefix: string, d: FileDiff, disk: LocalFiles)
    ensures ChangeFor(prefix, d, disk).path == d.file.path
    ensures ChangeFor(prefix, d, disk).body.Gone? <==> d.action == Delete
  {}

  lemma {:induction false} IsAdd(diffs: seq<FileDiff>, index: map<string, Meta>, scan: map<string, FileInfo>,
                                 prefix: string, i: nat)
    requires IsDiff(diffs, index, scan, prefix) && i < |diffs|
    ensures i >= StoredCount(diffs) <==> diffs[i].action == Add
  {
    StoredCountSplits(diffs, i);
  }

  /** A file that became a directory: once a stopped attempt has left anything below it, every later
      attempt fails too, in any order and wherever the ones between stopped. */
  lemma {:induction false} FileToDirectoryWedges(fs: FS, diffs: seq<FileDiff>, k: nat, g: FS, index: map<string, Meta>,
                                                 scan: map<string, FileInfo>, prefix: string, disk: LocalFiles,
                                                 d: string, tries: seq<Attempt>)
    requires WellFormed(fs) && index.Keys <= fs.files.Keys && k <= |diffs|
    requires IsDiff(diffs, index, scan, prefix) && TreeScan(scan, prefix)
    requires Stops(fs, ChangesFor(prefix, diffs, disk), k, g)
    requires Dropped(index, scan, prefix, d) && LeftBelow(fs, diffs, k, g, prefix, disk, d)
    requires Tried(g, ChangesFor(prefix, diffs, disk), StoredCount(diffs), tries)
    ensures ApplyAll(TreeAfter(g, tries), ChangesFor(prefix, diffs, disk)).None?
  {
    hide *;
    StoredPrefix(diffs);
    ChangeCount(prefix, diffs, disk);
    DiffShape(fs, diffs, index, scan, prefix, disk);
    GoneAtIff(diffs, index, scan, prefix, disk, d);
    OccupiedIff(fs, diffs, k, g, index, scan, prefix, disk, d);
    OccupiedForever(fs, ChangesFor(prefix, diffs, disk), StoredCount(diffs), k, g, d, tries);
  }

  lemma {:induction false} ChangeCount(prefix: string, diffs: seq<FileDiff>, disk: LocalFiles)
    ensures |ChangesFor(prefix, diffs, disk)| == |diffs|
  {}

  lemma {:induction false} BelowPrefix(prefix: string, names: seq<string>)
    requires IsArchivePath(prefix) && names != [] && Downward(names)
    ensures IsArchivePath(prefix + "/" + Join(names)) && PathInRoot(prefix + "/" + Join(names), prefix)
  {
    ArchiveComponents(prefix);
    JoinAppend(Components(prefix), names);
    ArchiveFromComponents(Components(prefix) + names);
    PathInRootIff(prefix + "/" + Join(names), prefix);
  }

  /** The stored file `a` becomes a directory holding one file. */
  ghost predicate Replacement(fs: FS, diffs: seq<FileDiff>, index: map<string, Meta>, scan: map<string, FileInfo>,
                              prefix: string, a: string, old_: File, was: Meta, info: FileInfo) {
    && fs == FS(map[a := old_], Ancestors(a), {})
    && index == map[a := was] && scan == map[info.path := info]
    && diffs == [Deletion(a), FileDiff(info, Add)]
    && Ancestor(a, info.path) && PathInRoot(a, prefix) && PathInRoot(info.path, prefix)
  }

  lemma {:induction false} ReplacementStorable(fs: FS, diffs: seq<FileDiff>, index: map<string, Meta>,
                                               scan: map<string, FileInfo>, prefix: string, a: string, old_: File,
                                               was: Meta, info: FileInfo, disk: LocalFiles)
    requires Replacement(fs, diffs, index, scan, prefix, a, old_, was, info)
    ensures WellFormed(fs) && IsDiff(diffs, index, scan, prefix) && TreeScan(scan, prefix)
    ensures index.Keys <= fs.files.Keys && Dropped(index, scan, prefix, a)
    ensures ApplyAll(fs, ChangesFor(prefix, diffs, disk)).Some?
  {
    hide PathInRoot, ApplyAll, ChangeFor;
    var b := info.path;
    WitnessTree(a, old_);
    WitnessDiff(prefix, a, b, info, was);
    FirstPushIff(fs, diffs, index, scan, prefix, disk);
    forall p | New(index, scan, p)
      ensures p !in fs.dirs && forall q :: Ancestor(q, p) && q in fs.files ==> Dropped(index, scan, prefix, q)
    {
      assert p == b;
      if Ancestor(b, a) { AncestorTransitive(a, b, a); }
    }
  }

  /** It happens: under any root the stored file `a` becomes a directory holding `b`. The first attempt
      is storable, but if it stops after both changes and before they are recorded, no retry is. */
  lemma {:induction false} WedgeWitness(prefix: string, old_: File, new_: Bytes, was: Meta, mtime: int)
    requires IsArchivePath(prefix)
    ensures var a, b := prefix + "/a", prefix + "/a/b";
      var info := FileInfo(b, |new_|, mtime, 0x1A4, []);
      var fs := FS(map[a := old_], Ancestors(a), {});
      var index, scan, disk := map[a := was], map[b := info], map["a/b" := new_];
      var diffs := [Deletion(a), FileDiff(info, Add)];
      var cs := ChangesFor(prefix, diffs, disk);
      && WellFormed(fs) && IsDiff(diffs, index, scan, prefix) && TreeScan(scan, prefix)
      && ApplyAll(fs, cs).Some?
      && ApplyAll(ApplyAll(fs, cs).value, cs).None?
  {
    hide PathInRoot, IsArchivePath, ApplyAll, ChangeFor, Stops, MadeBy, LeftBy;
    var a, b := prefix + "/a", prefix + "/a/b";
    var info := FileInfo(b, |new_|, mtime, 0x1A4, []);
    var fs := FS(map[a := old_], Ancestors(a), {});
    var index, scan, disk := map[a := was], map[b := info], map["a/b" := new_];
    var diffs := [Deletion(a), FileDiff(info, Add)];
    WitnessNames(prefix);
    assert Ancestor(a, b) by { assert b == a + "/b"; }
    ReplacementStorable(fs, diffs, index, scan, prefix, a, old_, was, info, disk);
    var cs := ChangesFor(prefix, diffs, disk);
    ApplyAllWellFormed(fs, cs);
    StopsAtEnd(fs, cs, ApplyAll(fs, cs).value);
    assert diffs[1].action == Add && Ancestor(a, diffs[1].file.path);
    assert LeftBelow(fs, diffs, 2, ApplyAll(fs, cs).value, prefix, disk, a);
    RetryPushIff(fs, diffs, 2, ApplyAll(fs, cs).value, diffs, index, scan, prefix, disk);
  }

  /** The shape of the replacement's changes when the new file is large. */
  lemma {:induction false} LargeReplacement(prefix: string, a: string, info: FileInfo, disk: LocalFiles)
    requires info.size > MAX_BATCH_CONTENT_BYTES
    ensures var cs := ChangesFor(prefix, [Deletion(a), FileDiff(info, Add)], disk);
      && cs[0] == Change(a, 0, Gone) && cs[1].path == info.path
      && cs[1].body.Chunked? && |cs[1].body.content| > CHUNK_CONTENT_BYTES
  {}

  lemma {:induction false} TwoChunks(c: Change)
    requires c.body.Chunked? && |c.body.content| > CHUNK_CONTENT_BYTES
    ensures |EntriesOf(c)| >= 2
  {
    ChunkShape(c.path, c.body.content, c.mode, CHUNK_CONTENT_BYTES, 0);
  }

  lemma {:induction false} AfterRemoval(a: string, old_: File, cs: seq<Change>)
    requires |cs| == 2 && cs[0] == Change(a, 0, Gone)
    ensures ApplyAll(FS(map[a := old_], Ancestors(a), {}), cs[..1]) == Some(FS(map[], Ancestors(a), {}))
  {
    var fs := FS(map[a := old_], Ancestors(a), {});
    assert cs[..1][..0] == [] && cs[..1][0] == cs[0];
    assert Remove(fs, a) == FS(map[], Ancestors(a), {});
  }

  /** The session after the removal and the first chunk of the new file. */
  lemma {:induction false} CutAfterFirstChunk(fs: FS, cs: seq<Change>, a: FS)
    requires |cs| == 2 && AllSendable(cs) && cs[0].body.Gone? && cs[1].body.Chunked?
    requires |cs[1].body.content| > CHUNK_CONTENT_BYTES
    requires ApplyAll(fs, cs).Some? && ApplyAll(fs, cs[..1]) == Some(a)
    ensures |WireOf(cs)| > 2 && Run(Session(fs, map[]), WireOf(cs)[..2]).Ok?
    ensures Run(Session(fs, map[]), WireOf(cs)[..2]).value.fs == MkParents(a, cs[1].path)
  {
    hide *;
    WireOfTwo(cs);
    WireRuns(fs, cs);
    RunAppend(Session(fs, map[]), WireOf(cs)[..2], WireOf(cs)[2..]);
    assert WireOf(cs) == WireOf(cs)[..2] + WireOf(cs)[2..];
    SessionAt(fs, cs, 2, 1, 1);
  }

  lemma {:induction false} WireOfTwo(cs: seq<Change>)
    requires |cs| == 2 && cs[0].body.Gone? && cs[1].body.Chunked? && |cs[1].body.content| > CHUNK_CONTENT_BYTES
    ensures |WireOf(cs)| > 2 && Located(cs, 2, 1, 1)
  {
    hide ChunksFrom, Located;
    TwoChunks(cs[1]);
    assert cs == cs[..1] + [cs[1]] && cs[..1] == [] + [cs[0]];
    WireSnoc([], cs[0]);
    WireSnoc(cs[..1], cs[1]);
    assert |WireOf(cs[..1])| == 1;
    LocatedInLast(cs[..1], cs[1], 1);
  }

  /** Making the parents of the new file two levels down leaves a directory below the removed one. */
  lemma {:induction false} ParentsOnly(fs: FS, cs: seq<Change>, a: string, e: string)
    requires |cs| == 2 && ApplyAll(fs, cs[..1]) == Some(FS(map[], Ancestors(a), {})) && !cs[1].body.Gone?
    requires Ancestor(a, e) && Ancestor(e, cs[1].path)
    ensures var s := FS(map[], Ancestors(a), {}); var g := MkParents(s, cs[1].path);
      && Stops(fs, cs, 1, g) && e in MadeBy(fs, cs, 1, g) && g.files == s.files
      && Stops(fs, cs, 1, s) && MadeBy(fs, cs, 1, s) == {} && LeftBy(fs, cs, 1, s) == map[]
  {
    hide ApplyAll;
    var s := FS(map[], Ancestors(a), {});
    var g := MkParents(s, cs[1].path);
    forall p | p in s.dirs ensures Rooted(s.dirs, p) {
      forall q | Ancestor(q, p) ensures q in s.dirs { AncestorTransitive(q, p, a); }
    }
    MkParentsWellFormed(s, cs[1].path);
    assert NewFiles(s, g) == map[] && NewFiles(s, s) == map[];
    assert e in Ancestors(cs[1].path) && e !in Ancestors(a);
  }

  /** It takes less: the new file is two levels down and large, and the stream is cut after the deletion
      and one chunk. No addition was published, and the files are those of the first change alone, from
      which the list could be stored; but the directories made for the file remain, and with them no retry
      is possible. */
  lemma {:induction false} DirectoryWitness(prefix: string, old_: File, was: Meta, info: FileInfo, disk: LocalFiles)
    requires IsArchivePath(prefix) && info.path == prefix + "/a/x/b" && info.size > MAX_BATCH_CONTENT_BYTES
    ensures var a := prefix + "/a";
      var fs := FS(map[a := old_], Ancestors(a), {});
      var diffs := [Deletion(a), FileDiff(info, Add)];
      var cs := ChangesFor(prefix, diffs, disk);
      && IsDiff(diffs, map[a := was], map[info.path := info], prefix)
      && ApplyAll(fs, cs).Some? && ApplyAll(fs, cs[..1]).Some?
      && |WireOf(cs)| > 2 && Run(Session(fs, map[]), WireOf(cs)[..2]).Ok?
      && var g := Run(Session(fs, map[]), WireOf(cs)[..2]).value.fs;
         && Stops(fs, cs, 1, g) && g.files == ApplyAll(fs, cs[..1]).value.files
         && ApplyAll(ApplyAll(fs, cs[..1]).value, cs).Some?
         && ApplyAll(g, cs).None?
  {
    hide PathInRoot, IsArchivePath, ApplyAll, ChangeFor, Stops, MadeBy, LeftBy, Run, WireOf, IsDiff, TreeScan,
         TargetKey;
    var a, e, b := prefix + "/a", prefix + "/a/x", prefix + "/a/x/b";
    var fs := FS(map[a := old_], Ancestors(a), {});
    var diffs := [Deletion(a), FileDiff(info, Add)];
    var index, scan := map[a := was], map[b := info];
    var cs := ChangesFor(prefix, diffs, disk);
    DeepNames(prefix);
    ReplacementStorable(fs, diffs, index, scan, prefix, a, old_, was, info, disk);
    LargeReplacement(prefix, a, info, disk);
    AfterRemoval(a, old_, cs);
    var s := FS(map[], Ancestors(a), {});
    CutAfterFirstChunk(fs, cs, s);
    ParentsOnly(fs, cs, a, e);
    var g := MkParents(s, b);
    RetryPushIff(fs, diffs, 1, s, diffs, index, scan, prefix, disk);
    RetryPushIff(fs, diffs, 1, g, diffs, index, scan, prefix, disk);
    assert LeftBelow(fs, diffs, 1, g, prefix, disk, a);
  }

  lemma {:induction false} DeepNames(prefix: string)
    requires IsArchivePath(prefix)
    ensures PathInRoot(prefix + "/a", prefix) && PathInRoot(prefix + "/a/x/b", prefix)
    ensures Ancestor(prefix + "/a", prefix + "/a/x") && Ancestor(prefix + "/a/x", prefix + "/a/x/b")
    ensures Ancestor(prefix + "/a", prefix + "/a/x/b")
    ensures TargetKey(prefix + "/a") == Some(prefix + "/a") && TargetKey(prefix + "/a/x/b") == Some(prefix + "/a/x/b")
  {
    hide PathInRoot, IsArchivePath, TargetKey;
    assert Join(["b"]) == "b" && Join(["a"]) == "a";
    assert Join(["x", "b"]) == "x/b" by { assert ["x", "b"][1..] == ["b"]; }
    assert Join(["a", "x", "b"]) == "a/x/b" by { assert ["a", "x", "b"][1..] == ["x", "b"]; }
    BelowPrefix(prefix, ["a"]);
    BelowPrefix(prefix, ["a", "x", "b"]);
    assert prefix + "/" + "a" == prefix + "/a" && prefix + "/" + "a/x/b" == prefix + "/a/x/b";
    assert prefix + "/a/x" == prefix + "/a" + "/x" && prefix + "/a/x/b" == prefix + "/a/x" + "/b";
    AncestorTransitive(prefix + "/a", prefix + "/a/x", prefix + "/a/x/b");
    OwnKey(prefix + "/a");
    OwnKey(prefix + "/a/x/b");
  }

  lemma {:induction false} OwnKey(p: string)
    requires IsArchivePath(p)
    ensures TargetKey(p) == Some(p)
  {
    ArchiveNotEmpty(p);
  }

  lemma {:induction false} WitnessNames(prefix: string)
    requires IsArchivePath(prefix)
    ensures PathInRoot(prefix + "/a", prefix) && PathInRoot(prefix + "/a/b", prefix)
  {
    hide PathInRoot, IsArchivePath;
    assert Join(["b"]) == "b" && Join(["a"]) == "a";
    assert Join(["a", "b"]) == "a/b" by { assert ["a", "b"][1..] == ["b"]; }
    BelowPrefix(prefix, ["a"]);
    BelowPrefix(prefix, ["a", "b"]);
    assert prefix + "/" + "a" == prefix + "/a" && prefix + "/" + "a/b" == prefix + "/a/b";
  }

  lemma {:induction false} WitnessTree(a: string, f: File)
    ensures WellFormed(FS(map[a := f], Ancestors(a), {}))
  {
    var fs := FS(map[a := f], Ancestors(a), {});
    forall p | p in fs.dirs ensures Rooted(fs.dirs, p) {
      forall q | Ancestor(q, p) ensures q in fs.dirs { AncestorTransitive(q, p, a); }
    }
  }

  lemma {:induction false} WitnessDiff(prefix: string, a: string, b: string, info: FileInfo, was: Meta)
    requires a != b && info.path == b && PathInRoot(a, prefix) && PathInRoot(b, prefix)
    ensures IsDiff([Deletion(a), FileDiff(info, Add)], map[a := was], map[b := info], prefix)
    ensures TreeScan(map[b := info], prefix)
  {
    hide PathInRoot;
    var diffs := [Deletion(a), FileDiff(info, Add)];
    assert diffs[0].file.path == a && diffs[1].file.path == b;
    assert a in Named(diffs) && b in Named(diffs);
    assert !Ancestor(b, b);
  }
}
