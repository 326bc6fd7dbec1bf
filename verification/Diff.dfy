/** Difference of a scan against the agent's table, and its exactness. */
module Diff {
  import opened Model
  import opened Namespacing
  import opened Patches
  import opened Index

  /** The scan as a table; a path scanned twice keeps its last entry. */
  function ScanMap(scanned: seq<FileInfo>): map<string, FileInfo>
    decreases |scanned|
  {
    if scanned == [] then map[]
    else ScanMap(scanned[..|scanned| - 1])[scanned[|scanned| - 1].path := scanned[|scanned| - 1]]
  }

  lemma {:induction false} ScanMapKeys(scanned: seq<FileInfo>)
    ensures forall p :: p in ScanMap(scanned) ==> ScanMap(scanned)[p].path == p && ScanMap(scanned)[p] in scanned
    ensures forall i :: 0 <= i < |scanned| ==> scanned[i].path in ScanMap(scanned)
    decreases |scanned|
  {
    if scanned != [] {
      ScanMapKeys(scanned[..|scanned| - 1]);
    }
  }

  predicate InScope(path: string, rootPrefix: string) {
    rootPrefix == "" || PathInRoot(path, rootPrefix)
  }

  predicate Changed(f: FileInfo, m: Meta) {
    f.mtime != m.mtime || f.size != m.size || f.mode != m.mode || f.sha != m.sha
  }

  function Deletion(path: string): FileDiff { FileDiff(FileInfo(path, 0, 0, 0, []), Delete) }

  /** What the difference list must say about one path. */
  function Expected(index: map<string, Meta>, scan: map<string, FileInfo>, rootPrefix: string,
                    p: string): Option<FileDiff> {
    if p in index && InScope(p, rootPrefix) then
      if p !in scan then Some(Deletion(p))
      else if Changed(scan[p], index[p]) then Some(FileDiff(scan[p], Modify))
      else None
    else if p in scan then Some(FileDiff(scan[p], Add))
    else None
  }

  function Named(diffs: seq<FileDiff>): set<string> { set i | 0 <= i < |diffs| :: diffs[i].file.path }

  ghost predicate DistinctPaths(diffs: seq<FileDiff>) {
    forall i, j :: 0 <= i < j < |diffs| ==> diffs[i].file.path != diffs[j].file.path
  }

  /** Additions come last; before them deletions and modifications stand in listing order. */
  ghost predicate AddsLast(diffs: seq<FileDiff>) {
    forall i, j :: 0 <= i < j < |diffs| && diffs[i].action == Add ==> diffs[j].action == Add
  }

  ghost predicate Agrees(diffs: seq<FileDiff>, index: map<string, Meta>, scan: map<string, FileInfo>,
                         rootPrefix: string) {
    forall i :: 0 <= i < |diffs| ==> Expected(index, scan, rootPrefix, diffs[i].file.path) == Some(diffs[i])
  }

  /** Every path that differs is named once, with the right action, and no other path is named. */
  ghost predicate IsDiff(diffs: seq<FileDiff>, index: map<string, Meta>, scan: map<string, FileInfo>,
                         rootPrefix: string) {
    && Agrees(diffs, index, scan, rootPrefix)
    && (forall p :: Expected(index, scan, rootPrefix, p).Some? ==> p in Named(diffs))
    && DistinctPaths(diffs)
    && AddsLast(diffs)
  }

  lemma {:induction false} NamedSnoc(diffs: seq<FileDiff>, d: FileDiff)
    ensures Named(diffs + [d]) == Named(diffs) + {d.file.path}
  {
    assert (diffs + [d])[|diffs|] == d;
    assert forall i :: 0 <= i < |diffs| ==> (diffs + [d])[i] == diffs[i];
  }

  lemma {:induction false} PathsSnoc(rows: seq<Row>, n: nat)
    requires n < |rows|
    ensures PathsOf(rows[..n + 1]) == PathsOf(rows[..n]) + {rows[n].path}
  {
    assert rows[..n + 1][n] == rows[n];
    assert forall i :: 0 <= i < n ==> rows[..n + 1][i] == rows[..n][i];
  }

  /** Appending the expected difference of a path not named yet keeps the list consistent. */
  lemma {:induction false} Extend(diffs: seq<FileDiff>, d: FileDiff, index: map<string, Meta>,
                                  scan: map<string, FileInfo>, rootPrefix: string)
    requires Agrees(diffs, index, scan, rootPrefix) && DistinctPaths(diffs) && AddsLast(diffs)
    requires Expected(index, scan, rootPrefix, d.file.path) == Some(d) && d.file.path !in Named(diffs)
    requires d.action == Add || forall i :: 0 <= i < |diffs| ==> diffs[i].action != Add
    ensures Agrees(diffs + [d], index, scan, rootPrefix) && DistinctPaths(diffs + [d]) && AddsLast(diffs + [d])
    ensures Named(diffs + [d]) == Named(diffs) + {d.file.path}
  {
    NamedSnoc(diffs, d);
    forall i | 0 <= i < |diffs| ensures diffs[i].file.path != d.file.path {
      assert diffs[i].file.path in Named(diffs);
    }
  }

  /** The state of the first loop after the first n stored rows. */
  ghost predicate Compared(existing: seq<Row>, n: nat, index: map<string, Meta>, scan: map<string, FileInfo>,
                           rootPrefix: string, diffs: seq<FileDiff>, left: map<string, FileInfo>)
    requires n <= |existing|
  {
    var seen := PathsOf(existing[..n]);
    && Agrees(diffs, index, scan, rootPrefix) && DistinctPaths(diffs)
    && (forall i :: 0 <= i < |diffs| ==> diffs[i].action != Add)
    && (forall p :: p in Named(diffs) <==>
          p in seen && InScope(p, rootPrefix) && Expected(index, scan, rootPrefix, p).Some?)
    && (forall p :: p in left <==> p in scan && !(p in seen && InScope(p, rootPrefix)))
    && (forall p :: p in left ==> left[p] == scan[p])
  }

  /** A row out of scope, or one whose scan is equal to it, adds nothing. */
  lemma {:induction false} ComparePass(existing: seq<Row>, n: nat, index: map<string, Meta>,
                                       scan: map<string, FileInfo>, rootPrefix: string, diffs: seq<FileDiff>,
                                       left: map<string, FileInfo>)
    requires n < |existing| && Compared(existing, n, index, scan, rootPrefix, diffs, left)
    requires var p := existing[n].path; !InScope(p, rootPrefix) || Expected(index, scan, rootPrefix, p).None?
    ensures Compared(existing, n + 1, index, scan, rootPrefix, diffs,
                     if InScope(existing[n].path, rootPrefix) then left - {existing[n].path} else left)
  {
    hide InScope, Expected;
    PathsSnoc(existing, n);
  }

  /** A row in scope that differs from its scan adds its difference. */
  lemma {:induction false} CompareEmit(existing: seq<Row>, n: nat, index: map<string, Meta>,
                                       scan: map<string, FileInfo>, rootPrefix: string, diffs: seq<FileDiff>,
                                       left: map<string, FileInfo>, d: FileDiff)
    requires n < |existing| && Compared(existing, n, index, scan, rootPrefix, diffs, left)
    requires existing[n].path !in PathsOf(existing[..n])
    requires InScope(existing[n].path, rootPrefix) && d.file.path == existing[n].path
    requires Expected(index, scan, rootPrefix, existing[n].path) == Some(d) && d.action != Add
    ensures Compared(existing, n + 1, index, scan, rootPrefix, diffs + [d], left - {existing[n].path})
  {
    hide InScope, Expected;
    PathsSnoc(existing, n);
    Extend(diffs, d, index, scan, rootPrefix);
  }

  lemma {:induction false} RowIsNew(existing: seq<Row>, n: nat, index: map<string, Meta>)
    requires Lists(existing, index) && n < |existing|
    ensures existing[n].path !in PathsOf(existing[..n])
    ensures existing[n].path in index && index[existing[n].path] == existing[n].meta
  {}

  lemma {:induction false} ComparedStart(existing: seq<Row>, index: map<string, Meta>, scan: map<string, FileInfo>,
                                         rootPrefix: string)
    ensures Compared(existing, 0, index, scan, rootPrefix, [], scan)
  {}

  function Verdict(p: string, meta: Meta, left: map<string, FileInfo>): Option<FileDiff> {
    if p !in left then Some(Deletion(p)) else if Changed(left[p], meta) then Some(FileDiff(left[p], Modify)) else None
  }

  /** What the loop finds about one row, in the terms of the working copy. */
  lemma {:induction false} RowVerdict(existing: seq<Row>, n: nat, index: map<string, Meta>, scan: map<string, FileInfo>,
                                      rootPrefix: string, diffs: seq<FileDiff>, left: map<string, FileInfo>)
    requires Lists(existing, index) && n < |existing| && Compared(existing, n, index, scan, rootPrefix, diffs, left)
    requires forall p :: p in scan ==> scan[p].path == p
    ensures existing[n].path !in PathsOf(existing[..n])
    ensures var p, meta := existing[n].path, existing[n].meta;
      InScope(p, rootPrefix) ==>
        Expected(index, scan, rootPrefix, p) == Verdict(p, meta, left)
    ensures existing[n].path in left ==> left[existing[n].path].path == existing[n].path
  {
    hide InScope, Compared;
    RowIsNew(existing, n, index);
    LeftAt(existing, n, index, scan, rootPrefix, diffs, left);
  }

  /** The first loop: the stored rows, in whatever order they are listed. */
  method CompareStored(existing: seq<Row>, scanned: map<string, FileInfo>, rootPrefix: string,
                       ghost index: map<string, Meta>)
    returns (diffs: seq<FileDiff>, scannedPaths: map<string, FileInfo>)
    requires Lists(existing, index)
    requires forall p :: p in scanned ==> scanned[p].path == p
    ensures Compared(existing, |existing|, index, scanned, rootPrefix, diffs, scannedPaths)
  {
    hide Compared, Lists, Expected, PathInRoot;
    ComparedStart(existing, index, scanned, rootPrefix);
    diffs, scannedPaths := [], scanned;
    for n := 0 to |existing|
      invariant Compared(existing, n, index, scanned, rootPrefix, diffs, scannedPaths)
    {
      var snap := existing[n];
      RowVerdict(existing, n, index, scanned, rootPrefix, diffs, scannedPaths);
      if rootPrefix != "" && !PathInRoot(snap.path, rootPrefix) {
        ComparePass(existing, n, index, scanned, rootPrefix, diffs, scannedPaths);
      } else if snap.path !in scannedPaths {
        CompareEmit(existing, n, index, scanned, rootPrefix, diffs, scannedPaths, Deletion(snap.path));
        diffs := diffs + [FileDiff(FileInfo(snap.path, 0, 0, 0, []), Delete)];
        assert scannedPaths - {snap.path} == scannedPaths;
      } else {
        var scannedFile := scannedPaths[snap.path];
        if scannedFile.mtime != snap.meta.mtime || scannedFile.size != snap.meta.size
          || scannedFile.mode != snap.meta.mode || scannedFile.sha != snap.meta.sha
        {
          CompareEmit(existing, n, index, scanned, rootPrefix, diffs, scannedPaths, FileDiff(scannedFile, Modify));
          diffs := diffs + [FileDiff(scannedFile, Modify)];
        } else {
          ComparePass(existing, n, index, scanned, rootPrefix, diffs, scannedPaths);
        }
        scannedPaths := scannedPaths - {snap.path};
      }
    }
  }

  /** Before its row is visited, a stored path is still in the working copy exactly if it was scanned. */
  lemma {:induction false} LeftAt(existing: seq<Row>, n: nat, index: map<string, Meta>, scan: map<string, FileInfo>,
                                  rootPrefix: string, diffs: seq<FileDiff>, left: map<string, FileInfo>)
    requires n < |existing| && Compared(existing, n, index, scan, rootPrefix, diffs, left)
    requires existing[n].path !in PathsOf(existing[..n])
    ensures Lookup(left, existing[n].path) == Lookup(scan, existing[n].path)
  {}

  lemma {:induction false} ScanMapStep(scanned: seq<FileInfo>, n: nat)
    requires n < |scanned|
    ensures ScanMap(scanned[..n + 1]) == ScanMap(scanned[..n])[scanned[n].path := scanned[n]]
  {
    assert scanned[..n + 1][..n] == scanned[..n];
  }

  lemma {:induction false} ScanMapEnds(scanned: seq<FileInfo>)
    ensures ScanMap(scanned[..0]) == map[] && ScanMap(scanned[..|scanned|]) == ScanMap(scanned)
  {
    assert scanned[..|scanned|] == scanned;
  }

  /** The state of the second loop: the stored rows are compared, and of the paths left over all but
      `todo` have been added. */
  ghost predicate Adding(index: map<string, Meta>, scan: map<string, FileInfo>, rootPrefix: string, stored: set<string>,
                         left: map<string, FileInfo>, todo: set<string>, diffs: seq<FileDiff>) {
    && Agrees(diffs, index, scan, rootPrefix) && DistinctPaths(diffs) && AddsLast(diffs)
    && todo <= left.Keys && stored !! left.Keys
    && Named(diffs) == stored + (left.Keys - todo)
    && (forall p :: p in left ==>
          Expected(index, scan, rootPrefix, p) == Some(FileDiff(left[p], Add)) && left[p].path == p)
    && (forall p :: Expected(index, scan, rootPrefix, p).Some? ==> p in stored + left.Keys)
  }

  lemma {:induction false} AddingStart(existing: seq<Row>, index: map<string, Meta>, scan: map<string, FileInfo>,
                                       rootPrefix: string, diffs: seq<FileDiff>, left: map<string, FileInfo>)
    requires Lists(existing, index) && Compared(existing, |existing|, index, scan, rootPrefix, diffs, left)
    requires forall p :: p in scan ==> scan[p].path == p
    ensures Adding(index, scan, rootPrefix, Named(diffs), left, left.Keys, diffs)
  {
    hide InScope;
    assert existing[..|existing|] == existing;
    assert PathsOf(existing) == index.Keys;
    assert forall p :: p in index <==> p in index.Keys;
  }

  lemma {:induction false} AddingStep(index: map<string, Meta>, scan: map<string, FileInfo>, rootPrefix: string,
                                      stored: set<string>, left: map<string, FileInfo>, todo: set<string>,
                                      diffs: seq<FileDiff>, p: string)
    requires Adding(index, scan, rootPrefix, stored, left, todo, diffs) && p in todo
    ensures p in left && Adding(index, scan, rootPrefix, stored, left, todo - {p}, diffs + [FileDiff(left[p], Add)])
  {
    hide Expected, Agrees, DistinctPaths, AddsLast, Named;
    assert p in left.Keys;
    Extend(diffs, FileDiff(left[p], Add), index, scan, rootPrefix);
  }

  lemma {:induction false} AddingDone(index: map<string, Meta>, scan: map<string, FileInfo>, rootPrefix: string,
                                      stored: set<string>, left: map<string, FileInfo>, diffs: seq<FileDiff>)
    requires Adding(index, scan, rootPrefix, stored, left, {}, diffs)
    ensures IsDiff(diffs, index, scan, rootPrefix)
  {
    hide Expected, Agrees, DistinctPaths, AddsLast, Named;
  }

  /** The second loop: what was scanned but not stored, in any order, as map iteration gives it. */
  method EmitAdded(stored: seq<FileDiff>, scannedPaths: map<string, FileInfo>,
                   ghost index: map<string, Meta>, ghost scan: map<string, FileInfo>, ghost rootPrefix: string)
    returns (diffs: seq<FileDiff>)
    requires Adding(index, scan, rootPrefix, Named(stored), scannedPaths, scannedPaths.Keys, stored)
    ensures IsDiff(diffs, index, scan, rootPrefix)
  {
    hide *;
    diffs := stored;
    var todo := scannedPaths.Keys;
    while todo != {}
      invariant Adding(index, scan, rootPrefix, Named(stored), scannedPaths, todo, diffs)
      decreases todo
    {
      var p :| p in todo;
      AddingStep(index, scan, rootPrefix, Named(stored), scannedPaths, todo, diffs, p);
      diffs := diffs + [FileDiff(scannedPaths[p], Add)];
      todo := todo - {p};
    }
    AddingDone(index, scan, rootPrefix, Named(stored), scannedPaths, diffs);
  }

  /** The whole of computeDiff. */
  method ComputeDiff(scanned: seq<FileInfo>, db: SnapshotTable, server: string, user: string, rootPrefix: string)
    returns (r: Result<seq<FileDiff>, string>)
    ensures r.Ok? ==> IsDiff(r.value, View(db.rows, server, user), ScanMap(scanned), rootPrefix)
  {
    hide *;
    ScanMapEnds(scanned);
    var scan: map<string, FileInfo> := map[];
    for n := 0 to |scanned|
      invariant scan == ScanMap(scanned[..n])
    {
      ScanMapStep(scanned, n);
      scan := scan[scanned[n].path := scanned[n]];
    }
    ScanMapKeys(scanned);
    var listing := db.ListUserSnapshots(server, user);
    if listing.Err? {
      r := Err(listing.error);
    } else {
      ghost var index := View(db.rows, server, user);
      var stored, remaining := CompareStored(listing.value, scan, rootPrefix, index);
      AddingStart(listing.value, index, scan, rootPrefix, stored, remaining);
      var diffs := EmitAdded(stored, remaining, index, scan, rootPrefix);
      r := Ok(diffs);
    }
  }

  // ---- exactness -----------------------------------------------------------------------------

  lemma {:induction false} EditsDistinct(diffs: seq<FileDiff>)
    requires DistinctPaths(diffs)
    ensures Distinct(IndexEdits(diffs))
  {}

  lemma {:induction false} NamedIffTouched(diffs: seq<FileDiff>, p: string)
    ensures p in Named(diffs) <==> Touches(IndexEdits(diffs), p)
  {
    var es := IndexEdits(diffs);
    if p in Named(diffs) {
      var i :| 0 <= i < |diffs| && diffs[i].file.path == p;
      assert es[i].path == p;
    }
  }

  function ScanMeta(scan: map<string, FileInfo>, p: string): Option<Meta> {
    if p in scan then Some(MetaOf(scan[p])) else None
  }

  /** Exactness: recording the difference makes the table agree with the scan at every path in
      scope, and leaves every path that is neither in scope nor scanned alone. */
  lemma {:induction false} DiffExact(diffs: seq<FileDiff>, index: map<string, Meta>, scan: map<string, FileInfo>,
                                     rootPrefix: string, p: string)
    requires IsDiff(diffs, index, scan, rootPrefix)
    requires forall q :: q in scan ==> scan[q].path == q
    ensures var after := Apply(index, IndexEdits(diffs));
      Lookup(after, p) == if InScope(p, rootPrefix) || p in scan then ScanMeta(scan, p) else Lookup(index, p)
  {
    EditsDistinct(diffs);
    NamedIffTouched(diffs, p);
    if p in Named(diffs) {
      var i :| 0 <= i < |diffs| && diffs[i].file.path == p;
      assert Expected(index, scan, rootPrefix, p) == Some(diffs[i]);
      ApplyTouched(index, IndexEdits(diffs), i);
      assert IndexEdits(diffs)[i] == IndexEdit(diffs[i]);
    } else {
      ApplyUntouched(index, IndexEdits(diffs), p);
      assert Expected(index, scan, rootPrefix, p) == None;
    }
  }

  /** Running the comparison again after recording it finds nothing to do. */
  lemma {:induction false} DiffSettles(diffs: seq<FileDiff>, index: map<string, Meta>, scan: map<string, FileInfo>,
                                       rootPrefix: string, again: seq<FileDiff>)
    requires IsDiff(diffs, index, scan, rootPrefix)
    requires forall q :: q in scan ==> scan[q].path == q && InScope(q, rootPrefix)
    requires IsDiff(again, Apply(index, IndexEdits(diffs)), scan, rootPrefix)
    ensures again == []
  {
    var after := Apply(index, IndexEdits(diffs));
    if again != [] {
      var p := again[0].file.path;
      assert Expected(after, scan, rootPrefix, p) == Some(again[0]);
      DiffExact(diffs, index, scan, rootPrefix, p);
    }
  }

  /** A path is named only if it is stored under the root or was scanned, and never when its
      stored row equals its scan. */
  lemma {:induction false} NamedExactly(diffs: seq<FileDiff>, index: map<string, Meta>, scan: map<string, FileInfo>,
                                        rootPrefix: string, p: string)
    requires IsDiff(diffs, index, scan, rootPrefix)
    requires forall q :: q in scan ==> scan[q].path == q && InScope(q, rootPrefix)
    ensures p in Named(diffs) <==> InScope(p, rootPrefix) && Lookup(index, p) != ScanMeta(scan, p)
  {
    if p in Named(diffs) {
      var i :| 0 <= i < |diffs| && diffs[i].file.path == p;
      assert Expected(index, scan, rootPrefix, p) == Some(diffs[i]);
    }
  }

  /** Two lists that satisfy the contract contain the same differences. */
  lemma {:induction false} DiffUnique(a: seq<FileDiff>, b: seq<FileDiff>, index: map<string, Meta>,
                                      scan: map<string, FileInfo>, rootPrefix: string, d: FileDiff)
    requires IsDiff(a, index, scan, rootPrefix) && IsDiff(b, index, scan, rootPrefix)
    requires d in a
    ensures d in b
  {
    var i :| 0 <= i < |a| && a[i] == d;
    assert Expected(index, scan, rootPrefix, d.file.path) == Some(d);
    assert d.file.path in Named(b);
    var j :| 0 <= j < |b| && b[j].file.path == d.file.path;
    assert Expected(index, scan, rootPrefix, b[j].file.path) == Some(b[j]);
  }
}
