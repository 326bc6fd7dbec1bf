/** The index, the dataset and the newest snapshot as one replicated state, over whole runs of pushes
    each free to stop anywhere. */
module Protocol {
  import opened Model
  import opened Namespacing
  import opened Patches
  import opened Index
  import opened Diff
  import opened Wire
  import opened Pusher

  // ---- the state -----------------------------------------------------------------------------

  /** What the agent believes is stored, what the dataset shows, and what a restore would return. */
  datatype Replica = Replica(index: map<string, Meta>, live: map<string, File>, snap: map<string, File>)

  /** A stored row describes a file: size, permissions and digest. */
  ghost predicate Describes(digest: Digest, m: Meta, f: File) {
    m.size == |f.content| && m.mode == f.mode && m.sha == digest(f.content)
  }

  /** The three agree at one path. */
  ghost predicate AgreeAt(digest: Digest, r: Replica, p: string) {
    && (p in r.index <==> p in r.live)
    && (p in r.live ==> Describes(digest, r.index[p], r.live[p]))
    && Lookup(r.snap, p) == Lookup(r.live, p)
  }

  ghost predicate AgreeOutside(digest: Digest, r: Replica, dirty: set<string>) {
    forall p :: p !in dirty ==> AgreeAt(digest, r, p)
  }

  // ---- one push ------------------------------------------------------------------------------

  /** One root's push: what the agent would record and what the server would store, how many of the
      changes became visible, what temporary files stayed, whether the server took its snapshot, and how
      many rows were recorded. */
  datatype Push = Push(rows: seq<Edit<Meta>>, files: seq<Edit<File>>, pushed: nat, left: map<string, File>, took: bool,
                       recorded: nat)

  /** Row and file edits go together: the same paths in the same order, removed or stored alike, and
      the row describes the file. This is where the scan must still describe what is read when the
      push reaches it. */
  ghost predicate Paired(digest: Digest, rows: seq<Edit<Meta>>, files: seq<Edit<File>>) {
    && |rows| == |files|
    && (forall i :: 0 <= i < |rows| ==>
          && rows[i].path == files[i].path
          && (rows[i].value.None? <==> files[i].value.None?)
          && (rows[i].value.Some? ==> Describes(digest, rows[i].value.value, files[i].value.value)))
  }

  /** The order of the agent and the server: rows are recorded only after the stream succeeded, which
      it does only after the snapshot, which needs every change. */
  ghost predicate ValidPush(digest: Digest, e: Push) {
    && Paired(digest, e.rows, e.files) && Distinct(e.rows) && Distinct(e.files)
    && e.pushed <= |e.files| && e.recorded <= |e.rows|
    && (e.took ==> e.pushed == |e.files|)
    && (e.pushed == |e.files| ==> e.left == map[])
    && (e.recorded > 0 ==> e.took)
  }

  function After(r: Replica, e: Push): Replica
    requires e.pushed <= |e.files| && e.recorded <= |e.rows|
  {
    var live := Apply(r.live, e.files[..e.pushed]) + e.left;
    Replica(Apply(r.index, e.rows[..e.recorded]), live, if e.took then live else r.snap)
  }

  function PathsIn<V>(es: seq<Edit<V>>): set<string> { set i | 0 <= i < |es| :: es[i].path }

  /** Paths made visible but not recorded become uncertain, and so do temporary files that stayed;
      recording a path settles it. */
  function DirtyAfter(dirty: set<string>, e: Push): set<string>
    requires e.pushed <= |e.files| && e.recorded <= |e.rows|
  {
    (dirty + PathsIn(e.files[..e.pushed]) + e.left.Keys) - PathsIn(e.rows[..e.recorded])
  }

  lemma {:induction false} PathsTouched<V>(es: seq<Edit<V>>, p: string)
    ensures p in PathsIn(es) <==> Touches(es, p)
  {}

  lemma {:induction false} DistinctTake<V>(es: seq<Edit<V>>, k: nat)
    requires Distinct(es) && k <= |es|
    ensures Distinct(es[..k])
  {
    forall i, j | 0 <= i < j < k ensures es[..k][i].path != es[..k][j].path {
      assert es[..k][i] == es[i] && es[..k][j] == es[j];
    }
  }

  /** A recorded path agrees: both edits of it were applied. */
  lemma {:induction false} RecordedAgrees(digest: Digest, r: Replica, e: Push, p: string)
    requires ValidPush(digest, e) && p in PathsIn(e.rows[..e.recorded])
    ensures AgreeAt(digest, After(r, e), p)
  {
    var i :| 0 <= i < e.recorded && e.rows[i].path == p;
    assert e.files[..e.pushed] == e.files;
    DistinctTake(e.rows, e.recorded);
    assert e.rows[..e.recorded][i] == e.rows[i];
    ApplyTouched(r.index, e.rows[..e.recorded], i);
    ApplyTouched(r.live, e.files, i);
  }

  lemma {:induction false} LiveAt(r: Replica, e: Push, p: string)
    requires e.pushed <= |e.files| && e.recorded <= |e.rows|
    ensures Lookup(After(r, e).live, p) ==
      if p in e.left then Some(e.left[p]) else Lookup(Apply(r.live, e.files[..e.pushed]), p)
  {
    hide Apply;
  }

  /** A path the push did not touch keeps whatever it had. */
  lemma {:induction false} UntouchedKeeps(digest: Digest, r: Replica, e: Push, p: string)
    requires ValidPush(digest, e)
    requires p !in PathsIn(e.files[..e.pushed]) && p !in PathsIn(e.rows[..e.recorded]) && p !in e.left
    ensures Lookup(After(r, e).index, p) == Lookup(r.index, p)
    ensures Lookup(After(r, e).live, p) == Lookup(r.live, p)
    ensures AgreeAt(digest, r, p) ==> AgreeAt(digest, After(r, e), p)
  {
    PathsTouched(e.files[..e.pushed], p);
    PathsTouched(e.rows[..e.recorded], p);
    ApplyUntouched(r.live, e.files[..e.pushed], p);
    ApplyUntouched(r.index, e.rows[..e.recorded], p);
  }

  lemma {:induction false} PushAgrees(digest: Digest, r: Replica, e: Push, dirty: set<string>)
    requires ValidPush(digest, e) && AgreeOutside(digest, r, dirty)
    ensures AgreeOutside(digest, After(r, e), DirtyAfter(dirty, e))
  {
    forall p | p !in DirtyAfter(dirty, e) ensures AgreeAt(digest, After(r, e), p) {
      if p in PathsIn(e.rows[..e.recorded]) {
        RecordedAgrees(digest, r, e, p);
      } else {
        assert AgreeAt(digest, r, p);
        UntouchedKeeps(digest, r, e, p);
      }
    }
  }

  // ---- whole runs ----------------------------------------------------------------------------

  ghost predicate ValidRun(digest: Digest, run: seq<Push>) {
    forall i :: 0 <= i < |run| ==> ValidPush(digest, run[i])
  }

  ghost predicate SizedRun(run: seq<Push>) {
    forall i :: 0 <= i < |run| ==> run[i].pushed <= |run[i].files| && run[i].recorded <= |run[i].rows|
  }

  function RunAfter(r: Replica, run: seq<Push>): Replica
    requires SizedRun(run)
    decreases |run|
  {
    if run == [] then r else After(RunAfter(r, run[..|run| - 1]), run[|run| - 1])
  }

  function RunDirty(dirty: set<string>, run: seq<Push>): set<string>
    requires SizedRun(run)
    decreases |run|
  {
    if run == [] then dirty else DirtyAfter(RunDirty(dirty, run[..|run| - 1]), run[|run| - 1])
  }

  /** Whole-run agreement: over any sequence of pushes, whatever each of them names and wherever each
      of them stops, the table, the dataset and the newest snapshot agree at every path except those a
      stopped push made visible and no later push recorded. */
  lemma {:induction false} RunAgrees(digest: Digest, r: Replica, run: seq<Push>, dirty: set<string>)
    requires ValidRun(digest, run) && SizedRun(run) && AgreeOutside(digest, r, dirty)
    ensures AgreeOutside(digest, RunAfter(r, run), RunDirty(dirty, run))
    decreases |run|
  {
    if run != [] {
      var before := run[..|run| - 1];
      RunAgrees(digest, r, before, dirty);
      PushAgrees(digest, RunAfter(r, before), run[|run| - 1], RunDirty(dirty, before));
    }
  }

  // ---- temporary files that stayed -----------------------------------------------------------

  /** A temporary file has a name that no file of the dataset has. */
  ghost predicate LeftIsNew(r: Replica, e: Push)
    requires e.pushed <= |e.files|
  {
    e.left.Keys !! Apply(r.live, e.files[..e.pushed]).Keys
  }

  ghost predicate RunLeftNew(r: Replica, run: seq<Push>)
    requires SizedRun(run)
  {
    forall j :: 0 <= j < |run| ==> LeftIsNew(RunAfter(r, run[..j]), run[j])
  }

  lemma {:induction false} RunLeftNothing(r: Replica)
    ensures RunLeftNew(r, [])
  {}

  lemma {:induction false} RunLeftMore(r: Replica, run: seq<Push>, e: Push)
    requires SizedRun(run) && SizedRun(run + [e]) && RunLeftNew(r, run)
    requires e.pushed <= |e.files| && LeftIsNew(RunAfter(r, run), e)
    ensures RunLeftNew(r, run + [e])
  {
    hide LeftIsNew, RunAfter;
    var more := run + [e];
    forall j | 0 <= j < |more| ensures LeftIsNew(RunAfter(r, more[..j]), more[j]) {
      if j < |run| { assert more[..j] == run[..j]; } else { assert more[..j] == run; }
    }
  }

  function RunLitter(run: seq<Push>): set<string> {
    set j, q | 0 <= j < |run| && q in run[j].left :: q
  }

  // ---- a completed root ----------------------------------------------------------------------

  /** A file of the local tree, by archive path. */
  datatype Local = Local(content: Bytes, mode: Mode, mtime: int)

  function InfoOf(digest: Digest, p: string, l: Local): FileInfo {
    FileInfo(p, |l.content|, l.mtime, l.mode, digest(l.content))
  }

  function StoredOf(l: Local): File { File(l.content, l.mode) }

  function TreeAt(tree: map<string, Local>, p: string): Option<File> {
    if p in tree then Some(StoredOf(tree[p])) else None
  }

  /** The scan describes the tree; permissions are the nine bits a scan reports. */
  ghost predicate ScanOf(digest: Digest, scan: map<string, FileInfo>, tree: map<string, Local>) {
    && scan.Keys == tree.Keys
    && (forall p :: p in tree ==> scan[p] == InfoOf(digest, p, tree[p]) && tree[p].mode == Perm(tree[p].mode))
  }

  /** The files read when the push runs are those that were scanned. */
  ghost predicate Frozen(prefix: string, tree: map<string, Local>, disk: LocalFiles) {
    forall p :: p in tree ==>
      && SourcePath(prefix, p).Ok? && SourcePath(prefix, p).value in disk
      && disk[SourcePath(prefix, p).value] == tree[p].content
  }

  /** The file edit a difference stands for when nothing has changed since the scan. */
  function TreeEdit(d: FileDiff, tree: map<string, Local>): Edit<File> {
    Edit(d.file.path, if d.action == Delete then None else TreeAt(tree, d.file.path))
  }

  lemma {:induction false} FrozenEdit(digest: Digest, prefix: string, d: FileDiff, tree: map<string, Local>,
                                      disk: LocalFiles)
    requires d.action != Delete ==> d.file.path in tree && d.file == InfoOf(digest, d.file.path, tree[d.file.path])
    requires d.action != Delete ==> tree[d.file.path].mode == Perm(tree[d.file.path].mode)
    requires Frozen(prefix, tree, disk)
    ensures FileEdit(ChangeFor(prefix, d, disk)) == TreeEdit(d, tree)
  {
    if d.action != Delete {
      var content := tree[d.file.path].content;
      assert content[..|content|] == content;
    }
  }

  ghost predicate DiffOfTree(digest: Digest, diffs: seq<FileDiff>, tree: map<string, Local>) {
    forall i :: 0 <= i < |diffs| && diffs[i].action != Delete ==>
      diffs[i].file.path in tree && diffs[i].file == InfoOf(digest, diffs[i].file.path, tree[diffs[i].file.path])
  }

  lemma {:induction false} DiffStoresTree(digest: Digest, diffs: seq<FileDiff>, index: map<string, Meta>,
                                          scan: map<string, FileInfo>, prefix: string, tree: map<string, Local>)
    requires IsDiff(diffs, index, scan, prefix) && ScanOf(digest, scan, tree)
    ensures DiffOfTree(digest, diffs, tree)
    ensures forall i :: 0 <= i < |diffs| && diffs[i].action == Delete ==> diffs[i].file.path !in tree
  {
    forall i | 0 <= i < |diffs|
      ensures diffs[i].action == Delete ==> diffs[i].file.path !in tree
      ensures diffs[i].action != Delete ==>
        diffs[i].file.path in tree && diffs[i].file == InfoOf(digest, diffs[i].file.path, tree[diffs[i].file.path])
    {
      assert Expected(index, scan, prefix, diffs[i].file.path) == Some(diffs[i]);
    }
  }

  /** With frozen files the recorded rows describe the pushed files. */
  lemma {:induction false} FrozenPaired(digest: Digest, diffs: seq<FileDiff>, prefix: string, tree: map<string, Local>,
                                        disk: LocalFiles)
    requires DiffOfTree(digest, diffs, tree) && Frozen(prefix, tree, disk)
    requires forall p :: p in tree ==> tree[p].mode == Perm(tree[p].mode)
    ensures Paired(digest, IndexEdits(diffs), FileEdits(ChangesFor(prefix, diffs, disk)))
    ensures forall i :: 0 <= i < |diffs| ==> FileEdits(ChangesFor(prefix, diffs, disk))[i] == TreeEdit(diffs[i], tree)
  {
    var files := FileEdits(ChangesFor(prefix, diffs, disk));
    forall i | 0 <= i < |diffs|
      ensures files[i] == TreeEdit(diffs[i], tree)
    {
      FrozenEdit(digest, prefix, diffs[i], tree, disk);
    }
  }

  /** A push of exactly the difference of a root, sent, snapshotted and recorded to the end. */
  ghost predicate CompletePush(e: Push, diffs: seq<FileDiff>, tree: map<string, Local>) {
    && e.rows == IndexEdits(diffs)
    && |e.files| == |diffs|
    && (forall i :: 0 <= i < |diffs| ==> e.files[i] == TreeEdit(diffs[i], tree))
    && e.took && e.pushed == |e.files| && e.left == map[] && e.recorded == |e.rows|
  }

  /** The replica after a completed sync of one root. An empty difference opens no stream at all. */
  function Completed(r: Replica, e: Push, diffs: seq<FileDiff>): Replica
    requires e.pushed <= |e.files| && e.recorded <= |e.rows|
  {
    if diffs == [] then r else After(r, e)
  }

  lemma {:induction false} NamedPathExact(digest: Digest, r: Replica, e: Push, diffs: seq<FileDiff>,
                                          index: map<string, Meta>, scan: map<string, FileInfo>, prefix: string,
                                          tree: map<string, Local>, p: string)
    requires IsDiff(diffs, index, scan, prefix) && ScanOf(digest, scan, tree) && CompletePush(e, diffs, tree)
    requires p in Named(diffs)
    ensures Lookup(After(r, e).live, p) == TreeAt(tree, p)
  {
    DiffStoresTree(digest, diffs, index, scan, prefix, tree);
    var i :| 0 <= i < |diffs| && diffs[i].file.path == p;
    assert e.files[..e.pushed] == e.files;
    assert Distinct(e.files) by {
      forall a, b | 0 <= a < b < |e.files| ensures e.files[a].path != e.files[b].path {
        assert diffs[a].file.path != diffs[b].file.path;
      }
    }
    ApplyTouched(r.live, e.files, i);
  }

  lemma {:induction false} NamedIsPushed(e: Push, diffs: seq<FileDiff>, tree: map<string, Local>, p: string)
    requires CompletePush(e, diffs, tree)
    ensures p in Named(diffs) <==> p in PathsIn(e.files[..e.pushed])
  {
    assert e.files[..e.pushed] == e.files;
    if p in Named(diffs) {
      var i :| 0 <= i < |diffs| && diffs[i].file.path == p;
      assert e.files[i].path == p;
    }
    if p in PathsIn(e.files) {
      var i :| 0 <= i < |e.files| && e.files[i].path == p;
      assert diffs[i].file.path == p;
    }
  }

  lemma {:induction false} UnnamedKept(r: Replica, e: Push, diffs: seq<FileDiff>, tree: map<string, Local>, p: string)
    requires CompletePush(e, diffs, tree) && p !in Named(diffs)
    ensures Lookup(After(r, e).live, p) == Lookup(r.live, p)
  {
    NamedIsPushed(e, diffs, tree, p);
    PathsTouched(e.files[..e.pushed], p);
    ApplyUntouched(r.live, e.files[..e.pushed], p);
  }

  /** Where table, dataset and snapshot agreed and the difference says nothing, the dataset already
      held the tree's file: equal digests are equal contents. */
  lemma {:induction false} UnnamedPathExact(digest: Digest, r: Replica, diffs: seq<FileDiff>,
                                            scan: map<string, FileInfo>, prefix: string, tree: map<string, Local>,
                                            p: string)
    requires Injective(digest) && IsDiff(diffs, r.index, scan, prefix) && ScanOf(digest, scan, tree)
    requires InScope(p, prefix) && p !in Named(diffs) && AgreeAt(digest, r, p)
    ensures Lookup(r.live, p) == TreeAt(tree, p) && Lookup(r.snap, p) == TreeAt(tree, p)
  {
    assert Expected(r.index, scan, prefix, p) == None;
    if p in tree {
      assert digest(tree[p].content) == digest(r.live[p].content);
    }
  }

  /** A completed root: the table under the root equals the scan, and dataset and snapshot hold the
      tree at every path under the root that was not uncertain or that the difference names. */
  lemma {:induction false} CompletedRootExact(digest: Digest, r: Replica, e: Push, diffs: seq<FileDiff>,
                                              scan: map<string, FileInfo>, prefix: string, tree: map<string, Local>,
                                              dirty: set<string>, p: string)
    requires Injective(digest) && AgreeOutside(digest, r, dirty)
    requires IsDiff(diffs, r.index, scan, prefix) && ScanOf(digest, scan, tree) && CompletePush(e, diffs, tree)
    requires InScope(p, prefix)
    ensures Lookup(Completed(r, e, diffs).index, p) == ScanMeta(scan, p)
    ensures p !in dirty || p in Named(diffs) ==>
      && Lookup(Completed(r, e, diffs).live, p) == TreeAt(tree, p)
      && Lookup(Completed(r, e, diffs).snap, p) == TreeAt(tree, p)
  {
    assert e.rows[..e.recorded] == e.rows;
    DiffExact(diffs, r.index, scan, prefix, p);
    if diffs == [] { assert IndexEdits(diffs) == []; }
    if p in Named(diffs) {
      NamedPathExact(digest, r, e, diffs, r.index, scan, prefix, tree, p);
    } else if p !in dirty {
      assert AgreeAt(digest, r, p);
      UnnamedPathExact(digest, r, diffs, scan, prefix, tree, p);
      UnnamedKept(r, e, diffs, tree, p);
    }
  }

  // ---- what the server holds at an uncertain path --------------------------------------------

  /** What the pushes of a run last made of p: nothing, a removal, or a file. */
  function LastPushed(run: seq<Push>, p: string): Option<Option<File>>
    requires SizedRun(run)
    decreases |run|
  {
    if run == [] then None
    else
      var e := run[|run| - 1];
      if p in e.left then Some(Some(e.left[p]))
      else if p in PathsIn(e.files[..e.pushed]) then Some(Lookup(Apply(map[], e.files[..e.pushed]), p))
      else LastPushed(run[..|run| - 1], p)
  }

  /** A path that some edit names ends the same whatever was there before. */
  lemma {:induction false} TouchedForgets(m: map<string, File>, es: seq<Edit<File>>, p: string)
    requires Distinct(es) && p in PathsIn(es)
    ensures Lookup(Apply(m, es), p) == Lookup(Apply(map[], es), p)
    ensures forall e :: e in es && e.path == p ==> Lookup(Apply(m, es), p) == e.value
  {
    hide Apply;
    forall i | 0 <= i < |es| && es[i].path == p
      ensures Lookup(Apply(m, es), p) == es[i].value && Lookup(Apply(map[], es), p) == es[i].value
    {
      ApplyTouched(m, es, i);
      ApplyTouched(map[], es, i);
    }
  }

  /** What the dataset holds at a path after a run is what the run last pushed there. */
  lemma {:induction false} LiveIsLast(digest: Digest, r: Replica, run: seq<Push>, p: string)
    requires ValidRun(digest, run) && SizedRun(run)
    ensures Lookup(RunAfter(r, run).live, p) ==
      if LastPushed(run, p).Some? then LastPushed(run, p).value else Lookup(r.live, p)
    decreases |run|
  {
    hide Paired, Describes;
    if run != [] {
      var before, e := run[..|run| - 1], run[|run| - 1];
      LiveIsLast(digest, r, before, p);
      LiveAt(RunAfter(r, before), e, p);
      hide After, Apply;
      assert ValidPush(digest, e);
      DistinctTake(e.files, e.pushed);
      if p in PathsIn(e.files[..e.pushed]) {
        TouchedForgets(RunAfter(r, before).live, e.files[..e.pushed], p);
      } else {
        PathsTouched(e.files[..e.pushed], p);
        ApplyUntouched(RunAfter(r, before).live, e.files[..e.pushed], p);
      }
    }
  }

  /** Uncertain paths are paths that the run pushed to. */
  lemma {:induction false} DirtyIsPushed(run: seq<Push>, p: string)
    requires SizedRun(run) && p in RunDirty({}, run)
    ensures LastPushed(run, p).Some?
    decreases |run|
  {
    var before := run[..|run| - 1];
    if p in RunDirty({}, before) { DirtyIsPushed(before, p); }
  }

  /** Every uncertain path that the difference does not name was last pushed as the tree has it. */
  ghost predicate UncertainAsTree(run: seq<Push>, diffs: seq<FileDiff>, tree: map<string, Local>, prefix: string)
    requires SizedRun(run)
  {
    forall p :: p in RunDirty({}, run) && InScope(p, prefix) && p !in Named(diffs) ==>
      LastPushed(run, p) == Some(TreeAt(tree, p))
  }

  /** The dataset holds the tree at every path under the root, and nothing else. */
  ghost predicate ShowsTree(r: Replica, tree: map<string, Local>, prefix: string) {
    forall p :: InScope(p, prefix) ==> Lookup(r.live, p) == TreeAt(tree, p)
  }

  /** Exactly when a completed sync leaves the dataset equal to the tree under its root, after any run of
      pushes from agreement: when the last thing pushed to every uncertain path that the difference does
      not name is the tree's file. Of a push that failed the agent knows only that what became visible lies
      between what was acknowledged and what was sent. */
  lemma {:induction false} CompletedRootExactIff(digest: Digest, r0: Replica, run: seq<Push>, e: Push,
                                                 diffs: seq<FileDiff>, scan: map<string, FileInfo>, prefix: string,
                                                 tree: map<string, Local>)
    requires Injective(digest) && AgreeOutside(digest, r0, {}) && ValidRun(digest, run) && SizedRun(run)
    requires IsDiff(diffs, RunAfter(r0, run).index, scan, prefix) && ScanOf(digest, scan, tree)
    requires CompletePush(e, diffs, tree)
    ensures ShowsTree(Completed(RunAfter(r0, run), e, diffs), tree, prefix) <==>
      UncertainAsTree(run, diffs, tree, prefix)
  {
    hide RunAfter, RunDirty, LastPushed, InScope, IsDiff, ScanOf, Completed, TreeEdit, AgreeOutside, ValidRun, SizedRun,
         TreeAt, Injective;
    RunAgrees(digest, r0, run, {});
    forall p | InScope(p, prefix)
      ensures p !in RunDirty({}, run) || p in Named(diffs) ==>
        Lookup(Completed(RunAfter(r0, run), e, diffs).live, p) == TreeAt(tree, p)
      ensures p in RunDirty({}, run) && p !in Named(diffs) ==>
        LastPushed(run, p) == Some(Lookup(Completed(RunAfter(r0, run), e, diffs).live, p))
    {
      CompletedRootExact(digest, RunAfter(r0, run), e, diffs, scan, prefix, tree, RunDirty({}, run), p);
      if p in RunDirty({}, run) && p !in Named(diffs) {
        DirtyIsPushed(run, p);
        LiveIsLast(digest, r0, run, p);
        CompletedKept(RunAfter(r0, run), e, diffs, tree, p);
      }
    }
  }

  lemma {:induction false} CompletedKept(r: Replica, e: Push, diffs: seq<FileDiff>, tree: map<string, Local>, p: string)
    requires CompletePush(e, diffs, tree) && p !in Named(diffs)
    ensures Lookup(Completed(r, e, diffs).live, p) == Lookup(r.live, p)
  {
    UnnamedKept(r, e, diffs, tree, p);
  }

  // ---- retry ---------------------------------------------------------------------------------

  /** Retry converges: with an unchanged tree and an unrecorded first attempt, sending any prefix of a
      difference and then the recomputed difference, in whatever order it is listed this time, leaves
      the same files as sending the first one once, but for temporary files that stayed. */
  lemma {:induction false} RetryConverges(live: map<string, File>, index: map<string, Meta>,
                                          scan: map<string, FileInfo>, prefix: string, disk: LocalFiles,
                                          first: seq<FileDiff>, k: nat, left: map<string, File>, second: seq<FileDiff>,
                                          p: string)
    requires IsDiff(first, index, scan, prefix) && IsDiff(second, index, scan, prefix) && k <= |first|
    ensures var a, b := FileEdits(ChangesFor(prefix, first, disk)), FileEdits(ChangesFor(prefix, second, disk));
      Lookup(Apply(Apply(live, a[..k]) + left, b), p) ==
        if p in left && !Touches(a, p) then Some(left[p]) else Lookup(Apply(live, a), p)
  {
    hide Apply;
    var a, b := FileEdits(ChangesFor(prefix, first, disk)), FileEdits(ChangesFor(prefix, second, disk));
    forall e ensures e in a <==> e in b {
      if e in a { SameEdits(index, scan, prefix, disk, first, second, e); }
      if e in b { SameEdits(index, scan, prefix, disk, second, first, e); }
    }
    EditsOfDistinct(prefix, disk, first);
    EditsOfDistinct(prefix, disk, second);
    ApplyAfterPartial(live, a, k, b);
    SameTouches(a, b, p);
    var mid := Apply(live, a[..k]);
    if p !in left {
      ApplyPointwise(mid + left, mid, b, p);
    } else if Touches(a, p) {
      PathsTouched(b, p);
      TouchedForgets(mid + left, b, p);
      TouchedForgets(mid, b, p);
    } else {
      ApplyUntouched(mid + left, b, p);
    }
  }

  lemma {:induction false} SameTouches(a: seq<Edit<File>>, b: seq<Edit<File>>, p: string)
    requires forall e :: e in a <==> e in b
    ensures Touches(a, p) <==> Touches(b, p)
  {
    forall e ensures e in a <==> e in b {}
    if Touches(a, p) {
      var i :| 0 <= i < |a| && a[i].path == p;
      assert a[i] in b;
    }
    if Touches(b, p) {
      var i :| 0 <= i < |b| && b[i].path == p;
      assert b[i] in a;
    }
  }

  lemma {:induction false} EditsOfDistinct(prefix: string, disk: LocalFiles, ds: seq<FileDiff>)
    requires DistinctPaths(ds)
    ensures Distinct(FileEdits(ChangesFor(prefix, ds, disk)))
  {
    var es := FileEdits(ChangesFor(prefix, ds, disk));
    forall i, j | 0 <= i < j < |es| ensures es[i].path != es[j].path {
      assert es[i].path == ds[i].file.path && es[j].path == ds[j].file.path;
    }
  }

  lemma {:induction false} SameEdits(index: map<string, Meta>, scan: map<string, FileInfo>, prefix: string,
                                     disk: LocalFiles, a: seq<FileDiff>, b: seq<FileDiff>, e: Edit<File>)
    requires IsDiff(a, index, scan, prefix) && IsDiff(b, index, scan, prefix)
    requires e in FileEdits(ChangesFor(prefix, a, disk))
    ensures e in FileEdits(ChangesFor(prefix, b, disk))
  {
    var ea, eb := FileEdits(ChangesFor(prefix, a, disk)), FileEdits(ChangesFor(prefix, b, disk));
    var i :| 0 <= i < |ea| && ea[i] == e;
    assert a[i] in a;
    DiffUnique(a, b, index, scan, prefix, a[i]);
    var j :| 0 <= j < |b| && b[j] == a[i];
    assert eb[j] == e;
  }

  // ---- paths that no difference names --------------------------------------------------------

  /** A push of the difference of some scan that shows at p what `row` says. */
  ghost predicate ShowsAt(e: Push, diffs: seq<FileDiff>, index: map<string, Meta>, scan: map<string, FileInfo>,
                          prefix: string, p: string, row: Option<Meta>) {
    && IsDiff(diffs, index, scan, prefix) && e.rows == IndexEdits(diffs)
    && if InScope(p, prefix) then ScanMeta(scan, p) == row else p !in scan
  }

  ghost predicate PushShowing(digest: Digest, r: Replica, e: Push, p: string, row: Option<Meta>) {
    ValidPush(digest, e) && p !in e.left && exists diffs, scan, prefix ::
      ShowsAt(e, diffs, r.index, scan, prefix, p, row)
  }

  lemma {:induction false} ShownStep(digest: Digest, r: Replica, e: Push, p: string)
    requires PushShowing(digest, r, e, p, Lookup(r.index, p))
    ensures e.pushed <= |e.files| && e.recorded <= |e.rows|
    ensures Lookup(After(r, e).live, p) == Lookup(r.live, p) && Lookup(After(r, e).index, p) == Lookup(r.index, p)
  {
    var diffs: seq<FileDiff>, scan: map<string, FileInfo>, prefix: string
      :| ShowsAt(e, diffs, r.index, scan, prefix, p, Lookup(r.index, p));
    assert Expected(r.index, scan, prefix, p) == None;
    forall i | 0 <= i < |e.rows| ensures e.rows[i].path != p && e.files[i].path != p {
      assert Expected(r.index, scan, prefix, diffs[i].file.path) == Some(diffs[i]);
    }
    assert p !in PathsIn(e.files[..e.pushed]) && p !in PathsIn(e.rows[..e.recorded]);
    UntouchedKeeps(digest, r, e, p);
  }

  /** Every scan of the run shows p as `row` says. */
  ghost predicate RunShowing(digest: Digest, r: Replica, run: seq<Push>, p: string, row: Option<Meta>)
    requires SizedRun(run)
  {
    forall i :: 0 <= i < |run| ==> PushShowing(digest, RunAfter(r, run[..i]), run[i], p, row)
  }

  /** A path whose row is what the scans show is never named again: whatever the dataset holds there,
      it holds after any run of syncs, and whatever it lacks, it lacks. */
  lemma {:induction false} UnnamedStays(digest: Digest, r: Replica, run: seq<Push>, p: string)
    requires SizedRun(run) && RunShowing(digest, r, run, p, Lookup(r.index, p))
    ensures Lookup(RunAfter(r, run).live, p) == Lookup(r.live, p)
    ensures Lookup(RunAfter(r, run).index, p) == Lookup(r.index, p)
    decreases |run|
  {
    hide PushShowing, ValidPush, After;
    if run != [] {
      var before := run[..|run| - 1];
      assert forall i :: 0 <= i < |before| ==> before[i] == run[i];
      assert SizedRun(before);
      var row := Lookup(r.index, p);
      forall i | 0 <= i < |before| ensures PushShowing(digest, RunAfter(r, before[..i]), before[i], p, row) {
        assert run[..i] == before[..i] && run[i] == before[i];
      }
      UnnamedStays(digest, r, before, p);
      assert PushShowing(digest, RunAfter(r, run[..|run| - 1]), run[|run| - 1], p, row);
      ShownStep(digest, RunAfter(r, before), run[|run| - 1], p);
    }
  }

  /** Stored, but unknown to the agent. */
  ghost predicate Orphan(r: Replica, p: string) { p in r.live && p !in r.index }

  /** A file that was stored by an attempt which failed, and was deleted locally before the next one,
      is never removed: no difference names it, over any run of syncs of trees without it. */
  lemma {:induction false} OrphanStays(digest: Digest, r: Replica, run: seq<Push>, p: string)
    requires SizedRun(run) && Orphan(r, p) && RunShowing(digest, r, run, p, None)
    ensures Orphan(RunAfter(r, run), p) && RunAfter(r, run).live[p] == r.live[p]
  {
    hide PushShowing, RunAfter;
    UnnamedStays(digest, r, run, p);
    assert Lookup(RunAfter(r, run).live, p) == Some(r.live[p]);
  }

  /** Orphans happen: one added file, made visible by a stream that then failed. */
  lemma {:induction false} OrphanReachable(digest: Digest, p: string, l: Local, prefix: string)
    requires l.mode == Perm(l.mode)
    ensures var scan := map[p := InfoOf(digest, p, l)];
      var diffs := [FileDiff(scan[p], Add)];
      var e := Push(IndexEdits(diffs), [Edit(p, Some(StoredOf(l)))], 1, map[], false, 0);
      var r := Replica(map[], map[], map[]);
      && IsDiff(diffs, r.index, scan, prefix) && ValidPush(digest, e)
      && AgreeOutside(digest, r, {}) && Orphan(After(r, e), p)
  {
    var scan := map[p := InfoOf(digest, p, l)];
    var diffs := [FileDiff(scan[p], Add)];
    var e := Push(IndexEdits(diffs), [Edit(p, Some(StoredOf(l)))], 1, map[], false, 0);
    assert diffs[0].file.path == p;
    assert p in Named(diffs);
    assert e.files[..1] == e.files && e.rows[..0] == [];
    ApplyTouched<File>(map[], e.files, 0);
    assert Lookup(Apply<File>(map[], e.files), p) == Some(StoredOf(l));
  }

  /** Listed as stored, and not stored. */
  ghost predicate Missing(r: Replica, p: string) { p in r.index && p !in r.live }

  /** A deletion that was pushed by an attempt which failed, and was undone locally before the next one:
      the file is missing from the backup after any run of syncs of trees that have it as it was. */
  lemma {:induction false} MissingStays(digest: Digest, r: Replica, run: seq<Push>, p: string)
    requires SizedRun(run) && Missing(r, p) && RunShowing(digest, r, run, p, Some(r.index[p]))
    ensures Missing(RunAfter(r, run), p) && RunAfter(r, run).index[p] == r.index[p]
  {
    hide PushShowing, RunAfter;
    UnnamedStays(digest, r, run, p);
    assert Lookup(RunAfter(r, run).index, p) == Some(r.index[p]);
    assert Lookup(RunAfter(r, run).live, p) == None;
  }

  /** That happens too: from agreement, one deletion made visible by a stream that then failed, and the
      file put back as it was, so that its row is what every later scan shows. */
  lemma {:induction false} MissingReachable(digest: Digest, p: string, l: Local, prefix: string)
    requires l.mode == Perm(l.mode) && InScope(p, prefix)
    ensures var row, stored := MetaOf(InfoOf(digest, p, l)), StoredOf(l);
      var r := Replica(map[p := row], map[p := stored], map[p := stored]);
      var diffs := [Deletion(p)];
      var e := Push(IndexEdits(diffs), [Edit(p, None)], 1, map[], false, 0);
      && IsDiff(diffs, r.index, map[], prefix) && ValidPush(digest, e)
      && AgreeOutside(digest, r, {}) && Missing(After(r, e), p)
      && ScanMeta(map[p := InfoOf(digest, p, l)], p) == Lookup(After(r, e).index, p)
  {
    hide InScope;
    var row, stored := MetaOf(InfoOf(digest, p, l)), StoredOf(l);
    var diffs := [Deletion(p)];
    var e := Push(IndexEdits(diffs), [Edit(p, None)], 1, map[], false, 0);
    assert diffs[0].file.path == p;
    assert p in Named(diffs);
    assert e.files[..1] == e.files && e.rows[..0] == [];
    ApplyTouched<File>(map[p := stored], e.files, 0);
    assert Lookup(Apply(map[p := stored], e.files), p) == None;
  }
}
