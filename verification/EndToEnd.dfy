/** The whole way round: a tree that was synced and then restored is the tree that was scanned. */
module EndToEnd {
  import opened Model
  import opened Paths
  import opened Namespacing
  import opened FileSystem
  import opened Patches
  import opened Index
  import opened Diff
  import opened Pusher
  import opened Protocol
  import opened Glob
  import opened Scan
  import opened Sync
  import Storability
  import opened Server
  import opened BackupServer
  import opened RestoreMachine
  import opened RestoreStream
  import opened Wire

  // ---- the tree a root contributes -----------------------------------------------------------

  function LocalAt(tree: Node, rel: string): Local {
    var n := At(tree, Split(rel));
    if n.Some? && n.value.Regular? then Local(n.value.content, Perm(n.value.mode), n.value.mtime) else Local([], 0, 0)
  }

  function Names(prefix: string, files: seq<FileInfo>): set<string> {
    set i | 0 <= i < |files| :: ArchivePath(prefix, files[i].path)
  }

  function Below(prefix: string, a: string): string { if |prefix| < |a| then a[|prefix| + 1..] else "" }

  /** The scanned files of a root under their archive names. */
  function TreeOf(prefix: string, root: Root, fm: NameMatch, digest: Digest): map<string, Local> {
    map a | a in Names(prefix, Found(root, fm, digest)) :: LocalAt(root.tree, Below(prefix, a))
  }

  /** The files a scan keeps can be read for the push and still have the content they were scanned with. */
  ghost predicate Steady(root: Root, fm: NameMatch) {
    forall cs :: Collected(root.tree, [], cs, Excluding(fm, root.patterns)) ==>
      RelOf(cs) in root.later && root.later[RelOf(cs)] == At(root.tree, cs).value.content
  }

  /** A found file, its place, and its archive name. */
  ghost predicate FoundAs(prefix: string, root: Root, fm: NameMatch, digest: Digest, f: FileInfo, cs: seq<string>) {
    && cs != [] && Collected(root.tree, [], cs, Excluding(fm, root.patterns))
    && f == InfoAt(Join(cs), At(root.tree, cs).value, digest)
    && At(root.tree, cs).value.access == Fine
    && IsArchivePath(Join(cs)) && Split(Join(cs)) == cs
    && ArchivePath(prefix, f.path) == prefix + "/" + Join(cs)
    && SourcePath(prefix, prefix + "/" + Join(cs)) == Ok(Join(cs))
    && Below(prefix, prefix + "/" + Join(cs)) == Join(cs)
  }

  lemma {:induction false} PlaceNames(tree: Node, cs: seq<string>)
    requires NamedTree(tree) && At(tree, cs).Some? && cs != []
    ensures IsArchivePath(Join(cs)) && Split(Join(cs)) == cs && Clean(Join(cs)) == Join(cs) && ValidRelative(Join(cs))
  {
    AtDownward(tree, cs);
    ArchiveFromComponents(cs);
    SplitJoin(cs);
  }

  lemma {:induction false} ArchiveName(prefix: string, rel: string)
    requires IsArchivePath(prefix) && ValidRelative(rel) && Clean(rel) == rel
    ensures ArchivePath(prefix, rel) == prefix + "/" + rel && IsArchivePath(prefix + "/" + rel)
    ensures PathInRoot(prefix + "/" + rel, prefix) && SourcePath(prefix, prefix + "/" + rel) == Ok(rel)
    ensures Below(prefix, prefix + "/" + rel) == rel
  {
    hide Components, IsArchivePath, Clean, PathInRoot, JoinPath;
    ArchivePathComponents(prefix, rel);
    var a := prefix + "/" + rel;
    assert a[|prefix| + 1..] == rel;
    PathInRootIff(a, prefix);
    NamespaceOnto(prefix, a);
    var back := SourcePath(prefix, a).value;
    ArchivePathComponents(prefix, back);
    assert prefix + "/" + back == a;
    assert a[|prefix| + 1..] == back;
  }

  lemma {:induction false} FoundIs(index: map<string, Meta>, cwd: string, root: Root, fm: NameMatch, digest: Digest,
                                   plan: RootDiffs, f: FileInfo) returns (cs: seq<string>)
    requires IsAbs(cwd) && NamedTree(root.tree) && Planned(index, cwd, root, fm, digest, plan)
    requires f in Found(root, fm, digest)
    ensures FoundAs(plan.rootPrefix, root, fm, digest, f, cs)
  {
    hide IsDiff, ArchiveRootPrefix, IsArchivePath, Components, ArchivePath, SourcePath, Below, Files, Errors,
         ScanOfRoot, NamedTree, Clear;
    var excl := Excluding(fm, root.patterns);
    cs := CollectedOnly(root.tree, [], excl, digest, f);
    assert [] + cs == cs;
    NotRoot(f.path);
    PlaceNames(root.tree, cs);
    ErrorFreeIff(root.tree, excl);
    RootPrefixIsArchivePath(cwd, root.path);
    ArchiveName(plan.rootPrefix, Join(cs));
  }

  lemma {:induction false} NotRoot(p: string)
    requires ValidRelative(p)
    ensures p != "."
  {
    SplitNoSep(".");
    assert Normalize(false, [], ["."]) == Normalize(false, [], ["."][1..]);
  }

  /** The place of a kept file is found, under its archive name. */
  lemma {:induction false} PlaceFound(index: map<string, Meta>, cwd: string, root: Root, fm: NameMatch, digest: Digest,
                                      plan: RootDiffs, cs: seq<string>)
    requires IsAbs(cwd) && NamedTree(root.tree) && Planned(index, cwd, root, fm, digest, plan)
    requires Collected(root.tree, [], cs, Excluding(fm, root.patterns))
    ensures cs != []
    ensures FoundAs(plan.rootPrefix, root, fm, digest, InfoAt(Join(cs), At(root.tree, cs).value, digest), cs)
    ensures InfoAt(Join(cs), At(root.tree, cs).value, digest) in Found(root, fm, digest)
  {
    hide IsDiff, ArchiveRootPrefix, IsArchivePath, Components, ArchivePath, SourcePath, Below, Files, Errors,
         ScanOfRoot, NamedTree, Clear;
    var excl := Excluding(fm, root.patterns);
    AllCollected(root.tree, [], cs, excl, digest);
    assert [] + cs == cs;
    var f := InfoAt(RelOf(cs), At(root.tree, cs).value, digest);
    NotRoot(f.path);
    var other := FoundIs(index, cwd, root, fm, digest, plan, f);
    PlaceNames(root.tree, cs);
    assert Join(cs) == Join(other);
  }

  /** What the archive tree holds at a name: the file at its place, and nothing at any other name. */
  lemma {:induction false} TreeHolds(index: map<string, Meta>, cwd: string, root: Root, fm: NameMatch, digest: Digest,
                                     plan: RootDiffs, cs: seq<string>)
    requires IsAbs(cwd) && NamedTree(root.tree) && Planned(index, cwd, root, fm, digest, plan)
    requires Collected(root.tree, [], cs, Excluding(fm, root.patterns))
    ensures var a := plan.rootPrefix + "/" + Join(cs);
      var node := At(root.tree, cs).value;
      var tree := TreeOf(plan.rootPrefix, root, fm, digest);
      a in tree && tree[a] == Local(node.content, Perm(node.mode), node.mtime)
  {
    PlaceFound(index, cwd, root, fm, digest, plan, cs);
    hide Planned, NamedTree, Collected, IsArchivePath, ArchivePath, SourcePath, Below, Found;
    var f := InfoAt(Join(cs), At(root.tree, cs).value, digest);
    var files := Found(root, fm, digest);
    var i :| 0 <= i < |files| && files[i] == f;
    assert ArchivePath(plan.rootPrefix, files[i].path) in Names(plan.rootPrefix, files);
  }

  lemma {:induction false} TreeHeld(index: map<string, Meta>, cwd: string, root: Root, fm: NameMatch, digest: Digest,
                                    plan: RootDiffs, a: string) returns (cs: seq<string>)
    requires IsAbs(cwd) && NamedTree(root.tree) && Planned(index, cwd, root, fm, digest, plan)
    requires a in TreeOf(plan.rootPrefix, root, fm, digest)
    ensures cs != [] && Collected(root.tree, [], cs, Excluding(fm, root.patterns))
    ensures a == plan.rootPrefix + "/" + Join(cs)
  {
    hide Planned, NamedTree, Collected, IsArchivePath, ArchivePath, SourcePath, Below, Found;
    var files := Found(root, fm, digest);
    var i :| 0 <= i < |files| && ArchivePath(plan.rootPrefix, files[i].path) == a;
    cs := FoundIs(index, cwd, root, fm, digest, plan, files[i]);
  }

  // ---- the scan describes the tree -----------------------------------------------------------

  lemma {:induction false} PermIdem(mode: Mode)
    ensures Perm(Perm(mode)) == Perm(mode)
  {}

  /** One scanned entry under its archive name is the description of the tree's file there. */
  lemma {:induction false} EntryDescribes(index: map<string, Meta>, cwd: string, root: Root, fm: NameMatch,
                                          digest: Digest, plan: RootDiffs, a: string)
    requires IsAbs(cwd) && NamedTree(root.tree) && Planned(index, cwd, root, fm, digest, plan)
    requires a in ScanOfRoot(plan.rootPrefix, root, fm, digest)
    ensures var tree := TreeOf(plan.rootPrefix, root, fm, digest);
      a in tree && ScanOfRoot(plan.rootPrefix, root, fm, digest)[a] == InfoOf(digest, a, tree[a]) &&
        tree[a].mode == Perm(tree[a].mode)
  {
    var files := Found(root, fm, digest);
    var named := Archived(plan.rootPrefix, files);
    ScanMapKeys(named);
    hide Planned, NamedTree, IsArchivePath, ArchivePath, SourcePath, Below, Found, ScanMap, TreeOf;
    var i :| 0 <= i < |named| && named[i] == ScanMap(named)[a];
    var cs := FoundIs(index, cwd, root, fm, digest, plan, files[i]);
    TreeHolds(index, cwd, root, fm, digest, plan, cs);
    PermIdem(At(root.tree, cs).value.mode);
  }

  lemma {:induction false} ScanDescribesTree(index: map<string, Meta>, cwd: string, root: Root, fm: NameMatch,
                                             digest: Digest, plan: RootDiffs)
    requires IsAbs(cwd) && NamedTree(root.tree) && Planned(index, cwd, root, fm, digest, plan)
    ensures ScanOf(digest, ScanOfRoot(plan.rootPrefix, root, fm, digest), TreeOf(plan.rootPrefix, root, fm, digest))
  {
    var scan, tree := ScanOfRoot(plan.rootPrefix, root, fm, digest), TreeOf(plan.rootPrefix, root, fm, digest);
    var files := Found(root, fm, digest);
    var named := Archived(plan.rootPrefix, files);
    ScanMapKeys(named);
    hide Planned, NamedTree, IsArchivePath, ArchivePath, Below, Found, ScanMap;
    forall a | a in tree ensures a in scan {
      var i :| 0 <= i < |files| && ArchivePath(plan.rootPrefix, files[i].path) == a;
      assert named[i].path == a;
    }
    forall a | a in scan
      ensures a in tree && scan[a] == InfoOf(digest, a, tree[a]) && tree[a].mode == Perm(tree[a].mode)
    {
      EntryDescribes(index, cwd, root, fm, digest, plan, a);
    }
    assert scan.Keys == tree.Keys;
  }

  lemma {:induction false} SteadyIsFrozen(index: map<string, Meta>, cwd: string, root: Root, fm: NameMatch,
                                          digest: Digest, plan: RootDiffs)
    requires IsAbs(cwd) && NamedTree(root.tree) && Planned(index, cwd, root, fm, digest, plan) && Steady(root, fm)
    ensures Frozen(plan.rootPrefix, TreeOf(plan.rootPrefix, root, fm, digest), plan.disk)
  {
    hide NamedTree, IsArchivePath, ArchivePath, Below, Found, TreeOf, SourcePath, IsDiff, Errors, Collected;
    var tree := TreeOf(plan.rootPrefix, root, fm, digest);
    forall a | a in tree
      ensures SourcePath(plan.rootPrefix, a).Ok? && SourcePath(plan.rootPrefix, a).value in plan.disk
      ensures plan.disk[SourcePath(plan.rootPrefix, a).value] == tree[a].content
    {
      var cs := TreeHeld(index, cwd, root, fm, digest, plan, a);
      TreeHolds(index, cwd, root, fm, digest, plan, cs);
      PlaceFound(index, cwd, root, fm, digest, plan, cs);
    }
  }

  /** A regular file that the patterns leave in, whether or not it could be read. */
  ghost predicate Stands(root: Root, fm: NameMatch, cs: seq<string>) {
    At(root.tree, cs).Some? && At(root.tree, cs).value.Regular? && Clear([], cs, Excluding(fm, root.patterns))
  }

  /** A planned deletion is of a file that is gone: a named path is to be deleted exactly if no regular file
      that the patterns leave in stands there, whether or not the scan could read it. */
  lemma {:induction false} DeletesOnlyGone(index: map<string, Meta>, cwd: string, root: Root, fm: NameMatch,
                                           digest: Digest, plan: RootDiffs, d: FileDiff)
    requires IsAbs(cwd) && NamedTree(root.tree) && Planned(index, cwd, root, fm, digest, plan) && d in plan.diffs
    ensures d.action == Delete <==>
      !exists cs :: Stands(root, fm, cs) && d.file.path == plan.rootPrefix + "/" + Join(cs)
  {
    hide NamedTree, Clear, IsArchivePath, ArchivePath, SourcePath, Below, Files, Errors, TreeOf;
    ErrorFreeIff(root.tree, Excluding(fm, root.patterns));
    ScanDescribesTree(index, cwd, root, fm, digest, plan);
    var scan := ScanOfRoot(plan.rootPrefix, root, fm, digest);
    assert Expected(index, scan, plan.rootPrefix, d.file.path) == Some(d);
    if cs :| Stands(root, fm, cs) && d.file.path == plan.rootPrefix + "/" + Join(cs) {
      TreeHolds(index, cwd, root, fm, digest, plan, cs);
    }
    if d.file.path in scan {
      var cs := TreeHeld(index, cwd, root, fm, digest, plan, d.file.path);
      assert Stands(root, fm, cs);
    }
  }

  // ---- a run of the attempt, path by path ----------------------------------------------------

  ghost predicate AllSteady(roots: seq<Root>, fm: NameMatch) {
    forall i :: 0 <= i < |roots| ==> NamedTree(roots[i].tree) && Steady(roots[i], fm)
  }

  /** What the theorems assume of the roots of one attempt: their trees are trees, files do not change
      between scan and push, and no root lies inside another. */
  ghost predicate Hypotheses(roots: seq<Root>, fm: NameMatch, plans: seq<RootDiffs>) {
    && |plans| == |roots|
    && AllSteady(roots, fm)
    && (forall i, j :: 0 <= i < j < |plans| ==> Unrelated(plans[i].rootPrefix, plans[j].rootPrefix))
  }

  /** A carried push of a steady root satisfies the order and pairing that agreement needs. */
  lemma {:induction false} CarriedIsValid(index: map<string, Meta>, cwd: string, root: Root, fm: NameMatch,
                                          digest: Digest, plan: RootDiffs, e: Push)
    requires IsAbs(cwd) && NamedTree(root.tree) && Planned(index, cwd, root, fm, digest, plan) && Steady(root, fm)
    requires Carries(e, plan)
    ensures ValidPush(digest, e)
    ensures CarriedThrough(e) ==> CompletePush(e, plan.diffs, TreeOf(plan.rootPrefix, root, fm, digest))
  {
    hide NamedTree, Found, TreeOf, Errors, Steady, Frozen, ScanOfRoot, ChangeFor;
    var tree, scan := TreeOf(plan.rootPrefix, root, fm, digest), ScanOfRoot(plan.rootPrefix, root, fm, digest);
    ScanDescribesTree(index, cwd, root, fm, digest, plan);
    SteadyIsFrozen(index, cwd, root, fm, digest, plan);
    DiffStoresTree(digest, plan.diffs, index, scan, plan.rootPrefix, tree);
    FrozenPaired(digest, plan.diffs, plan.rootPrefix, tree, plan.disk);
    EditsDistinct(plan.diffs);
    EditsOfDistinct(plan.rootPrefix, plan.disk, plan.diffs);
  }

  /** Agreement through an attempt that may stop anywhere. */
  lemma {:induction false} AttemptAgrees(index: map<string, Meta>, cwd: string, roots: seq<Root>, fm: NameMatch,
                                         digest: Digest, plans: seq<RootDiffs>, run: seq<Push>, done: bool, r: Replica,
                                         dirty: set<string>)
    requires IsAbs(cwd) && AllPlanned(index, cwd, roots, fm, digest, plans) && AllSteady(roots, fm)
    requires Ran(run, NonEmpty(plans), done) && SizedRun(run) && AgreeOutside(digest, r, dirty)
    ensures ValidRun(digest, run)
    ensures AgreeOutside(digest, RunAfter(r, run), RunDirty(dirty, run))
  {
    hide Planned, NamedTree, Steady, Carries, CarriedThrough, ValidPush, NonEmpty, AgreeOutside, RunAfter, RunDirty,
         Unrelated;
    forall j | 0 <= j < |run| ensures ValidPush(digest, run[j]) {
      var i := NonEmptyFrom(plans, j);
      CarriedIsValid(index, cwd, roots[i], fm, digest, plans[i], run[j]);
    }
    RunAgrees(digest, r, run, dirty);
  }

  /** Table, dataset and newest snapshot all say at p what the scan and the tree say. */
  ghost predicate Settled(r: Replica, scan: map<string, FileInfo>, tree: map<string, Local>, p: string) {
    && Lookup(r.index, p) == ScanMeta(scan, p)
    && Lookup(r.live, p) == TreeAt(tree, p)
    && Lookup(r.snap, p) == TreeAt(tree, p)
  }

  /** p is as it was in r0, except that the snapshot may have caught up with the dataset. */
  ghost predicate Undisturbed(r0: Replica, r: Replica, p: string) {
    && Lookup(r.index, p) == Lookup(r0.index, p)
    && Lookup(r.live, p) == Lookup(r0.live, p)
    && (Lookup(r.snap, p) == Lookup(r0.snap, p) || Lookup(r.snap, p) == Lookup(r0.live, p))
  }

  lemma {:induction false} PushSettles(digest: Digest, r: Replica, e: Push, diffs: seq<FileDiff>,
                                       index: map<string, Meta>, scan: map<string, FileInfo>, prefix: string,
                                       tree: map<string, Local>, p: string)
    requires IsDiff(diffs, index, scan, prefix) && ScanOf(digest, scan, tree) && CompletePush(e, diffs, tree)
    requires p in Named(diffs)
    ensures Settled(After(r, e), scan, tree, p)
  {
    NamedPathExact(digest, r, e, diffs, index, scan, prefix, tree, p);
    EditsDistinct(diffs);
    var i :| 0 <= i < |diffs| && diffs[i].file.path == p;
    assert e.rows[..e.recorded] == e.rows;
    ApplyTouched(r.index, e.rows, i);
    assert Expected(index, scan, prefix, p) == Some(diffs[i]);
    assert e.rows[i] == IndexEdit(diffs[i]);
  }

  lemma {:induction false} PushPasses(r: Replica, e: Push, diffs: seq<FileDiff>, tree: map<string, Local>, p: string)
    requires CompletePush(e, diffs, tree) && p !in Named(diffs)
    ensures Lookup(After(r, e).index, p) == Lookup(r.index, p)
    ensures Lookup(After(r, e).live, p) == Lookup(r.live, p)
    ensures After(r, e).snap == After(r, e).live
  {
    UnnamedKept(r, e, diffs, tree, p);
    NamedIffTouched(diffs, p);
    assert e.rows[..e.recorded] == e.rows;
    ApplyUntouched(r.index, e.rows, p);
  }

  /** A difference names only paths below its own root. */
  lemma {:induction false} NamedInScope(index: map<string, Meta>, cwd: string, root: Root, fm: NameMatch,
                                        digest: Digest, plan: RootDiffs, p: string)
    requires IsAbs(cwd) && Planned(index, cwd, root, fm, digest, plan) && p in Named(plan.diffs)
    ensures PathInRoot(p, plan.rootPrefix) && IsArchivePath(plan.rootPrefix)
  {
    ScanKeys(index, cwd, root, fm, digest, plan);
    hide Found, Errors, ScanOfRoot, PathInRoot, IsArchivePath;
    ArchiveNotEmpty(plan.rootPrefix);
    var scan := ScanOfRoot(plan.rootPrefix, root, fm, digest);
    var i :| 0 <= i < |plan.diffs| && plan.diffs[i].file.path == p;
    assert Expected(index, scan, plan.rootPrefix, p) == Some(plan.diffs[i]);
  }

  /** With unrelated roots a path below root i is named by no batch but that of root i. */
  lemma {:induction false} OnlyOwnRoot(index: map<string, Meta>, cwd: string, roots: seq<Root>, fm: NameMatch,
                                       digest: Digest, plans: seq<RootDiffs>, i: nat, j: nat, p: string)
    requires IsAbs(cwd) && AllPlanned(index, cwd, roots, fm, digest, plans) && Hypotheses(roots, fm, plans)
    requires i < |plans|
    requires PathInRoot(p, plans[i].rootPrefix) && j < |NonEmpty(plans)| && p in Named(NonEmpty(plans)[j].diffs)
    ensures NonEmpty(plans)[j] == plans[i]
  {
    hide Planned, NamedTree, Steady, NonEmpty, PathInRoot, IsArchivePath;
    var t := NonEmptyFrom(plans, j);
    NamedInScope(index, cwd, roots[t], fm, digest, plans[t], p);
    PlanPrefix(index, cwd, roots[i], fm, digest, plans[i]);
    if t < i { UnrelatedRootsDisjoint(plans[t].rootPrefix, plans[i].rootPrefix, p); }
    if i < t { UnrelatedRootsDisjoint(plans[i].rootPrefix, plans[t].rootPrefix, p); }
  }

  lemma {:induction false} PlanPrefix(index: map<string, Meta>, cwd: string, root: Root, fm: NameMatch, digest: Digest,
                                      plan: RootDiffs)
    requires IsAbs(cwd) && Planned(index, cwd, root, fm, digest, plan)
    ensures IsArchivePath(plan.rootPrefix)
  {
    RootPrefixIsArchivePath(cwd, root.path);
  }

  ghost predicate NamedBefore(batches: seq<RootDiffs>, n: nat, p: string)
    requires n <= |batches|
  {
    exists j :: 0 <= j < n && p in Named(batches[j].diffs)
  }

  /** One completed push of the run, seen at p. */
  lemma {:induction false} StepAtPath(index: map<string, Meta>, cwd: string, roots: seq<Root>, fm: NameMatch,
                                      digest: Digest, plans: seq<RootDiffs>, i: nat, j: nat, p: string, r: Replica,
                                      e: Push)
    requires IsAbs(cwd) && AllPlanned(index, cwd, roots, fm, digest, plans) && Hypotheses(roots, fm, plans)
    requires i < |plans|
    requires PathInRoot(p, plans[i].rootPrefix) && j < |NonEmpty(plans)|
    requires Carries(e, NonEmpty(plans)[j]) && CarriedThrough(e)
    ensures var scan := ScanOfRoot(plans[i].rootPrefix, roots[i], fm, digest);
      var tree := TreeOf(plans[i].rootPrefix, roots[i], fm, digest);
      if p in Named(NonEmpty(plans)[j].diffs) then Settled(After(r, e), scan, tree, p)
      else
        && Lookup(After(r, e).index, p) == Lookup(r.index, p)
        && Lookup(After(r, e).live, p) == Lookup(r.live, p)
        && After(r, e).snap == After(r, e).live
  {
    hide NamedTree, Steady, NonEmpty, PathInRoot, Named, Settled, Carries, Errors, ScanOfRoot, TreeOf, Found, ValidPush,
         IsDiff, After, CompletePush;
    var batch := NonEmpty(plans)[j];
    var t := NonEmptyFrom(plans, j);
    CarriedIsValid(index, cwd, roots[t], fm, digest, plans[t], e);
    if p in Named(batch.diffs) {
      OnlyOwnRoot(index, cwd, roots, fm, digest, plans, i, j, p);
      CarriedIsValid(index, cwd, roots[i], fm, digest, plans[i], e);
      var scan := ScanOfRoot(plans[i].rootPrefix, roots[i], fm, digest);
      var tree := TreeOf(plans[i].rootPrefix, roots[i], fm, digest);
      ScanDescribesTree(index, cwd, roots[i], fm, digest, plans[i]);
      PushSettles(digest, r, e, plans[i].diffs, index, scan, plans[i].rootPrefix, tree, p);
    } else {
      PushPasses(r, e, plans[t].diffs, TreeOf(plans[t].rootPrefix, roots[t], fm, digest), p);
    }
  }

  lemma {:induction false} RunStep(r: Replica, run: seq<Push>, n: nat)
    requires SizedRun(run) && n < |run|
    ensures SizedRun(run[..n]) && SizedRun(run[..n + 1])
    ensures RunAfter(r, run[..n + 1]) == After(RunAfter(r, run[..n]), run[n])
  {
    assert run[..n + 1][..n] == run[..n];
  }

  lemma {:induction false} RunAtPath(index: map<string, Meta>, cwd: string, roots: seq<Root>, fm: NameMatch,
                                     digest: Digest, plans: seq<RootDiffs>, i: nat, p: string, r: Replica,
                                     run: seq<Push>, n: nat)
    requires IsAbs(cwd) && AllPlanned(index, cwd, roots, fm, digest, plans) && Hypotheses(roots, fm, plans)
    requires i < |plans|
    requires PathInRoot(p, plans[i].rootPrefix)
    requires Ran(run, NonEmpty(plans), true) && SizedRun(run) && n <= |run| && SizedRun(run[..n])
    requires |run| == |NonEmpty(plans)|
    ensures var scan := ScanOfRoot(plans[i].rootPrefix, roots[i], fm, digest);
      var tree := TreeOf(plans[i].rootPrefix, roots[i], fm, digest);
      if NamedBefore(NonEmpty(plans), n, p) then Settled(RunAfter(r, run[..n]), scan, tree, p)
      else Undisturbed(r, RunAfter(r, run[..n]), p)
    decreases n
  {
    hide AllPlanned, Hypotheses, NonEmpty, PathInRoot, Named, ScanOfRoot, TreeOf, After, Carries, CarriedThrough;
    if n == 0 {
      assert run[..0] == [];
    } else {
      RunStep(r, run, n - 1);
      RunAtPath(index, cwd, roots, fm, digest, plans, i, p, r, run, n - 1);
      StepAtPath(index, cwd, roots, fm, digest, plans, i, n - 1, p, RunAfter(r, run[..n - 1]), run[n - 1]);
    }
  }

  /** A successful attempt: below every root the table is the scan of that root; and wherever table,
      dataset and snapshot agreed before or the difference names the path, dataset and newest snapshot
      hold exactly the root's tree. */
  lemma {:induction false} SyncSettles(index: map<string, Meta>, cwd: string, roots: seq<Root>, fm: NameMatch,
                                       digest: Digest, plans: seq<RootDiffs>, i: nat, p: string, r: Replica,
                                       run: seq<Push>, dirty: set<string>)
    requires Injective(digest) && IsAbs(cwd) && r.index == index && AgreeOutside(digest, r, dirty)
    requires AllPlanned(index, cwd, roots, fm, digest, plans) && Hypotheses(roots, fm, plans)
    requires Ran(run, NonEmpty(plans), true) && SizedRun(run)
    requires i < |plans| && PathInRoot(p, plans[i].rootPrefix)
    ensures var scan := ScanOfRoot(plans[i].rootPrefix, roots[i], fm, digest);
      var tree := TreeOf(plans[i].rootPrefix, roots[i], fm, digest);
      && Lookup(RunAfter(r, run).index, p) == ScanMeta(scan, p)
      && (p !in dirty || p in Named(plans[i].diffs) ==> Settled(RunAfter(r, run), scan, tree, p))
  {
    hide Hypotheses, NonEmpty, PathInRoot, Named, ScanOfRoot, TreeOf, RunAfter, NamedTree, Steady, Errors, Found,
         Carries, CarriedThrough, AgreeAt;
    var scan := ScanOfRoot(plans[i].rootPrefix, roots[i], fm, digest);
    var tree := TreeOf(plans[i].rootPrefix, roots[i], fm, digest);
    assert run[..|run|] == run;
    RunAtPath(index, cwd, roots, fm, digest, plans, i, p, r, run, |run|);
    if NamedBefore(NonEmpty(plans), |run|, p) {
      assert Settled(RunAfter(r, run), scan, tree, p);
    } else {
      NotNamed(plans, i, p);
      HypothesesAt(roots, fm, plans, i);
      ScanDescribesTree(index, cwd, roots[i], fm, digest, plans[i]);
      UnnamedSettled(digest, r, plans[i].diffs, scan, plans[i].rootPrefix, tree, p);
      UndisturbedSettled(r, RunAfter(r, run), scan, tree, p);
    }
  }

  lemma {:induction false} HypothesesAt(roots: seq<Root>, fm: NameMatch, plans: seq<RootDiffs>, i: nat)
    requires Hypotheses(roots, fm, plans) && i < |plans|
    ensures NamedTree(roots[i].tree)
  {}

  lemma {:induction false} NotNamed(plans: seq<RootDiffs>, i: nat, p: string)
    requires i < |plans| && !NamedBefore(NonEmpty(plans), |NonEmpty(plans)|, p)
    ensures p !in Named(plans[i].diffs)
  {
    if p in Named(plans[i].diffs) {
      var j := NonEmptyAt(plans, i);
    }
  }

  lemma {:induction false} UnnamedSettled(digest: Digest, r: Replica, diffs: seq<FileDiff>, scan: map<string, FileInfo>,
                                          prefix: string, tree: map<string, Local>, p: string)
    requires Injective(digest) && IsDiff(diffs, r.index, scan, prefix) && ScanOf(digest, scan, tree)
    requires PathInRoot(p, prefix) && p !in Named(diffs)
    ensures Lookup(r.index, p) == ScanMeta(scan, p)
    ensures AgreeAt(digest, r, p) ==> Settled(r, scan, tree, p)
  {
    hide PathInRoot;
    assert Expected(r.index, scan, prefix, p) == None;
    if AgreeAt(digest, r, p) { UnnamedPathExact(digest, r, diffs, scan, prefix, tree, p); }
  }

  lemma {:induction false} UndisturbedSettled(r0: Replica, r: Replica, scan: map<string, FileInfo>,
                                              tree: map<string, Local>, p: string)
    requires Undisturbed(r0, r, p) && Lookup(r0.index, p) == ScanMeta(scan, p)
    ensures Lookup(r.index, p) == ScanMeta(scan, p)
    ensures Settled(r0, scan, tree, p) ==> Settled(r, scan, tree, p)
  {}

  // ---- when a first attempt can succeed ------------------------------------------------------

  /** What is above a node is a directory. */
  lemma {:induction false} AboveIsDir(node: Node, cs: seq<string>, ds: seq<string>)
    requires cs < ds && At(node, ds).Some?
    ensures At(node, cs).Some? && At(node, cs).value.Dir?
    decreases |cs|
  {
    if cs != [] {
      assert cs[0] == ds[0] && cs[1..] < ds[1..];
      AboveIsDir(Find(node, |node.entries|, cs[0]).value, cs[1..], ds[1..]);
    }
  }

  /** The kept files of a root are the files of one tree: no name is inside another. */
  lemma {:induction false} KeptPrefixFree(index: map<string, Meta>, cwd: string, root: Root, fm: NameMatch,
                                          digest: Digest, plan: RootDiffs, p: string, q: string)
    requires IsAbs(cwd) && NamedTree(root.tree) && Planned(index, cwd, root, fm, digest, plan)
    requires p in TreeOf(plan.rootPrefix, root, fm, digest) && q in TreeOf(plan.rootPrefix, root, fm, digest)
    ensures !Ancestor(p, q)
  {
    hide Planned, NamedTree, TreeOf, Found, PathInRoot, IsArchivePath;
    var cs := TreeHeld(index, cwd, root, fm, digest, plan, p);
    var ds := TreeHeld(index, cwd, root, fm, digest, plan, q);
    PlaceComponents(index, cwd, root, fm, digest, plan, cs);
    PlaceComponents(index, cwd, root, fm, digest, plan, ds);
    PathInRootIff(q, p);
    if Ancestor(p, q) {
      assert q[..|p| + 1] == p + "/";
      var base := Components(plan.rootPrefix);
      assert base + cs < base + ds;
      assert (base + cs)[|base|..] == cs && (base + ds)[|base|..] == ds;
      AboveIsDir(root.tree, cs, ds);
    }
  }

  lemma {:induction false} PlaceComponents(index: map<string, Meta>, cwd: string, root: Root, fm: NameMatch,
                                           digest: Digest, plan: RootDiffs, cs: seq<string>)
    requires IsAbs(cwd) && NamedTree(root.tree) && Planned(index, cwd, root, fm, digest, plan)
    requires cs != [] && Collected(root.tree, [], cs, Excluding(fm, root.patterns))
    ensures IsArchivePath(plan.rootPrefix + "/" + Join(cs))
    ensures Components(plan.rootPrefix + "/" + Join(cs)) == Components(plan.rootPrefix) + cs
  {
    hide Components, IsArchivePath, Clean, JoinPath;
    PlanPrefix(index, cwd, root, fm, digest, plan);
    AtDownward(root.tree, cs);
    ArchiveFromComponents(cs);
    PlaceNames(root.tree, cs);
    ArchivePathComponents(plan.rootPrefix, Join(cs));
  }

  lemma {:induction false} ScanIsTree(index: map<string, Meta>, cwd: string, root: Root, fm: NameMatch, digest: Digest,
                                      plan: RootDiffs)
    requires IsAbs(cwd) && NamedTree(root.tree) && Planned(index, cwd, root, fm, digest, plan)
    ensures Storability.TreeScan(ScanOfRoot(plan.rootPrefix, root, fm, digest), plan.rootPrefix)
  {
    hide Planned, NamedTree, TreeOf, ScanOfRoot, InScope;
    var scan := ScanOfRoot(plan.rootPrefix, root, fm, digest);
    ScanKeys(index, cwd, root, fm, digest, plan);
    ScanDescribesTree(index, cwd, root, fm, digest, plan);
    forall p, q | p in scan.Keys && q in scan.Keys ensures !Ancestor(p, q) {
      assert p in TreeOf(plan.rootPrefix, root, fm, digest).Keys && q in TreeOf(plan.rootPrefix, root, fm, digest).Keys;
      KeptPrefixFree(index, cwd, root, fm, digest, plan, p, q);
    }
  }

  /** When a first attempt at a root succeeds, short of something failing on the way: the identity is
      valid, every file can still be read, no new path is a directory of the dataset, and no file that
      the difference leaves alone stands where a new path needs a directory. */
  lemma {:induction false} FirstAttemptIff(index: map<string, Meta>, cwd: string, root: Root, fm: NameMatch,
                                           digest: Digest, plan: RootDiffs, fs: FS, cfg: PushConfig)
    requires IsAbs(cwd) && NamedTree(root.tree) && Planned(index, cwd, root, fm, digest, plan)
    requires WellFormed(fs) && index.Keys <= fs.files.Keys && cfg.prefix == plan.rootPrefix
    ensures CanPush(fs, cfg, plan.diffs, plan.disk) <==>
      && ValidPushConfig(cfg) && ValidUsername(cfg.username) && AllReadable(cfg.prefix, plan.diffs, plan.disk)
      && var scan := ScanOfRoot(plan.rootPrefix, root, fm, digest);
         forall p :: Storability.New(index, scan, p) ==>
           p !in fs.dirs && forall a :: Ancestor(a, p) && a in fs.files ==>
             Storability.Dropped(index, scan, plan.rootPrefix, a)
  {
    ScanIsTree(index, cwd, root, fm, digest, plan);
    hide NamedTree, ScanOfRoot, ApplyAll, AllReadable, ValidUsername, WellFormed, Errors, Found, IsDiff;
    var scan := ScanOfRoot(plan.rootPrefix, root, fm, digest);
    Storability.FirstPushIff(fs, plan.diffs, index, scan, plan.rootPrefix, plan.disk);
  }

  /** When a retry at a root succeeds, after any number of attempts, each stopped anywhere before anything of
      it was recorded, the first of which could have succeeded: exactly if none of them left anything below
      a path that is gone from the root, or a temporary file where a new path needs a directory. */
  lemma {:induction false} RetryAttemptIff(index: map<string, Meta>, cwd: string, root: Root, fm: NameMatch,
                                           digest: Digest, plan: RootDiffs, fs: FS, retries: seq<Storability.Retry>,
                                           cfg: PushConfig)
    requires IsAbs(cwd) && NamedTree(root.tree) && WellFormed(fs) && index.Keys <= fs.files.Keys
    requires Planned(index, cwd, root, fm, digest, plan) && cfg.prefix == plan.rootPrefix
    requires CanPush(fs, cfg, plan.diffs, plan.disk)
    requires Storability.Retried(fs, retries, index, ScanOfRoot(plan.rootPrefix, root, fm, digest), cfg.prefix,
                                 plan.disk)
    ensures var scan := ScanOfRoot(plan.rootPrefix, root, fm, digest);
      CanPush(Storability.AfterRetries(fs, retries), cfg, plan.diffs, plan.disk) <==>
        forall i :: 0 <= i < |retries| ==>
          Storability.LeftClear(fs, retries, i, index, scan, cfg.prefix, plan.disk)
  {
    ScanIsTree(index, cwd, root, fm, digest, plan);
    hide NamedTree, ScanOfRoot, ApplyAll, AllReadable, ValidUsername, ValidPushConfig, WellFormed, Errors, Found,
         IsDiff, Storability.LeftClear, Storability.TreeScan, Storability.Retried, Storability.AfterRetries;
    var scan := ScanOfRoot(plan.rootPrefix, root, fm, digest);
    Storability.RetriesPushIff(fs, retries, plan.diffs, index, scan, cfg.prefix, plan.disk);
  }

  // ---- and back ------------------------------------------------------------------------------

  /** The restored files below a root's prefix are exactly the files its scan kept: the same relative
      paths, the same bytes, and the permission bits of the scanned mode as a restore can set them, which is
      the mode itself if it has no other bits. Nothing else is there but, possibly, files named in `litter`. */
  ghost predicate RestoredExactly(root: Root, fm: NameMatch, prefix: string, umask: Creation,
                                  restored: map<string, File>, litter: set<string>) {
    && (forall cs :: Collected(root.tree, [], cs, Excluding(fm, root.patterns)) ==>
          RestoredAt(root, prefix, umask, restored, cs))
    && (forall a :: a in restored && PathInRoot(a, prefix) && a !in litter ==>
          exists cs :: Collected(root.tree, [], cs, Excluding(fm, root.patterns)) && a == prefix + "/" + Join(cs))
  }

  ghost predicate RestoredAt(root: Root, prefix: string, umask: Creation, restored: map<string, File>, cs: seq<string>)
    requires At(root.tree, cs).Some? && At(root.tree, cs).value.Regular?
  {
    var node, a := At(root.tree, cs).value, prefix + "/" + Join(cs);
    && a in restored && restored[a].content == node.content
    && (forall m :: Permissions(m, node.mode) ==> restored[a].mode == ModeAfter(umask, m, |node.content|))
    && (node.mode < 512 ==> restored[a].mode == ModeAfter(umask, node.mode, |node.content|))
  }

  /** The mode a file of n bytes comes back with: a file that is sent in chunks gets it by chmod, one that is
      created in one piece through the creation mask. */
  function ModeAfter(umask: Creation, mode: Mode, n: nat): Mode {
    if n <= RESTORE_CHUNK_BYTES then umask(mode) else mode
  }

  lemma {:induction false} RestoredIs(umask: Creation, content: Bytes, mode: Mode, f: File)
    requires f == RestoredFile(umask, File(content, Perm(mode)), RESTORE_CHUNK_BYTES)
    ensures f.content == content
    ensures forall m :: Permissions(m, mode) ==> f.mode == ModeAfter(umask, m, |content|)
    ensures mode < 512 ==> f.mode == ModeAfter(umask, mode, |content|)
  {
    hide Permissions;
    forall m | Permissions(m, mode) ensures f.mode == ModeAfter(umask, m, |content|) {
      PermIff(mode, m);
      PermIdem(mode);
    }
    PermIff(mode, mode);
  }

  /** What a restore of the newest snapshot shows at a path below a settled root. */
  lemma {:induction false} SettledRestores(r: Replica, scan: map<string, FileInfo>, tree: map<string, Local>,
                                           umask: Creation, a: string)
    requires Settled(r, scan, tree, a)
    ensures Lookup(RestoredMap(umask, r.snap, RESTORE_CHUNK_BYTES), a) ==
      if a in tree then Some(RestoredFile(umask, StoredOf(tree[a]), RESTORE_CHUNK_BYTES)) else None
  {
    assert a in r.snap <==> Lookup(r.snap, a).Some?;
  }

  /** Every path below the prefix is settled, the tree's own ones at least. */
  ghost predicate RootSettled(r: Replica, scan: map<string, FileInfo>, tree: map<string, Local>, prefix: string,
                              litter: set<string>) {
    forall p :: PathInRoot(p, prefix) && (p in tree || p !in litter) ==> Settled(r, scan, tree, p)
  }

  /** A restore of a settled root gives back exactly what its scan kept. */
  lemma {:induction false} SettledRootRestores(index: map<string, Meta>, cwd: string, root: Root, fm: NameMatch,
                                               digest: Digest, plan: RootDiffs, after: Replica, umask: Creation,
                                               litter: set<string>)
    requires IsAbs(cwd) && NamedTree(root.tree) && Planned(index, cwd, root, fm, digest, plan)
    requires RootSettled(after, ScanOfRoot(plan.rootPrefix, root, fm, digest),
                         TreeOf(plan.rootPrefix, root, fm, digest), plan.rootPrefix, litter)
    ensures RestoredExactly(root, fm, plan.rootPrefix, umask, RestoredMap(umask, after.snap, RESTORE_CHUNK_BYTES),
      litter)
  {
    hide Planned, PathInRoot, Settled, ScanOfRoot, TreeOf, RestoredMap, NamedTree, RestoredFile, IsArchivePath;
    var prefix := plan.rootPrefix;
    var scan, tree := ScanOfRoot(prefix, root, fm, digest), TreeOf(prefix, root, fm, digest);
    var restored := RestoredMap(umask, after.snap, RESTORE_CHUNK_BYTES);
    forall cs | Collected(root.tree, [], cs, Excluding(fm, root.patterns))
      ensures RestoredAt(root, prefix, umask, restored, cs)
    {
      var a := prefix + "/" + Join(cs);
      PlaceInRoot(index, cwd, root, fm, digest, plan, cs);
      TreeHolds(index, cwd, root, fm, digest, plan, cs);
      SettledRestores(after, scan, tree, umask, a);
      RestoredIs(umask, At(root.tree, cs).value.content, At(root.tree, cs).value.mode, restored[a]);
    }
    forall a | a in restored && PathInRoot(a, prefix) && a !in litter
      ensures exists cs :: Collected(root.tree, [], cs, Excluding(fm, root.patterns)) && a == prefix + "/" + Join(cs)
    {
      SettledRestores(after, scan, tree, umask, a);
      assert a in tree;
      var cs := TreeHeld(index, cwd, root, fm, digest, plan, a);
    }
  }

  /** Round trip: from agreement, through a successful attempt, to a restore of the newest snapshot. */
  lemma {:induction false} RoundTrip(index: map<string, Meta>, cwd: string, roots: seq<Root>, fm: NameMatch,
                                     digest: Digest, plans: seq<RootDiffs>, i: nat, r: Replica, run: seq<Push>,
                                     umask: Creation)
    requires Injective(digest) && IsAbs(cwd) && r.index == index && AgreeOutside(digest, r, {})
    requires AllPlanned(index, cwd, roots, fm, digest, plans) && Hypotheses(roots, fm, plans)
    requires Ran(run, NonEmpty(plans), true) && SizedRun(run) && i < |plans| && i < |roots|
    ensures RestoredExactly(roots[i], fm, plans[i].rootPrefix, umask,
      RestoredMap(umask, RunAfter(r, run).snap, RESTORE_CHUNK_BYTES), {})
  {
    HypothesesAt(roots, fm, plans, i);
    assert Planned(index, cwd, roots[i], fm, digest, plans[i]);
    hide *;
    var root, prefix := roots[i], plans[i].rootPrefix;
    var scan, tree := ScanOfRoot(prefix, root, fm, digest), TreeOf(prefix, root, fm, digest);
    forall p | PathInRoot(p, prefix) ensures Settled(RunAfter(r, run), scan, tree, p) {
      SyncSettles(index, cwd, roots, fm, digest, plans, i, p, r, run, {});
    }
    RootSettledIs(RunAfter(r, run), scan, tree, prefix, {});
    SettledRootRestores(index, cwd, root, fm, digest, plans[i], RunAfter(r, run), umask, {});
  }

  lemma {:induction false} RootSettledIs(r: Replica, scan: map<string, FileInfo>, tree: map<string, Local>,
                                         prefix: string, litter: set<string>)
    requires forall p :: PathInRoot(p, prefix) && (p in tree || p !in litter) ==> Settled(r, scan, tree, p)
    ensures RootSettled(r, scan, tree, prefix, litter)
  {}

  lemma {:induction false} PlaceInRoot(index: map<string, Meta>, cwd: string, root: Root, fm: NameMatch, digest: Digest,
                                       plan: RootDiffs, cs: seq<string>)
    requires IsAbs(cwd) && NamedTree(root.tree) && Planned(index, cwd, root, fm, digest, plan)
    requires Collected(root.tree, [], cs, Excluding(fm, root.patterns))
    ensures PathInRoot(plan.rootPrefix + "/" + Join(cs), plan.rootPrefix)
  {
    hide IsArchivePath, PathInRoot, Clean, Components;
    PlaceFound(index, cwd, root, fm, digest, plan, cs);
    PlaceNames(root.tree, cs);
    PlanPrefix(index, cwd, root, fm, digest, plan);
    ArchiveName(plan.rootPrefix, Join(cs));
  }

  ghost predicate ArchiveReplica(r: Replica) { ArchiveKeys(r.index) && ArchiveKeys(r.live) && ArchiveKeys(r.snap) }

  lemma {:induction false} EditsKeepArchive<V>(m: map<string, V>, es: seq<Edit<V>>)
    requires ArchiveKeys(m) && forall i :: 0 <= i < |es| ==> IsArchivePath(es[i].path)
    ensures ArchiveKeys(Apply(m, es))
  {
    hide IsArchivePath, Apply;
    forall p | p in Apply(m, es) ensures IsArchivePath(p) {
      if !Touches(es, p) {
        ApplyUntouched(m, es, p);
        assert Lookup(m, p) == Lookup(Apply(m, es), p);
      }
    }
  }

  lemma {:induction false} PushKeepsArchive(r: Replica, e: Push, b: RootDiffs)
    requires ArchiveReplica(r) && Carries(e, b) && BatchSendable(b)
    ensures ArchiveReplica(After(r, e))
  {
    hide IsArchivePath, Apply, AllSendable, ArchiveKeys, ChangeFor, Beside;
    StepKeepsArchive(r, e, b);
    var files := e.files[..e.pushed];
    forall i | 0 <= i < |files| ensures IsArchivePath(files[i].path) {
      assert files[i] == e.files[i];
      Storability.ChangePath(b.rootPrefix, b.diffs[i], b.disk);
    }
    EditsKeepArchive(r.live, files);
    forall q | q in e.left ensures IsArchivePath(q) { BesideIs(q, b.diffs[e.pushed].file.path); }
    ArchiveMore(Apply(r.live, files), e.left);
  }

  lemma {:induction false} ArchiveMore<V>(m: map<string, V>, more: map<string, V>)
    requires ArchiveKeys(m) && forall q :: q in more ==> IsArchivePath(q)
    ensures ArchiveKeys(m + more)
  {
    hide IsArchivePath;
  }

  /** Names stay archive names through an attempt. */
  lemma {:induction false} RunKeepsArchive(r: Replica, run: seq<Push>, batches: seq<RootDiffs>, n: nat)
    requires ArchiveReplica(r) && AllBatchesSendable(batches)
    requires |run| <= |batches| && (forall j :: 0 <= j < |run| ==> Carries(run[j], batches[j])) && SizedRun(run)
    requires n <= |run| && SizedRun(run[..n])
    ensures ArchiveReplica(RunAfter(r, run[..n]))
    decreases n
  {
    hide ArchiveReplica, After, Carries, BatchSendable;
    if n == 0 {
      assert run[..0] == [];
    } else {
      RunStep(r, run, n - 1);
      RunKeepsArchive(r, run, batches, n - 1);
      PushKeepsArchive(RunAfter(r, run[..n - 1]), run[n - 1], batches[n - 1]);
    }
  }

  lemma {:induction false} AttemptKeepsArchive(index: map<string, Meta>, cwd: string, roots: seq<Root>, fm: NameMatch,
                                               digest: Digest, plans: seq<RootDiffs>, r: Replica, run: seq<Push>)
    requires IsAbs(cwd) && r.index == index && ArchiveReplica(r)
    requires AllPlanned(index, cwd, roots, fm, digest, plans) && Ran(run, NonEmpty(plans), true) && SizedRun(run)
    ensures ArchiveReplica(RunAfter(r, run))
  {
    hide Carries, CarriedThrough, AllPlanned, NonEmpty, RunAfter, AllBatchesSendable, SizedRun;
    ArchiveIndex(r);
    PlansSendable(index, cwd, roots, fm, digest, plans);
    assert run[..|run|] == run;
    RunKeepsArchive(r, run, NonEmpty(plans), |run|);
  }

  lemma {:induction false} ArchiveIndex(r: Replica)
    requires ArchiveReplica(r)
    ensures ArchiveKeys(r.index)
  {}

  /** The newest snapshot of an idle dataset is a whole tree. */
  lemma {:induction false} NewestIsTree(host: Host, user: string)
    requires host.Idle() && user in host.datasets
    ensures var snaps := host.datasets[user].snaps;
      && PrefixFree(NewestFiles(snaps).Keys)
      && (snaps != [] ==> snaps[|snaps| - 1].temps == map[] && NewestFiles(snaps) == snaps[|snaps| - 1].fs.files)
  {
    var snaps := host.datasets[user].snaps;
    assert CleanSnaps(snaps);
    if snaps != [] { WellFormedPrefixFree(snaps[|snaps| - 1].fs); }
  }

  /** Restoring a user's newest snapshot over a stream that may break anywhere: if the agent reports
      success, the target holds exactly the restored form of that snapshot; whatever else happens short
      of the final swap leaves the target alone. */
  method Restore(host: Host, user: string, target: RestoreTarget, root: string, umask: Creation)
    returns (ok: bool, ghost swapping: bool, ghost fault: bool)
    requires host.Idle() && BaseDir(root) && ArchiveKeys(SnapOf(host, user))
    modifies target
    ensures !swapping ==> !ok && target.tree == old(target.tree)
    ensures ok ==>
      target.tree.Some? && target.tree.value.files == RestoredMap(umask, SnapOf(host, user), RESTORE_CHUNK_BYTES)
    ensures !ok && !fault ==> user !in host.datasets || host.datasets[user].snaps == []
  {
    ok, swapping, fault := false, false, false;
    if user in host.datasets {
      NewestIsTree(host, user);
      ghost var files := SnapOf(host, user);
      hide PrefixFree, WellFormed, RunRestore, Complete, BaseDir, IsArchivePath, NoneLast, Visits, Emit, RestoredMap;
      var sent, complete;
      ghost var order, unsent;
      sent, complete, order, unsent := PullRestore(host.datasets[user]);
      var n: int := *;
      var arrived := if 0 <= n <= |sent| then sent[..n] else sent;
      if complete { PulledArrives(root, umask, files, order, sent, arrived); }
      else { TruncatedArrives(root, umask, sent, arrived); }
      ok, swapping, fault := target.RestoreFromStream(root, umask, arrived);
      fault := fault || unsent || |arrived| != |sent|;
    }
  }

  lemma {:induction false} TruncatedArrives(root: string, umask: Creation, sent: seq<RestoreBatch>,
                                            arrived: seq<RestoreBatch>)
    requires NoneLast(sent) && arrived <= sent
    ensures !Complete(root, umask, arrived)
  {
    TruncatedIsIncomplete(root, umask, arrived);
  }

  lemma {:induction false} PulledArrives(root: string, umask: Creation, files: map<string, File>, order: seq<string>,
                                         sent: seq<RestoreBatch>, arrived: seq<RestoreBatch>)
    requires BaseDir(root) && Visits(order, files.Keys) && PrefixFree(files.Keys) && ArchiveKeys(files)
    requires sent != [] && sent[|sent| - 1].isLast && NoneLast(sent[..|sent| - 1])
    requires RestoreStream.Gather(sent[..|sent| - 1]) == Emit(files, order, RESTORE_CHUNK_BYTES)
    requires arrived <= sent
    ensures arrived == sent ==> Complete(root, umask, arrived)
    ensures Complete(root, umask, arrived) ==>
      RunRestore(root, umask, EMPTY_RESTORE, RestoreStream.Gather(BeforeLast(arrived))).Ok? &&
      RunRestore(root, umask, EMPTY_RESTORE, RestoreStream.Gather(BeforeLast(arrived))).value.fs.files ==
        RestoredMap(umask, files, RESTORE_CHUNK_BYTES)
  {
    hide RunRestore, Emit, RestoredMap, PrefixFree, Visits, BeforeLast, BaseDir, IsArchivePath;
    if |arrived| < |sent| {
      TruncatedArrives(root, umask, sent[..|sent| - 1], arrived);
    } else {
      assert arrived == sent;
      PulledIsComplete(root, umask, files, order, sent);
    }
  }

  /** Everything a restore needs to give every root back. */
  ghost predicate Agreed(digest: Digest, r: Replica, roots: seq<Root>, fm: NameMatch, plans: seq<RootDiffs>) {
    Injective(digest) && AgreeOutside(digest, r, {}) && Hypotheses(roots, fm, plans)
  }

  lemma {:induction false} AllRoundTrip(cwd: string, roots: seq<Root>, fm: NameMatch, digest: Digest,
                                        plans: seq<RootDiffs>, r: Replica, run: seq<Push>, umask: Creation)
    requires IsAbs(cwd) && AllPlanned(r.index, cwd, roots, fm, digest, plans)
    requires Ran(run, NonEmpty(plans), true) && SizedRun(run)
    ensures Agreed(digest, r, roots, fm, plans) ==> forall i :: 0 <= i < |roots| && i < |plans| ==>
      RestoredExactly(roots[i], fm, plans[i].rootPrefix, umask,
        RestoredMap(umask, RunAfter(r, run).snap, RESTORE_CHUNK_BYTES), {})
  {
    hide AllPlanned, NonEmpty, RunAfter, RestoredMap, Ran, SizedRun, AgreeOutside, RestoredExactly, Hypotheses;
    if Agreed(digest, r, roots, fm, plans) {
      forall i | 0 <= i < |roots| && i < |plans|
        ensures RestoredExactly(roots[i], fm, plans[i].rootPrefix, umask,
          RestoredMap(umask, RunAfter(r, run).snap, RESTORE_CHUNK_BYTES), {})
      {
        RoundTrip(r.index, cwd, roots, fm, digest, plans, i, r, run, umask);
      }
    }
  }

  /** Backup, then restore. When both report success, and the state before was one where table, dataset
      and snapshot agree, every root comes back exactly as it was scanned: through the scan, its names,
      the difference, packing, chunking, the upload, the snapshot, and the whole way back. */
  method BackupThenRestore(db: SnapshotTable, host: Host, server: string, user: string, ruleType: string, cwd: string,
                           roots: seq<Root>, fm: NameMatch, digest: Digest, target: RestoreTarget, root: string,
                           umask: Creation)
    returns (ok: bool, ghost plans: seq<RootDiffs>)
    requires host.Idle() && host.policy.minKeep >= 1 && IsAbs(cwd) && BaseDir(root)
    requires ArchiveReplica(ReplicaOf(db, host, server, user))
    modifies db, host`datasets, host.datasets.Values, target
    ensures ok ==> |plans| == |roots| && target.tree.Some?
    ensures ok && Agreed(digest, old(ReplicaOf(db, host, server, user)), roots, fm, plans) ==>
      forall i :: 0 <= i < |roots| ==> RestoredExactly(roots[i], fm, plans[i].rootPrefix, umask,
        target.tree.value.files, {})
  {
    hide AllPlanned, NonEmpty, RunAfter, RestoredMap, Ran, SizedRun, AgreeOutside, RestoredExactly, Hypotheses,
         ArchiveKeys, OthersSame, View;
    ghost var r := ReplicaOf(db, host, server, user);
    ok := false;
    var failure;
    ghost var run;
    ghost var reached, failed;
    failure, plans, run, reached, failed := SyncToServer(db, host, server, user, ruleType, cwd, roots, fm, digest);
    if failure.None? {
      AttemptKeepsArchive(r.index, cwd, roots, fm, digest, plans, r, run);
      AllRoundTrip(cwd, roots, fm, digest, plans, r, run, umask);
      PlanCount(r.index, cwd, roots, fm, digest, plans);
      ghost var swapping, fault;
      ok, swapping, fault := Restore(host, user, target, root, umask);
    }
  }

  lemma {:induction false} PlanCount(index: map<string, Meta>, cwd: string, roots: seq<Root>, fm: NameMatch,
                                     digest: Digest, plans: seq<RootDiffs>)
    requires AllPlanned(index, cwd, roots, fm, digest, plans)
    ensures |plans| == |roots|
  {}
}
