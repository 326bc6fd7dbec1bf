/** One sync attempt of the agent against one server: scan every root, compute every difference, then
    push and record root after root. */
module Sync {
  import opened Integers
  import opened Model
  import opened Paths
  import opened Namespacing
  import opened FileSystem
  import opened Patches
  import opened Index
  import opened Diff
  import opened Wire
  import opened StreamMachine
  import opened Server
  import opened Retention
  import opened Pusher
  import opened BackupServer
  import opened Leftovers
  import opened Protocol
  import opened Glob
  import opened Scan

  // ---- what the dataset of a user shows ------------------------------------------------------

  ghost function LiveOf(host: Host, user: string): map<string, File>
    reads host, host.datasets.Values
  {
    if user in host.datasets then host.datasets[user].fs.files else map[]
  }

  function NewestFiles(snaps: seq<Snapshot>): map<string, File> {
    if snaps == [] then map[] else snaps[|snaps| - 1].fs.files
  }

  ghost function SnapOf(host: Host, user: string): map<string, File>
    reads host, host.datasets.Values
  {
    if user in host.datasets then NewestFiles(host.datasets[user].snaps) else map[]
  }

  ghost function ReplicaOf(db: SnapshotTable, host: Host, server: string, user: string): Replica
    reads db, host, host.datasets.Values
  {
    Replica(View(db.rows, server, user), LiveOf(host, user), SnapOf(host, user))
  }

  // ---- one stream, seen from both ends -------------------------------------------------------

  lemma {:induction false} EffectTaken(fs0: FS, snaps0: seq<Snapshot>, es: seq<FileEntry>, accepted: nat, fs: FS,
                                       snaps: seq<Snapshot>)
    requires StreamEffect(fs0, snaps0, es, accepted, true, fs, snaps)
    ensures Run(Session(fs0, map[]), es) == Ok(Session(fs, map[])) && Suffix(snaps, snaps0 + [Snapshot(fs, map[])])
    ensures WellFormed(fs)
  {}

  lemma {:induction false} EffectPart(fs0: FS, snaps0: seq<Snapshot>, es: seq<FileEntry>, accepted: nat, fs: FS,
                                      snaps: seq<Snapshot>)
    requires StreamEffect(fs0, snaps0, es, accepted, false, fs, snaps)
    ensures accepted <= |es| && Run(Session(fs0, map[]), es[..accepted]).Ok? && snaps == snaps0
    ensures Residue(Run(Session(fs0, map[]), es[..accepted]).value, NextEntry(es, accepted), fs)
  {}

  /** With a snapshot: all of them. */
  lemma {:induction false} AllStores(fs0: FS, cs: seq<Change>, fs: FS)
    requires AllSendable(cs) && WellFormed(fs) && Run(Session(fs0, map[]), WireOf(cs)) == Ok(Session(fs, map[]))
    ensures Stops(fs0, cs, |cs|, fs)
  {
    hide Run, WireOf, AllSendable, ApplyAll, WellFormed, Stops;
    WireRuns(fs0, cs);
    StopsAtEnd(fs0, cs, fs);
  }

  /** Whatever part of a difference's stream the server accepted, the tree is one that stopped after some
      of its changes; after a snapshot it is the one after all of them, and the snapshot shows exactly
      its files. */
  lemma {:induction false} StreamStores(fs0: FS, snaps0: seq<Snapshot>, cs: seq<Change>, es: seq<FileEntry>,
                                        accepted: nat, took: bool, fs: FS, snaps: seq<Snapshot>, minKeep: nat)
    returns (k: nat)
    requires AllSendable(cs) && es <= WireOf(cs)
    requires StreamEffect(fs0, snaps0, es, accepted, took, fs, snaps)
    requires took ==> es == WireOf(cs) && minKeep >= 1 && |snaps| >= Min(|snaps0| + 1, minKeep)
    ensures Stops(fs0, cs, k, fs)
    ensures took ==> k == |cs| && NewestFiles(snaps) == fs.files
    ensures !took ==> snaps == snaps0
  {
    hide Run, AllSendable, WireOf, StreamEffect, Stops, Residue, WellFormed;
    if took {
      k := |cs|;
      EffectTaken(fs0, snaps0, es, accepted, fs, snaps);
      AllStores(fs0, cs, fs);
      NewestIsTaken(snaps, snaps0, Snapshot(fs, map[]));
    } else {
      EffectPart(fs0, snaps0, es, accepted, fs, snaps);
      k := WireStops(fs0, cs, es, accepted, fs);
    }
  }

  lemma {:induction false} NewestIsTaken(snaps: seq<Snapshot>, snaps0: seq<Snapshot>, s: Snapshot)
    requires Suffix(snaps, snaps0 + [s]) && |snaps| >= 1
    ensures snaps[|snaps| - 1] == s
  {}

  lemma {:induction false} FlattenPrefix(received: seq<Batch>, sent: seq<Batch>)
    requires received <= sent
    ensures Flatten(received) <= Flatten(sent)
  {
    FlattenAppend(received, sent[|received|..]);
    assert sent == received + sent[|received|..];
  }

  /** The network: some prefix of what was sent arrives, and the end of the stream is seen only after
      a sender that reached its own end, and after everything it sent. */
  method Transmit(sent: seq<Batch>, done: bool) returns (received: seq<Batch>, end: StreamEnd, ghost fault: bool)
    ensures received <= sent && (end.Eof? ==> done && received == sent)
    ensures done && !fault ==> end.Eof?
  {
    var n: int := *;
    received := if 0 <= n <= |sent| then sent[..n] else sent;
    var closed: bool := *;
    end := if done && closed && |received| == |sent| then Eof else Broken;
    fault := !closed || |received| != |sent|;
  }

  /** The dataset of the pushing user after a stream: the files after k changes and the temporary files
      that stayed. */
  ghost predicate Stored(before: map<string, File>, snap: map<string, File>, cs: seq<Change>, k: nat,
                         left: map<string, File>, took: bool, after: map<string, File>, newest: map<string, File>) {
    && k <= |cs|
    && after == Apply(before, FileEdits(cs)[..k]) + left
    && left.Keys !! Apply(before, FileEdits(cs)[..k]).Keys
    && (took ==> k == |cs|)
    && (k == |cs| ==> left == map[])
    && (k < |cs| ==> forall q :: q in left ==> Beside(q, cs[k].path))
    && newest == if took then after else snap
  }

  lemma {:induction false} WireNotEmpty(cs: seq<Change>)
    requires cs != [] && AllSendable(cs)
    ensures WireOf(cs) != []
  {
    var before, c := cs[..|cs| - 1], cs[|cs| - 1];
    assert cs == before + [c];
    WireSnoc(before, c);
    assert Sendable(c);
    assert EntriesOf(c) != [];
  }

  lemma {:induction false} FlattenNothing(sent: seq<Batch>)
    ensures Flatten(sent) != [] ==> sent != []
  {}

  /** The tree of a user's dataset; one that does not exist yet is created empty. */
  ghost function TreeOnServer(host: Host, user: string): FS
    reads host, host.datasets.Values
  {
    if user in host.datasets then host.datasets[user].fs else EMPTY_FS
  }

  /** What decides whether a push can succeed at all: the identity, the local files, and the tree that
      is there. */
  ghost predicate CanPush(fs: FS, cfg: PushConfig, diffs: seq<FileDiff>, disk: LocalFiles) {
    && ValidPushConfig(cfg) && ValidUsername(cfg.username)
    && AllReadable(cfg.prefix, diffs, disk)
    && ApplyAll(fs, ChangesFor(cfg.prefix, diffs, disk)).Some?
  }

  lemma {:induction false} StampedAdmitted(batches: seq<Batch>, cfg: PushConfig)
    requires Stamped(batches, cfg) && batches != []
    ensures batches[0].username == cfg.username && batches[0].ruleType == cfg.ruleType
    ensures AllAdmitted(cfg.username, cfg.ruleType, batches) <==> ValidPushConfig(cfg) && ValidUsername(cfg.username)
  {
    hide ValidUsername;
    if AllAdmitted(cfg.username, cfg.ruleType, batches) { assert Admit(cfg.username, cfg.ruleType, batches[0]) == OK; }
  }

  /** The whole stream of a sendable difference is acceptable exactly if the identity is valid and the
      tree lets every change through. */
  lemma {:induction false} AcceptableIff(fs0: FS, cfg: PushConfig, cs: seq<Change>, batches: seq<Batch>)
    requires Stamped(batches, cfg) && batches != [] && AllSendable(cs) && Flatten(batches) == WireOf(cs)
    ensures Acceptable(fs0, cfg.username, cfg.ruleType, batches) <==>
      ValidPushConfig(cfg) && ValidUsername(cfg.username) && ApplyAll(fs0, cs).Some?
  {
    hide ValidUsername, AllAdmitted, WireOf, Flatten, Run, ApplyAll, AllSendable, ValidPushConfig;
    StampedAdmitted(batches, cfg);
    WireRuns(fs0, cs);
  }

  /** One root's stream. The server receives some prefix of what was sent; it sees the end of the
      stream only after all of it, and the agent counts the push as done only when everything was
      sent and the handler's success came back. Unless something fails on the way, the push succeeds
      exactly if it can. */
  method PushDiffs(host: Host, cfg: PushConfig, diffs: seq<FileDiff>, disk: LocalFiles)
    returns (ok: bool, ghost k: nat, ghost left: map<string, File>, ghost took: bool, ghost fault: bool)
    requires host.Idle() && host.policy.minKeep >= 1 && diffs != []
    requires AllSendable(ChangesFor(cfg.prefix, diffs, disk))
    modifies host`datasets, host.datasets.Values
    ensures host.Idle()
    ensures forall u :: u in old(host.datasets) ==> u in host.datasets && host.datasets[u] == old(host.datasets[u])
    ensures forall u :: u in host.datasets && u !in old(host.datasets) ==> u == cfg.username && fresh(host.datasets[u])
    ensures forall u :: u in old(host.datasets) && u != cfg.username ==> unchanged(old(host.datasets[u]))
    ensures Stops(old(TreeOnServer(host, cfg.username)), ChangesFor(cfg.prefix, diffs, disk), k,
                  TreeOnServer(host, cfg.username))
    ensures Stored(old(LiveOf(host, cfg.username)), old(SnapOf(host, cfg.username)),
      ChangesFor(cfg.prefix, diffs, disk),
                   k, left, took, LiveOf(host, cfg.username), SnapOf(host, cfg.username))
    ensures ok ==> took && CanPush(old(TreeOnServer(host, cfg.username)), cfg, diffs, disk)
    ensures !ok && !fault ==> !CanPush(old(TreeOnServer(host, cfg.username)), cfg, diffs, disk)
  {
    hide *;
    ghost var cs := ChangesFor(cfg.prefix, diffs, disk);
    ghost var live, snap, tree := LiveOf(host, cfg.username), SnapOf(host, cfg.username),
        TreeOnServer(host, cfg.username);
    ShownBy(host, cfg.username);
    TreeWellFormed(host, cfg.username);
    StopsAtStart(tree, cs);
    NothingStored(live, snap, cs, tree);
    CanPushIs(tree, cfg, diffs, disk);
    k, took, left := 0, false, LeftBy(tree, cs, 0, tree);
    var started, sent, done;
    started, sent, done, fault := Pusher.PushBackup(cfg, diffs, disk);
    if !started { return false, 0, left, false, fault; }
    var received, end;
    ghost var lost;
    received, end, lost := Transmit(sent, done);
    FlattenPrefix(received, sent);
    StampedPrefix(received, sent, cfg);
    if done { WireNotEmpty(cs); FlattenNothing(sent); AcceptableIff(tree, cfg, cs, sent); StampedAdmitted(sent, cfg); }
    var code, used;
    ghost var fs0, snaps0, accepted, failed;
    ghost var litter;
    code, used, fs0, snaps0, accepted, took, failed, litter := host.PushBackup(received, end);
    ShownBy(host, cfg.username);
    if used.Some? {
      StampedUser(received, sent, cfg);
      k := StreamStores(fs0, snaps0, cs, Flatten(received), accepted, took, used.value.fs, used.value.snaps,
        host.policy.minKeep);
      left := LeftBy(fs0, cs, k, used.value.fs);
      StoredBy(live, snap, cs, k, took, fs0, snaps0, used.value.fs, used.value.snaps);
    }
    var answered: bool := *;
    ok := done && answered && end.Eof? && code == OK;
    fault := fault || lost || failed || !answered;
  }

  lemma {:induction false} TreeWellFormed(host: Host, user: string)
    requires host.Idle()
    ensures WellFormed(TreeOnServer(host, user))
  {
    if user in host.datasets { assert host.datasets[user].Valid(); }
  }

  lemma {:induction false} CanPushIs(fs: FS, cfg: PushConfig, diffs: seq<FileDiff>, disk: LocalFiles)
    ensures CanPush(fs, cfg, diffs, disk) <==>
      ValidPushConfig(cfg) && ValidUsername(cfg.username) && AllReadable(cfg.prefix, diffs, disk) &&
        ApplyAll(fs, ChangesFor(cfg.prefix, diffs, disk)).Some?
  {}

  lemma {:induction false} StampedPrefix(received: seq<Batch>, sent: seq<Batch>, cfg: PushConfig)
    requires Stamped(sent, cfg) && received <= sent
    ensures Stamped(received, cfg)
  {}

  /** A dataset shows its tree and its newest snapshot; one that does not exist shows nothing. */
  lemma {:induction false} ShownBy(host: Host, user: string)
    ensures LiveOf(host, user) == if user in host.datasets then host.datasets[user].fs.files else map[]
    ensures SnapOf(host, user) ==
      if user in host.datasets then NewestFiles(host.datasets[user].snaps) else NewestFiles([])
    ensures TreeOnServer(host, user) == if user in host.datasets then host.datasets[user].fs else EMPTY_FS
    ensures NewestFiles([]) == map[] && EMPTY_FS.files == map[]
  {}

  lemma {:induction false} StampedUser(received: seq<Batch>, sent: seq<Batch>, cfg: PushConfig)
    requires Stamped(sent, cfg) && received <= sent
    ensures received != [] ==> received[0].username == cfg.username
  {}

  lemma {:induction false} StoredBy(live: map<string, File>, snap: map<string, File>, cs: seq<Change>, k: nat,
                                    took: bool, fs0: FS, snaps0: seq<Snapshot>, fs: FS, snaps: seq<Snapshot>)
    requires live == fs0.files && snap == NewestFiles(snaps0) && Stops(fs0, cs, k, fs)
    requires took ==> k == |cs| && NewestFiles(snaps) == fs.files
    requires !took ==> snaps == snaps0
    ensures Stored(live, snap, cs, k, LeftBy(fs0, cs, k, fs), took, fs.files, NewestFiles(snaps))
  {
    hide Stops, LeftBy, Apply, Beside;
    StopsFiles(fs0, cs, k, fs);
  }

  lemma {:induction false} NothingStored(live: map<string, File>, snap: map<string, File>, cs: seq<Change>, fs: FS)
    requires live == fs.files && Stops(fs, cs, 0, fs)
    ensures Stored(live, snap, cs, 0, LeftBy(fs, cs, 0, fs), false, live, snap)
  {
    hide Stops, LeftBy, Apply, Beside;
    StopsFiles(fs, cs, 0, fs);
  }

  // ---- planning ------------------------------------------------------------------------------

  /** A configured root: what the scan finds there, and what its files hold when they are read again
      for the push. */
  datatype Root = Root(path: string, patterns: seq<string>, tree: Node, later: LocalFiles)

  datatype RootDiffs = RootDiffs(rootPath: string, rootPrefix: string, diffs: seq<FileDiff>, disk: LocalFiles)

  datatype SyncError = Permanent | Remote

  /** The scanned files under their archive names. */
  function Archived(prefix: string, files: seq<FileInfo>): (out: seq<FileInfo>)
    ensures |out| == |files|
    ensures forall i :: 0 <= i < |files| ==> out[i] == files[i].(path := ArchivePath(prefix, files[i].path))
  {
    seq(|files|, i requires 0 <= i < |files| => files[i].(path := ArchivePath(prefix, files[i].path)))
  }

  function Found(root: Root, fm: NameMatch, digest: Digest): seq<FileInfo> {
    Files(root.tree, [], Excluding(fm, root.patterns), digest)
  }

  function ScanOfRoot(prefix: string, root: Root, fm: NameMatch, digest: Digest): map<string, FileInfo> {
    ScanMap(Archived(prefix, Found(root, fm, digest)))
  }

  /** What a root contributes when nothing went wrong: an error-free scan, valid names, and the
      difference of exactly that scan. */
  ghost predicate Planned(index: map<string, Meta>, cwd: string, root: Root, fm: NameMatch, digest: Digest,
                          plan: RootDiffs) {
    && plan.rootPrefix == ArchiveRootPrefix(cwd, root.path) && plan.disk == root.later
    && Errors(root.tree, [], Excluding(fm, root.patterns)) == []
    && (forall f :: f in Found(root, fm, digest) ==> ValidRelative(f.path))
    && IsDiff(plan.diffs, index, ScanOfRoot(plan.rootPrefix, root, fm, digest), plan.rootPrefix)
  }

  /** Why a root cannot be planned, short of a failing database. */
  ghost predicate CannotPlan(root: Root, fm: NameMatch, digest: Digest) {
    || (exists p :: p in root.patterns && (p == "" || fm(p, "").None?))
    || Errors(root.tree, [], Excluding(fm, root.patterns)) != []
    || exists f :: f in Found(root, fm, digest) && !ValidRelative(f.path)
  }

  /** One root. Unless the database fails, it fails exactly for a pattern that does not compile, an error of
      the scan (a partial scan cannot tell what was deleted), or a name that is not a relative path. */
  method PlanRoot(db: SnapshotTable, server: string, user: string, cwd: string, root: Root, fm: NameMatch,
                  digest: Digest)
    returns (r: Result<RootDiffs, SyncError>, ghost fault: bool)
    ensures r.Ok? ==> Planned(View(db.rows, server, user), cwd, root, fm, digest, r.value)
    ensures r.Ok? ==> forall p :: p in root.patterns ==> p != "" && fm(p, "").Some?
    ensures r.Err? ==> r.error == Permanent && (fault || CannotPlan(root, fm, digest))
  {
    hide Files, Errors, ArchiveRootPrefix, IsDiff, ScanMap, ValidRelative, View, ArchivePath;
    fault := false;
    if !Compiles(fm, root.patterns) { return Err(Permanent), fault; }
    var result := new ScanResult();
    result.Walk(root.tree, [], Excluding(fm, root.patterns), digest);
    assert result.files == [] + Found(root, fm, digest) == Found(root, fm, digest);
    assert [] + Errors(root.tree, [], Excluding(fm, root.patterns)) ==
      Errors(root.tree, [], Excluding(fm, root.patterns));
    if |result.errors| != 0 { return Err(Permanent), fault; }
    var named := NamespaceFiles(cwd, root.path, result.files);
    if named.Err? { return Err(Permanent), fault; }
    assert named.value.files == Archived(named.value.prefix, Found(root, fm, digest));
    var diffs := ComputeDiff(named.value.files, db, server, user, named.value.prefix);
    if diffs.Err? { return Err(Permanent), true; }
    return Ok(RootDiffs(root.path, named.value.prefix, diffs.value, root.later)), fault;
  }

  /** The plans that have something to send. */
  function NonEmpty(plans: seq<RootDiffs>): seq<RootDiffs>
    decreases |plans|
  {
    if plans == [] then []
    else NonEmpty(plans[..|plans| - 1]) + if plans[|plans| - 1].diffs == [] then [] else [plans[|plans| - 1]]
  }

  lemma {:induction false} NonEmptySnoc(plans: seq<RootDiffs>, plan: RootDiffs)
    ensures NonEmpty(plans + [plan]) == NonEmpty(plans) + if plan.diffs == [] then [] else [plan]
  {
    assert (plans + [plan])[..|plans|] == plans;
  }

  ghost predicate AllPlanned(index: map<string, Meta>, cwd: string, roots: seq<Root>, fm: NameMatch, digest: Digest,
                             plans: seq<RootDiffs>) {
    |plans| == |roots| && forall i :: 0 <= i < |roots| ==> Planned(index, cwd, roots[i], fm, digest, plans[i])
  }

  /** Every batch is the difference of some root, and there is something in it. */
  ghost predicate OnlyPlanned(index: map<string, Meta>, cwd: string, roots: seq<Root>, fm: NameMatch, digest: Digest,
                              batches: seq<RootDiffs>) {
    forall j :: 0 <= j < |batches| ==> PlannedBatch(index, cwd, roots, fm, digest, batches[j])
  }

  ghost predicate PlannedBatch(index: map<string, Meta>, cwd: string, roots: seq<Root>, fm: NameMatch, digest: Digest,
                               batch: RootDiffs) {
    batch.diffs != [] && exists root :: root in roots && Planned(index, cwd, root, fm, digest, batch)
  }

  lemma {:induction false} PlannedBatches(index: map<string, Meta>, cwd: string, roots: seq<Root>, fm: NameMatch,
                                          digest: Digest, plans: seq<RootDiffs>)
    requires AllPlanned(index, cwd, roots, fm, digest, plans)
    ensures OnlyPlanned(index, cwd, roots, fm, digest, NonEmpty(plans))
  {
    hide Planned, NonEmpty;
    forall j | 0 <= j < |NonEmpty(plans)| ensures PlannedBatch(index, cwd, roots, fm, digest, NonEmpty(plans)[j]) {
      var i := NonEmptyFrom(plans, j);
      assert roots[i] in roots && Planned(index, cwd, roots[i], fm, digest, NonEmpty(plans)[j]);
    }
  }

  lemma {:induction false} NothingPlanned(index: map<string, Meta>, cwd: string, roots: seq<Root>, fm: NameMatch,
                                          digest: Digest)
    ensures AllPlanned(index, cwd, roots[..0], fm, digest, []) && NonEmpty([]) == []
  {}

  lemma {:induction false} PlannedMore(index: map<string, Meta>, cwd: string, roots: seq<Root>, n: nat, fm: NameMatch,
                                       digest: Digest, plans: seq<RootDiffs>, plan: RootDiffs)
    requires n < |roots| && AllPlanned(index, cwd, roots[..n], fm, digest, plans)
    requires Planned(index, cwd, roots[n], fm, digest, plan)
    ensures AllPlanned(index, cwd, roots[..n + 1], fm, digest, plans + [plan])
  {
    hide Planned;
    assert roots[..n + 1] == roots[..n] + [roots[n]];
  }

  /** Every difference is computed before anything is pushed. */
  method PlanRoots(db: SnapshotTable, server: string, user: string, cwd: string, roots: seq<Root>, fm: NameMatch,
                   digest: Digest)
    returns (r: Result<seq<RootDiffs>, SyncError>, ghost plans: seq<RootDiffs>, ghost fault: bool)
    ensures r.Ok? ==>
      AllPlanned(View(db.rows, server, user), cwd, roots, fm, digest, plans) && r.value == NonEmpty(plans)
    ensures r.Ok? ==> OnlyPlanned(View(db.rows, server, user), cwd, roots, fm, digest, r.value)
    ensures r.Err? ==> r.error == Permanent && (fault || exists root :: root in roots && CannotPlan(root, fm, digest))
  {
    hide *;
    ghost var index := View(db.rows, server, user);
    var batches: seq<RootDiffs> := [];
    plans := [];
    r, fault := Ok([]), false;
    NothingPlanned(index, cwd, roots, fm, digest);
    var n := 0;
    while n < |roots| && r.Ok?
      invariant 0 <= n <= |roots|
      invariant r.Ok? ==> AllPlanned(index, cwd, roots[..n], fm, digest, plans) && batches == NonEmpty(plans)
      invariant r.Err? ==>
        r.error == Permanent && (fault || exists root :: root in roots && CannotPlan(root, fm, digest))
      decreases |roots| - n, r.Ok?
    {
      var plan;
      plan, fault := PlanRoot(db, server, user, cwd, roots[n], fm, digest);
      if plan.Err? {
        r := Err(plan.error);
      } else {
        NonEmptySnoc(plans, plan.value);
        PlannedMore(index, cwd, roots, n, fm, digest, plans, plan.value);
        plans := plans + [plan.value];
        if |plan.value.diffs| > 0 { batches := batches + [plan.value]; }
        n := n + 1;
      }
    }
    if r.Ok? {
      assert roots[..|roots|] == roots;
      PlannedBatches(index, cwd, roots, fm, digest, plans);
      r := Ok(batches);
    }
  }

  // ---- every planned change can be sent ------------------------------------------------------

  ghost predicate ArchiveKeys<V>(m: map<string, V>) { forall p :: p in m ==> IsArchivePath(p) }

  lemma {:induction false} ArchiveKey(p: string)
    requires IsArchivePath(p)
    ensures TargetKey(p) == Some(p)
  {
    ArchiveNotEmpty(p);
  }

  lemma {:induction false} DiffsSendable(diffs: seq<FileDiff>, index: map<string, Meta>, scan: map<string, FileInfo>,
                                         prefix: string, disk: LocalFiles)
    requires IsDiff(diffs, index, scan, prefix) && ArchiveKeys(index) && ArchiveKeys(scan)
    ensures AllSendable(ChangesFor(prefix, diffs, disk))
    ensures forall i :: 0 <= i < |diffs| ==> IsArchivePath(diffs[i].file.path)
  {
    hide IsArchivePath, TargetKey, InScope, LocalContent;
    forall i | 0 <= i < |diffs|
      ensures IsArchivePath(diffs[i].file.path) && Sendable(ChangeFor(prefix, diffs[i], disk))
    {
      assert Expected(index, scan, prefix, diffs[i].file.path) == Some(diffs[i]);
      assert diffs[i].file.path in index || diffs[i].file.path in scan;
      ArchiveKey(diffs[i].file.path);
    }
  }

  /** Recording keeps the table to archive paths. */
  lemma {:induction false} RecordKeepsArchive(index: map<string, Meta>, diffs: seq<FileDiff>, k: nat)
    requires ArchiveKeys(index) && k <= |diffs| && forall i :: 0 <= i < |diffs| ==> IsArchivePath(diffs[i].file.path)
    ensures ArchiveKeys(Apply(index, IndexEdits(diffs)[..k]))
  {
    hide IsArchivePath, Apply;
    var edits := IndexEdits(diffs)[..k];
    forall p | p in Apply(index, edits) ensures IsArchivePath(p) {
      if Touches(edits, p) {
        var i :| 0 <= i < |edits| && edits[i].path == p;
        assert edits[i] == IndexEdits(diffs)[i] == IndexEdit(diffs[i]);
      } else {
        ApplyUntouched(index, edits, p);
        assert Lookup(index, p) == Lookup(Apply(index, edits), p);
      }
    }
  }

  // ---- pushing and recording -----------------------------------------------------------------

  /** A push of one root's difference, recorded only after its snapshot. */
  ghost predicate Carries(e: Push, b: RootDiffs) {
    && e.rows == IndexEdits(b.diffs)
    && e.files == FileEdits(ChangesFor(b.rootPrefix, b.diffs, b.disk))
    && e.pushed <= |e.files| && e.recorded <= |e.rows|
    && (e.took ==> e.pushed == |e.files|)
    && (e.pushed == |e.files| ==> e.left == map[])
    && (e.pushed < |b.diffs| ==> forall q :: q in e.left ==> Beside(q, b.diffs[e.pushed].file.path))
    && (e.recorded > 0 ==> e.took)
  }

  ghost predicate CarriedThrough(e: Push) { e.took && e.pushed == |e.files| && e.recorded == |e.rows| }

  /** The pushes of an attempt, one for each batch in order; all of them whole if it succeeded. */
  ghost predicate Ran(run: seq<Push>, batches: seq<RootDiffs>, done: bool) {
    && |run| <= |batches|
    && (forall j :: 0 <= j < |run| ==> Carries(run[j], batches[j]))
    && (done ==> |run| == |batches| && forall j :: 0 <= j < |run| ==> CarriedThrough(run[j]))
  }

  lemma {:induction false} RanSized(run: seq<Push>, batches: seq<RootDiffs>, done: bool)
    requires Ran(run, batches, done)
    ensures SizedRun(run)
  {}

  lemma {:induction false} RanMore(run: seq<Push>, batches: seq<RootDiffs>, e: Push)
    requires |run| < |batches| && Ran(run, batches[..|run|], true) && Carries(e, batches[|run|])
    ensures Ran(run + [e], batches, false)
    ensures CarriedThrough(e) ==> Ran(run + [e], batches[..|run| + 1], true)
  {}

  lemma {:induction false} RunAfterMore(r: Replica, run: seq<Push>, e: Push)
    requires SizedRun(run) && SizedRun(run + [e])
    ensures RunAfter(r, run + [e]) == After(RunAfter(r, run), e)
  {
    assert (run + [e])[..|run|] == run;
  }

  ghost predicate BatchSendable(b: RootDiffs) {
    && b.diffs != []
    && AllSendable(ChangesFor(b.rootPrefix, b.diffs, b.disk))
    && forall i :: 0 <= i < |b.diffs| ==> IsArchivePath(b.diffs[i].file.path)
  }

  lemma {:induction false} ReplicaSteps(r: Replica, after: Replica, e: Push, cs: seq<Change>)
    requires e.pushed <= |e.files| && e.recorded <= |e.rows| && e.files == FileEdits(cs)
    requires Stored(r.live, r.snap, cs, e.pushed, e.left, e.took, after.live, after.snap)
    requires after.index == Apply(r.index, e.rows[..e.recorded])
    ensures after == After(r, e) && LeftIsNew(r, e)
  {
    hide Beside, Apply;
  }

  /** Which failure is which: a permanent one is a row that could not be written, after the snapshot; in any
      other the push itself did not come back with success, and nothing was recorded. */
  ghost predicate FailedAt(error: SyncError, e: Push) {
    match error
    case Permanent => e.took && e.recorded < |e.rows|
    case Remote => e.recorded == 0
  }

  /** One root: push, and after success record. */
  method PushAndRecord(db: SnapshotTable, host: Host, server: string, cfg: PushConfig, b: RootDiffs)
    returns (ok: bool, error: SyncError, ghost e: Push, ghost fault: bool)
    requires host.Idle() && host.policy.minKeep >= 1 && BatchSendable(b) && cfg.prefix == b.rootPrefix
    modifies db, host`datasets, host.datasets.Values
    ensures host.Idle() && OthersSame(old(db.rows), db.rows, server, cfg.username)
    ensures forall u :: u in old(host.datasets) ==> u in host.datasets && host.datasets[u] == old(host.datasets[u])
    ensures forall u :: u in host.datasets && u !in old(host.datasets) ==> u == cfg.username && fresh(host.datasets[u])
    ensures forall u :: u in old(host.datasets) && u != cfg.username ==> unchanged(old(host.datasets[u]))
    ensures Carries(e, b)
    ensures (ok ==> CarriedThrough(e) && CanPush(old(TreeOnServer(host, cfg.username)), cfg, b.diffs, b.disk))
    ensures !ok ==> FailedAt(error, e)
    ensures !ok && !fault ==> !CanPush(old(TreeOnServer(host, cfg.username)), cfg, b.diffs, b.disk)
    ensures ReplicaOf(db, host, server, cfg.username) == After(old(ReplicaOf(db, host, server, cfg.username)), e)
    ensures LeftIsNew(old(ReplicaOf(db, host, server, cfg.username)), e)
    ensures Stops(old(TreeOnServer(host, cfg.username)), ChangesFor(b.rootPrefix, b.diffs, b.disk), e.pushed,
                  TreeOnServer(host, cfg.username))
  {
    hide *;
    ghost var r := ReplicaOf(db, host, server, cfg.username);
    ghost var cs := ChangesFor(b.rootPrefix, b.diffs, b.disk);
    ghost var rows, files := IndexEdits(b.diffs), FileEdits(cs);
    BatchIs(b);
    ReplicaIs(db, host, server, cfg.username);
    OthersStart(db.rows, server, cfg.username);
    var pushed;
    ghost var k, left, took;
    pushed, k, left, took, fault := PushDiffs(host, cfg, b.diffs, b.disk);
    StoredBounds(r.live, r.snap, b, k, left, took, LiveOf(host, cfg.username), SnapOf(host, cfg.username));
    ghost var recorded: nat := 0;
    ok, error := pushed, Remote;
    NothingRecorded(r.index, rows);
    if pushed {
      ok, recorded := db.UpdateSnapshots(server, cfg.username, b.diffs);
      error, fault := Permanent, !ok;
    }
    e := Push(rows, files, k, left, took, recorded);
    ReplicaIs(db, host, server, cfg.username);
    ReplicaSteps(r, ReplicaOf(db, host, server, cfg.username), e, cs);
    CarriesIs(e, b);
    FailedAtIs(error, e);
  }

  lemma {:induction false} FailedAtIs(error: SyncError, e: Push)
    ensures FailedAt(error, e) <==> if error.Permanent? then e.took && e.recorded < |e.rows| else e.recorded == 0
  {}

  lemma {:induction false} BatchIs(b: RootDiffs)
    requires BatchSendable(b)
    ensures b.diffs != [] && AllSendable(ChangesFor(b.rootPrefix, b.diffs, b.disk))
  {}

  lemma {:induction false} ReplicaIs(db: SnapshotTable, host: Host, server: string, user: string)
    ensures ReplicaOf(db, host, server, user) ==
      Replica(View(db.rows, server, user), LiveOf(host, user), SnapOf(host, user))
  {}

  lemma {:induction false} NothingRecorded(index: map<string, Meta>, rows: seq<Edit<Meta>>)
    ensures Apply(index, rows[..0]) == index
  {
    assert rows[..0] == [];
  }

  lemma {:induction false} CarriesIs(e: Push, b: RootDiffs)
    requires e.rows == IndexEdits(b.diffs) && e.files == FileEdits(ChangesFor(b.rootPrefix, b.diffs, b.disk))
    requires e.pushed <= |e.files| && e.recorded <= |e.rows|
    requires (e.took ==> e.pushed == |e.files|) && (e.recorded > 0 ==> e.took)
    requires e.pushed == |e.files| ==> e.left == map[]
    requires e.pushed < |b.diffs| ==> forall q :: q in e.left ==> Beside(q, b.diffs[e.pushed].file.path)
    ensures Carries(e, b)
    ensures e.took && e.recorded == |e.rows| ==> CarriedThrough(e)
  {}

  lemma {:induction false} StoredBounds(live: map<string, File>, snap: map<string, File>, b: RootDiffs, k: nat,
                                        left: map<string, File>, took: bool, after: map<string, File>,
                                        newest: map<string, File>)
    requires Stored(live, snap, ChangesFor(b.rootPrefix, b.diffs, b.disk), k, left, took, after, newest)
    ensures k <= |b.diffs| && (took ==> k == |b.diffs|)
    ensures k == |b.diffs| ==> left == map[]
    ensures k < |b.diffs| ==> forall q :: q in left ==> Beside(q, b.diffs[k].file.path)
  {
    hide Beside;
    var cs := ChangesFor(b.rootPrefix, b.diffs, b.disk);
    if k < |b.diffs| { ChangeNames(b.rootPrefix, b.diffs[k], b.disk); }
  }

  lemma {:induction false} ChangeNames(prefix: string, d: FileDiff, disk: LocalFiles)
    ensures ChangeFor(prefix, d, disk).path == d.file.path
  {}

  // ---- the attempt ---------------------------------------------------------------------------

  lemma {:induction false} RanNothing(batches: seq<RootDiffs>)
    ensures Ran([], batches, false) && Ran([], batches[..0], true)
  {}

  ghost predicate AllBatchesSendable(batches: seq<RootDiffs>) {
    forall j :: 0 <= j < |batches| ==> BatchSendable(batches[j])
  }

  lemma {:induction false} StepKeepsArchive(r: Replica, e: Push, b: RootDiffs)
    requires Carries(e, b) && BatchSendable(b) && ArchiveKeys(r.index)
    ensures ArchiveKeys(After(r, e).index)
  {
    RecordKeepsArchive(r.index, b.diffs, e.recorded);
  }

  /** The tree after all of these batches, one after another. */
  ghost function TreeThrough(fs: FS, batches: seq<RootDiffs>): Option<FS>
    decreases |batches|
  {
    if batches == [] then Some(fs)
    else
      var b := batches[|batches| - 1];
      match TreeThrough(fs, batches[..|batches| - 1])
      case None => None
      case Some(mid) => ApplyAll(mid, ChangesFor(b.rootPrefix, b.diffs, b.disk))
  }

  /** Every push in turn can succeed in the tree that those before it leave. */
  ghost predicate AllPass(fs: FS, user: string, ruleType: string, batches: seq<RootDiffs>)
    decreases |batches|
  {
    batches == [] || (
      var before, b := batches[..|batches| - 1], batches[|batches| - 1];
      && AllPass(fs, user, ruleType, before) && TreeThrough(fs, before).Some?
      && CanPush(TreeThrough(fs, before).value, PushConfig(user, ruleType, b.rootPrefix), b.diffs, b.disk))
  }

  lemma {:induction false} AllPassStart(fs: FS, user: string, ruleType: string, batches: seq<RootDiffs>)
    ensures AllPass(fs, user, ruleType, batches[..0]) && TreeThrough(fs, batches[..0]) == Some(fs)
  {}

  /** One more batch. */
  lemma {:induction false} AllPassMore(fs: FS, user: string, ruleType: string, batches: seq<RootDiffs>, n: nat, mid: FS)
    requires n < |batches| && AllPass(fs, user, ruleType, batches[..n]) && TreeThrough(fs, batches[..n]) == Some(mid)
    ensures var b := batches[n];
      var cfg := PushConfig(user, ruleType, b.rootPrefix);
      && (AllPass(fs, user, ruleType, batches[..n + 1]) <==> CanPush(mid, cfg, b.diffs, b.disk))
      && (CanPush(mid, cfg, b.diffs, b.disk) ==>
            TreeThrough(fs, batches[..n + 1]) == ApplyAll(mid, ChangesFor(b.rootPrefix, b.diffs, b.disk)))
  {
    hide CanPush, ApplyAll;
    assert batches[..n + 1][..n] == batches[..n];
  }

  /** If all of them pass, those before do. */
  lemma {:induction false} AllPassPrefix(fs: FS, user: string, ruleType: string, batches: seq<RootDiffs>, n: nat)
    requires n <= |batches| && AllPass(fs, user, ruleType, batches)
    ensures AllPass(fs, user, ruleType, batches[..n])
    decreases |batches|
  {
    hide CanPush, TreeThrough;
    if n == |batches| {
      assert batches[..n] == batches;
    } else {
      AllPassPrefix(fs, user, ruleType, batches[..|batches| - 1], n);
      assert batches[..|batches| - 1][..n] == batches[..n];
    }
  }

  lemma {:induction false} StoppedAtEnd(fs: FS, b: RootDiffs, e: Push, g: FS)
    requires Carries(e, b) && CarriedThrough(e) && Stops(fs, ChangesFor(b.rootPrefix, b.diffs, b.disk), e.pushed, g)
    ensures ApplyAll(fs, ChangesFor(b.rootPrefix, b.diffs, b.disk)) == Some(g)
  {
    hide ApplyAll, WellFormed, Beside;
    var cs := ChangesFor(b.rootPrefix, b.diffs, b.disk);
    assert cs[..|cs|] == cs;
  }

  /** The push loop: root after root, stopping at the first that fails. Short of a fault it gets through
      exactly if every push in turn can succeed. */
  method PushAll(db: SnapshotTable, host: Host, server: string, user: string, ruleType: string, batches: seq<RootDiffs>)
    returns (failure: Option<SyncError>, ghost run: seq<Push>, ghost fault: bool)
    requires host.Idle() && host.policy.minKeep >= 1 && AllBatchesSendable(batches)
    requires ArchiveKeys(View(db.rows, server, user))
    modifies db, host`datasets, host.datasets.Values
    ensures host.Idle() && OthersSame(old(db.rows), db.rows, server, user)
    ensures forall u :: u in old(host.datasets) ==> u in host.datasets && host.datasets[u] == old(host.datasets[u])
    ensures forall u :: u in host.datasets && u !in old(host.datasets) ==> u == user && fresh(host.datasets[u])
    ensures forall u :: u in old(host.datasets) && u != user ==> unchanged(old(host.datasets[u]))
    ensures Ran(run, batches, failure.None?) && SizedRun(run)
    ensures failure.Some? ==> run != [] && FailedAt(failure.value, run[|run| - 1])
    ensures failure.None? ==> AllPass(old(TreeOnServer(host, user)), user, ruleType, batches)
    ensures failure.Some? && !fault ==> !AllPass(old(TreeOnServer(host, user)), user, ruleType, batches)
    ensures ReplicaOf(db, host, server, user) == RunAfter(old(ReplicaOf(db, host, server, user)), run)
    ensures RunLeftNew(old(ReplicaOf(db, host, server, user)), run)
    ensures ArchiveKeys(ReplicaOf(db, host, server, user).index)
  {
    hide *;
    ghost var r := ReplicaOf(db, host, server, user);
    ghost var tree := TreeOnServer(host, user);
    run, failure, fault := [], None, false;
    AllPassStart(tree, user, ruleType, batches);
    RanNothing(batches);
    RanSized([], batches, false);
    RunAfterNothing(r);
    RunLeftNothing(r);
    ReplicaIs(db, host, server, user);
    OthersStart(db.rows, server, user);
    var n := 0;
    while n < |batches| && failure.None?
      invariant 0 <= n <= |batches|
      invariant host.Idle() && OthersSame(old(db.rows), db.rows, server, user)
      invariant forall u :: u in old(host.datasets) ==> u in host.datasets && host.datasets[u] == old(host.datasets[u])
      invariant forall u :: u in host.datasets && u !in old(host.datasets) ==> u == user && fresh(host.datasets[u])
      invariant forall u :: u in old(host.datasets) && u != user ==> unchanged(old(host.datasets[u]))
      invariant if failure.None? then |run| == n && Ran(run, batches[..n], true) else Ran(run, batches, false)
      invariant failure.Some? ==> run != [] && FailedAt(failure.value, run[|run| - 1])
      invariant failure.None? ==>
        AllPass(tree, user, ruleType, batches[..n]) &&
        TreeThrough(tree, batches[..n]) == Some(TreeOnServer(host, user))
      invariant failure.Some? && !fault ==> !AllPass(tree, user, ruleType, batches)
      invariant SizedRun(run) && ReplicaOf(db, host, server, user) == RunAfter(r, run) && RunLeftNew(r, run)
      invariant ArchiveKeys(ReplicaOf(db, host, server, user).index)
      decreases |batches| - n, failure.None?
    {
      ghost var before, rows := ReplicaOf(db, host, server, user), db.rows;
      var ok, error;
      ghost var e;
      ghost var mid := TreeOnServer(host, user);
      SendableAt(batches, n);
      AllPassMore(tree, user, ruleType, batches, n, mid);
      ok, error, e, fault := PushAndRecord(db, host, server, PushConfig(user, ruleType, batches[n].rootPrefix),
        batches[n]);
      RanMore(run, batches, e);
      RanSized(run + [e], batches, false);
      RunAfterMore(r, run, e);
      CarriesBounds(e, batches[n]);
      RunLeftMore(r, run, e);
      StepKeepsArchive(before, e, batches[n]);
      OthersTransitive(old(db.rows), rows, db.rows, server, user);
      run := run + [e];
      if ok {
        StoppedAtEnd(mid, batches[n], e, TreeOnServer(host, user));
        n := n + 1;
      } else {
        if AllPass(tree, user, ruleType, batches) { AllPassPrefix(tree, user, ruleType, batches, n + 1); }
        failure := Some(error);
      }
    }
    assert batches[..|batches|] == batches;
  }

  lemma {:induction false} CarriesBounds(e: Push, b: RootDiffs)
    requires Carries(e, b)
    ensures e.pushed <= |e.files| && e.recorded <= |e.rows|
  {}

  lemma {:induction false} RunAfterNothing(r: Replica)
    ensures RunAfter(r, []) == r
  {}

  lemma {:induction false} SendableAt(batches: seq<RootDiffs>, n: nat)
    requires AllBatchesSendable(batches) && n < |batches|
    ensures BatchSendable(batches[n])
  {}

  lemma {:induction false} OthersStart(rows: map<Key, Meta>, server: string, user: string)
    ensures OthersSame(rows, rows, server, user)
  {}

  lemma {:induction false} OthersTransitive(a: map<Key, Meta>, b: map<Key, Meta>, c: map<Key, Meta>, server: string,
                                            user: string)
    requires OthersSame(a, b, server, user) && OthersSame(b, c, server, user)
    ensures OthersSame(a, c, server, user)
  {
    forall k: Key | k.server != server || k.user != user ensures Lookup(a, k) == Lookup(c, k) {
      assert Lookup(a, k) == Lookup(b, k);
    }
  }

  lemma {:induction false} NonEmptyFrom(plans: seq<RootDiffs>, j: nat) returns (i: nat)
    requires j < |NonEmpty(plans)|
    ensures i < |plans| && plans[i] == NonEmpty(plans)[j] && plans[i].diffs != []
    decreases |plans|
  {
    var before := plans[..|plans| - 1];
    if j < |NonEmpty(before)| { i := NonEmptyFrom(before, j); } else { i := |before|; }
  }

  /** Batches keep the order of the roots. */
  lemma {:induction false} NonEmptyOrdered(plans: seq<RootDiffs>, j: nat, l: nat) returns (i: nat, t: nat)
    requires j < l < |NonEmpty(plans)|
    ensures i < t < |plans| && plans[i] == NonEmpty(plans)[j] && plans[t] == NonEmpty(plans)[l]
    decreases |plans|
  {
    var before := plans[..|plans| - 1];
    if l < |NonEmpty(before)| {
      i, t := NonEmptyOrdered(before, j, l);
    } else {
      i := NonEmptyFrom(before, j);
      t := |before|;
    }
  }

  lemma {:induction false} NonEmptyAt(plans: seq<RootDiffs>, i: nat) returns (j: nat)
    requires i < |plans| && plans[i].diffs != []
    ensures j < |NonEmpty(plans)| && NonEmpty(plans)[j] == plans[i]
    decreases |plans|
  {
    var before := plans[..|plans| - 1];
    if i < |before| { j := NonEmptyAt(before, i); } else { j := |NonEmpty(before)|; }
  }

  /** Every scanned name is an archive path below the root's prefix. */
  lemma {:induction false} ScanKeys(index: map<string, Meta>, cwd: string, root: Root, fm: NameMatch, digest: Digest,
                                    plan: RootDiffs)
    requires IsAbs(cwd) && Planned(index, cwd, root, fm, digest, plan)
    ensures IsArchivePath(plan.rootPrefix)
    ensures var scan := ScanOfRoot(plan.rootPrefix, root, fm, digest);
      ArchiveKeys(scan) && forall p :: p in scan ==> scan[p].path == p && InScope(p, plan.rootPrefix)
  {
    hide IsDiff, Errors, Files, IsArchivePath, ArchiveRootPrefix, ValidRelative, ArchivePath, PathInRoot, Components,
         ScanMap;
    var prefix, files := plan.rootPrefix, Found(root, fm, digest);
    RootPrefixIsArchivePath(cwd, root.path);
    var named := Archived(prefix, files);
    ScanMapKeys(named);
    forall p | p in ScanMap(named) ensures IsArchivePath(p) && InScope(p, prefix) {
      var i :| 0 <= i < |named| && named[i] == ScanMap(named)[p];
      assert files[i] in files;
      ArchivePathComponents(prefix, files[i].path);
      PathInRootIff(p, prefix);
      assert prefix + "/" <= p;
    }
  }

  lemma {:induction false} PlansSendable(index: map<string, Meta>, cwd: string, roots: seq<Root>, fm: NameMatch,
                                         digest: Digest, plans: seq<RootDiffs>)
    requires IsAbs(cwd) && AllPlanned(index, cwd, roots, fm, digest, plans) && ArchiveKeys(index)
    ensures AllBatchesSendable(NonEmpty(plans))
  {
    hide ScanOfRoot, ArchiveKeys, NonEmpty, Errors;
    forall j | 0 <= j < |NonEmpty(plans)| ensures BatchSendable(NonEmpty(plans)[j]) {
      var i := NonEmptyFrom(plans, j);
      var plan := plans[i];
      ScanKeys(index, cwd, roots[i], fm, digest, plan);
      DiffsSendable(plan.diffs, index, ScanOfRoot(plan.rootPrefix, roots[i], fm, digest), plan.rootPrefix, plan.disk);
    }
  }

  /** One attempt, if the server can be reached. On every exit the table, the dataset and the newest snapshot
      are what a run of pushes makes of them, one for each difference in order, each recorded only after its
      snapshot; on success every push was carried through and recorded. A failure before the first push is
      remote exactly if the server was not reached, and permanent for the reasons a root cannot be planned; a
      later one is permanent only if a row could not be written. Short of a fault an attempt that reaches the
      server succeeds exactly if every root can be planned and every push in turn can succeed. Nothing of other
      servers or users changes. */
  method SyncToServer(db: SnapshotTable, host: Host, server: string, user: string, ruleType: string, cwd: string,
                      roots: seq<Root>, fm: NameMatch, digest: Digest)
    returns (failure: Option<SyncError>, ghost plans: seq<RootDiffs>, ghost run: seq<Push>, ghost reached: bool,
             ghost fault: bool)
    requires host.Idle() && host.policy.minKeep >= 1 && IsAbs(cwd) && ArchiveKeys(View(db.rows, server, user))
    modifies db, host`datasets, host.datasets.Values
    ensures host.Idle() && OthersSame(old(db.rows), db.rows, server, user)
    ensures forall u :: u in old(host.datasets) ==> u in host.datasets && host.datasets[u] == old(host.datasets[u])
    ensures forall u :: u in host.datasets && u !in old(host.datasets) ==> u == user && fresh(host.datasets[u])
    ensures forall u :: u in old(host.datasets) && u != user ==> unchanged(old(host.datasets[u]))
    ensures run != [] || failure.None? ==> AllPlanned(old(View(db.rows, server, user)), cwd, roots, fm, digest, plans)
    ensures Ran(run, NonEmpty(plans), failure.None?) && SizedRun(run)
    ensures failure.None? ==> reached
    ensures failure.Some? && run == [] ==> (failure.value == Permanent <==> reached)
    ensures failure == Some(Permanent) && run == [] ==>
      fault || exists root :: root in roots && CannotPlan(root, fm, digest)
    ensures failure.Some? && run != [] ==> FailedAt(failure.value, run[|run| - 1])
    ensures failure.None? ==> AllPass(old(TreeOnServer(host, user)), user, ruleType, NonEmpty(plans))
    ensures failure.Some? && reached && !fault ==>
      || (exists root :: root in roots && CannotPlan(root, fm, digest))
      || (AllPlanned(old(View(db.rows, server, user)), cwd, roots, fm, digest, plans) &&
            !AllPass(old(TreeOnServer(host, user)), user, ruleType, NonEmpty(plans)))
    ensures ReplicaOf(db, host, server, user) == RunAfter(old(ReplicaOf(db, host, server, user)), run)
    ensures RunLeftNew(old(ReplicaOf(db, host, server, user)), run)
    ensures ArchiveKeys(View(db.rows, server, user))
  {
    hide *;
    ghost var r := ReplicaOf(db, host, server, user);
    run, failure, plans := [], None, [];
    RunAfterNothing(r);
    RunLeftNothing(r);
    OthersStart(db.rows, server, user);
    var batches: Result<seq<RootDiffs>, SyncError> := Err(Remote);
    var connected: bool := *;
    reached, fault := connected, false;
    if connected { batches, plans, fault := PlanRoots(db, server, user, cwd, roots, fm, digest); }
    RanNothing(NonEmpty(plans));
    RanSized([], NonEmpty(plans), false);
    if batches.Err? {
      failure := Some(batches.error);
    } else {
      PlansSendable(View(db.rows, server, user), cwd, roots, fm, digest, plans);
      failure, run, fault := PushAll(db, host, server, user, ruleType, batches.value);
      ReplicaIs(db, host, server, user);
    }
  }
}
