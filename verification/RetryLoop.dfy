/** The retry loop around an attempt, and what holds over all its attempts together. */
module RetryLoop {
  import opened Model
  import opened Paths
  import opened Namespacing
  import opened Patches
  import opened Index
  import opened Diff
  import opened BackupServer
  import opened Protocol
  import opened Glob
  import opened Scan
  import opened Sync
  import opened EndToEnd
  import opened RestoreMachine
  import opened RestoreStream
  import opened Backoff

  /** One attempt: the differences it planned, the pushes it ran, and how it ended: with what failure, and
      whether that was classified as one that may pass. */
  datatype Attempt = Attempt(plans: seq<RootDiffs>, run: seq<Push>, failure: Option<SyncError>, retryable: bool)

  /** An attempt after which another one is worth while: it failed, not for good, and in a way that may pass. */
  predicate MayPass(a: Attempt) { a.failure == Some(Remote) && a.retryable }

  ghost predicate SizedLog(log: seq<Attempt>) {
    forall k :: 0 <= k < |log| ==> SizedRun(log[k].run)
  }

  function StateAfter(r: Replica, log: seq<Attempt>): Replica
    requires SizedLog(log)
    decreases |log|
  {
    if log == [] then r else RunAfter(StateAfter(r, log[..|log| - 1]), log[|log| - 1].run)
  }

  function DirtyAfterAll(dirty: set<string>, log: seq<Attempt>): set<string>
    requires SizedLog(log)
    decreases |log|
  {
    if log == [] then dirty else RunDirty(DirtyAfterAll(dirty, log[..|log| - 1]), log[|log| - 1].run)
  }

  /** What the attempts see of the roots: attempt k scans seen(k). */
  type Views = nat -> seq<Root>

  /** One attempt from a state: planned against the table as it is, and run in order; the whole way if it did
      not fail. A permanent failure of a push is a row that could not be written. */
  ghost predicate Follows(r: Replica, cwd: string, roots: seq<Root>, fm: NameMatch, digest: Digest, a: Attempt) {
    && (a.run != [] || a.failure.None? ==> AllPlanned(r.index, cwd, roots, fm, digest, a.plans))
    && Ran(a.run, NonEmpty(a.plans), a.failure.None?) && SizedRun(a.run) && RunLeftNew(r, a.run)
    && (a.failure.Some? && a.run != [] ==> FailedAt(a.failure.value, a.run[|a.run| - 1]))
  }

  /** The temporary files that stayed in any of the attempts. */
  function LogLitter(log: seq<Attempt>): set<string> {
    set k, q | 0 <= k < |log| && q in RunLitter(log[k].run) :: q
  }

  /** Each attempt starts from what the one before left. */
  ghost predicate ValidLog(r: Replica, cwd: string, seen: Views, fm: NameMatch, digest: Digest, log: seq<Attempt>)
    requires SizedLog(log)
  {
    forall k :: 0 <= k < |log| ==> Follows(StateAfter(r, log[..k]), cwd, seen(k), fm, digest, log[k])
  }

  lemma {:induction false} LogMore(r: Replica, cwd: string, seen: Views, fm: NameMatch, digest: Digest,
                                   log: seq<Attempt>, a: Attempt)
    requires SizedLog(log) && ValidLog(r, cwd, seen, fm, digest, log)
    requires Follows(StateAfter(r, log), cwd, seen(|log|), fm, digest, a)
    ensures SizedLog(log + [a]) && ValidLog(r, cwd, seen, fm, digest, log + [a])
    ensures StateAfter(r, log + [a]) == RunAfter(StateAfter(r, log), a.run)
  {
    hide AllPlanned, Ran, SizedRun, RunAfter, RunLeftNew, FailedAt;
    var more := log + [a];
    forall k | 0 <= k < |more| ensures SizedRun(more[k].run) {}
    assert more[..|log|] == log;
    forall k | 0 <= k < |more| ensures Follows(StateAfter(r, more[..k]), cwd, seen(k), fm, digest, more[k]) {
      if k < |log| {
        assert more[..k] == log[..k];
      } else {
        assert more[..k] == log;
      }
    }
  }

  lemma {:induction false} LogStart(r: Replica, cwd: string, seen: Views, fm: NameMatch, digest: Digest)
    ensures SizedLog([]) && ValidLog(r, cwd, seen, fm, digest, []) && StateAfter(r, []) == r
  {}

  /** The last attempt of the log went all the way through. */
  predicate Succeeded(log: seq<Attempt>) { log != [] && log[|log| - 1].failure.None? }

  method Random() returns (u: real)
    ensures 0.0 <= u < 1.0
  {
    u := *;
    if u < 0.0 || u >= 1.0 { u := 0.0; }
  }

  lemma {:induction false} FollowsIs(r: Replica, cwd: string, roots: seq<Root>, fm: NameMatch, digest: Digest,
                                     a: Attempt)
    requires a.run != [] || a.failure.None? ==> AllPlanned(r.index, cwd, roots, fm, digest, a.plans)
    requires Ran(a.run, NonEmpty(a.plans), a.failure.None?) && SizedRun(a.run) && RunLeftNew(r, a.run)
    requires a.failure.Some? && a.run != [] ==> FailedAt(a.failure.value, a.run[|a.run| - 1])
    ensures Follows(r, cwd, roots, fm, digest, a)
  {}

  /** The state is the outcome of the attempts so far. */
  ghost predicate Steps(db: SnapshotTable, host: Host, server: string, user: string, r: Replica, cwd: string,
                        seen: Views, fm: NameMatch, digest: Digest, log: seq<Attempt>)
    reads db, host, host.datasets.Values
  {
    && host.Idle() && ArchiveKeys(View(db.rows, server, user))
    && SizedLog(log) && ValidLog(r, cwd, seen, fm, digest, log)
    && ReplicaOf(db, host, server, user) == StateAfter(r, log)
  }

  /** One more attempt. How it failed, if it did, says whether it may pass. */
  method Try(db: SnapshotTable, host: Host, server: string, user: string, ruleType: string, cwd: string,
             seen: Views, fm: NameMatch, digest: Digest, attempts: nat, ghost r: Replica, ghost log: seq<Attempt>)
    returns (failure: Option<SyncError>, retryable: bool, ghost a: Attempt, ghost reached: bool, ghost fault: bool)
    requires Steps(db, host, server, user, r, cwd, seen, fm, digest, log) && |log| == attempts
    requires host.policy.minKeep >= 1 && IsAbs(cwd)
    modifies db, host`datasets, host.datasets.Values
    ensures Steps(db, host, server, user, r, cwd, seen, fm, digest, log + [a])
    ensures a.failure == failure && a.retryable == retryable
    ensures Explained(a, seen(attempts), fm, digest, reached, fault)
    ensures OthersSame(old(db.rows), db.rows, server, user)
    ensures forall u :: u in old(host.datasets) ==> u in host.datasets && host.datasets[u] == old(host.datasets[u])
    ensures forall u :: u in host.datasets && u !in old(host.datasets) ==> u == user && fresh(host.datasets[u])
    ensures forall u :: u in old(host.datasets) && u != user ==> unchanged(old(host.datasets[u]))
  {
    hide Follows, ValidLog, StateAfter, ArchiveKeys, OthersSame, View, LiveOf, SnapOf, FailedAt, CannotPlan, Ran,
         SizedRun, RunAfter, RunLeftNew, AllPlanned, NonEmpty;
    ghost var before := ReplicaOf(db, host, server, user);
    ghost var plans, run;
    failure, plans, run, reached, fault := SyncToServer(db, host, server, user, ruleType, cwd, seen(attempts), fm,
      digest);
    retryable := *;
    a := Attempt(plans, run, failure, retryable);
    FollowsIs(before, cwd, seen(attempts), fm, digest, a);
    LogMore(r, cwd, seen, fm, digest, log, a);
  }

  /** An attempt that pushed nothing failed remotely exactly if it did not reach the server; if it did, some
      root could not be planned or the database failed. */
  ghost predicate Explained(a: Attempt, roots: seq<Root>, fm: NameMatch, digest: Digest, reached: bool, fault: bool) {
    a.run == [] && a.failure.Some? ==>
      && (a.failure.value == Remote <==> !reached)
      && (reached ==> fault || exists root :: root in roots && CannotPlan(root, fm, digest))
  }

  /** There is no time for another delay after those given: it is used up, or the next one would not fit or
      is cut down to nothing. */
  ghost predicate NoRoom(cfg: Config, given: seq<int>) {
    Sum(given) >= cfg.maxElapsed ||
    exists u :: 0.0 <= u < 1.0 &&
      (Sum(given) + DelayOf(cfg, |given|, u) > cfg.maxElapsed || DelayOf(cfg, |given|, u) == 0)
  }

  /** Delay n is one the configuration draws for attempt n. */
  ghost predicate Drawn(cfg: Config, n: nat, d: int) {
    exists u :: 0.0 <= u < 1.0 && d == DelayOf(cfg, n, u)
  }

  /** Asks for the next delay and sleeps for it; no delay means there is no room for another attempt. */
  method Pause(backoff: Delays) returns (again: bool)
    requires backoff.Valid() && backoff.attempt == |backoff.given|
    modifies backoff
    ensures backoff.Valid() && 0 <= backoff.elapsed <= backoff.cfg.maxElapsed
    ensures again ==>
      |backoff.given| == |old(backoff.given)| + 1 && backoff.given[..|old(backoff.given)|] == old(backoff.given)
    ensures again ==>
      backoff.elapsed > old(backoff.elapsed) && backoff.attempt == |backoff.given| &&
      Drawn(backoff.cfg, |old(backoff.given)|, backoff.given[|old(backoff.given)|])
    ensures !again ==> backoff.given == old(backoff.given) && NoRoom(backoff.cfg, backoff.given)
  {
    hide DelayOf, Sum;
    var u := Random();
    var delay := backoff.Next(u);
    again := delay > 0;
  }

  /** One turn: an attempt, and after a failure that may pass, a pause. */
  method Turn(db: SnapshotTable, host: Host, server: string, user: string, ruleType: string, cwd: string, seen: Views,
              fm: NameMatch, digest: Digest, backoff: Delays, attempts: nat, ghost r: Replica, ghost log: seq<Attempt>)
    returns (ok: bool, again: bool, ghost a: Attempt, ghost reached: bool, ghost fault: bool)
    requires Steps(db, host, server, user, r, cwd, seen, fm, digest, log) && |log| == attempts
    requires host.policy.minKeep >= 1 && IsAbs(cwd) && backoff.Valid() && backoff.attempt == |backoff.given|
    modifies db, host`datasets, host.datasets.Values, backoff
    ensures Steps(db, host, server, user, r, cwd, seen, fm, digest, log + [a])
    ensures Explained(a, seen(attempts), fm, digest, reached, fault)
    ensures OthersSame(old(db.rows), db.rows, server, user)
    ensures forall u :: u in old(host.datasets) ==> u in host.datasets && host.datasets[u] == old(host.datasets[u])
    ensures forall u :: u in host.datasets && u !in old(host.datasets) ==> u == user && fresh(host.datasets[u])
    ensures forall u :: u in old(host.datasets) && u != user ==> unchanged(old(host.datasets[u]))
    ensures ok <==> a.failure.None?
    ensures backoff.Valid() && (again ==> old(backoff.elapsed) < backoff.elapsed <= backoff.cfg.maxElapsed)
    ensures again ==> MayPass(a) && backoff.attempt == |backoff.given|
    ensures again ==>
      |backoff.given| == |old(backoff.given)| + 1 && backoff.given[..|old(backoff.given)|] == old(backoff.given) &&
      Drawn(backoff.cfg, |old(backoff.given)|, backoff.given[|old(backoff.given)|])
    ensures !again ==> backoff.given == old(backoff.given) && (MayPass(a) ==> NoRoom(backoff.cfg, backoff.given))
  {
    MayPassIs();
    hide *;
    var failure, retryable;
    failure, retryable, a, reached, fault := Try(db, host, server, user, ruleType, cwd, seen, fm, digest, attempts, r,
      log);
    ok := failure.None?;
    again := failure == Some(Remote) && retryable;
    if again { again := Pause(backoff); }
  }

  lemma {:induction false} MayPassIs()
    ensures forall a :: MayPass(a) <==> a.failure == Some(Remote) && a.retryable
  {}

  lemma {:induction false} StepsStart(db: SnapshotTable, host: Host, server: string, user: string, r: Replica,
                                      cwd: string, seen: Views, fm: NameMatch, digest: Digest)
    requires host.Idle() && ArchiveKeys(View(db.rows, server, user)) && r == ReplicaOf(db, host, server, user)
    ensures Steps(db, host, server, user, r, cwd, seen, fm, digest, []) && SizedLog([])
  {
    LogStart(r, cwd, seen, fm, digest);
  }

  /** Every attempt but the last failed in a way that may pass, and was followed by a delay drawn for it. */
  ghost predicate Repeated(cfg: Config, log: seq<Attempt>, given: seq<int>) {
    && |given| <= |log|
    && (forall k :: 0 <= k < |given| ==> MayPass(log[k]) && Drawn(cfg, k, given[k]))
  }

  lemma {:induction false} RepeatedMore(cfg: Config, log: seq<Attempt>, given: seq<int>, a: Attempt, more: seq<int>)
    requires Repeated(cfg, log, given) && |given| == |log|
    requires more == given ||
      (|more| == |given| + 1 && more[..|given|] == given && MayPass(a) && Drawn(cfg, |given|, more[|given|]))
    ensures Repeated(cfg, log + [a], more)
  {
    hide Drawn, MayPass;
    forall k | 0 <= k < |more| ensures MayPass((log + [a])[k]) && Drawn(cfg, k, more[k]) {
      if k < |given| { assert more[k] == more[..|given|][k] == given[k]; }
    }
  }

  /** The loop of one server: attempt, classify the failure, wait, try again. On every exit the state is the
      outcome of its attempts one after another. It retries exactly as long as it should: every attempt but
      the last failed in a way that may pass, and without success it ends only on a failure that does not, or
      when there is no room for another delay. It makes at most one more attempt than the time limit has room
      for least delays. */
  method SyncToServerWithRetry(db: SnapshotTable, host: Host, server: string, user: string, ruleType: string,
                               cwd: string, seen: Views, fm: NameMatch, digest: Digest, cfg: Config)
    returns (ok: bool, attempts: nat, ghost log: seq<Attempt>, ghost given: seq<int>, ghost reached: bool,
             ghost fault: bool)
    requires host.Idle() && host.policy.minKeep >= 1 && IsAbs(cwd) && Validated(cfg)
    requires ArchiveKeys(View(db.rows, server, user))
    modifies db, host`datasets, host.datasets.Values
    ensures OthersSame(old(db.rows), db.rows, server, user)
    ensures forall u :: u in old(host.datasets) && u != user ==> u in host.datasets && unchanged(old(host.datasets[u]))
    ensures Steps(db, host, server, user, old(ReplicaOf(db, host, server, user)), cwd, seen, fm, digest, log)
    ensures |log| == attempts && attempts == |given| + 1 && Repeated(cfg, log, given)
    ensures Explained(log[attempts - 1], seen(attempts - 1), fm, digest, reached, fault)
    ensures ok <==> Succeeded(log)
    ensures !ok ==> !MayPass(log[attempts - 1]) || NoRoom(cfg, given)
    ensures attempts <= 1 + cfg.maxElapsed
    ensures LeastDelay(cfg) > 0 ==> attempts <= 1 + cfg.maxElapsed / LeastDelay(cfg)
  {
    MayPassIs();
    hide *;
    ghost var r := ReplicaOf(db, host, server, user);
    var backoff := new Delays(cfg);
    ok, attempts, log, given, reached, fault := false, 0, [], [], false, false;
    OthersStart(db.rows, server, user);
    StepsStart(db, host, server, user, r, cwd, seen, fm, digest);
    NotRepeated(cfg);
    var again := true;
    while again
      invariant Steps(db, host, server, user, r, cwd, seen, fm, digest, log) && |log| == attempts
      invariant OthersSame(old(db.rows), db.rows, server, user)
      invariant forall u :: u in old(host.datasets) ==> u in host.datasets && host.datasets[u] == old(host.datasets[u])
      invariant forall u :: u in host.datasets && u !in old(host.datasets) ==> u == user && fresh(host.datasets[u])
      invariant forall u :: u in old(host.datasets) && u != user ==> unchanged(old(host.datasets[u]))
      invariant fresh(backoff) && backoff.Valid() && backoff.cfg == cfg && given == backoff.given
      invariant attempts == |given| + (if again then 0 else 1) && Repeated(cfg, log, given)
      invariant if again then backoff.attempt == |given| else
        Explained(log[attempts - 1], seen(attempts - 1), fm, digest, reached, fault)
      invariant !again ==>
        (ok <==> log[attempts - 1].failure.None?) && (!ok ==> !MayPass(log[attempts - 1]) || NoRoom(cfg, given))
      decreases again, cfg.maxElapsed - backoff.elapsed
    {
      ghost var rows, a := db.rows, *;
      ok, again, a, reached, fault := Turn(db, host, server, user, ruleType, cwd, seen, fm, digest, backoff, attempts,
        r, log);
      OthersTransitive(old(db.rows), rows, db.rows, server, user);
      RepeatedMore(cfg, log, given, a, backoff.given);
      given, log, attempts := backoff.given, log + [a], attempts + 1;
    }
    SucceededIs(log);
    backoff.GivenBounded();
  }

  lemma {:induction false} NotRepeated(cfg: Config)
    ensures Repeated(cfg, [], [])
  {}

  lemma {:induction false} SucceededIs(log: seq<Attempt>)
    requires log != []
    ensures Succeeded(log) <==> log[|log| - 1].failure.None?
  {}

  // ---- agreement over all attempts -----------------------------------------------------------

  lemma {:induction false} LogStep(r: Replica, dirty: set<string>, log: seq<Attempt>, n: nat)
    requires SizedLog(log) && n < |log|
    ensures SizedLog(log[..n]) && SizedLog(log[..n + 1]) && SizedRun(log[n].run)
    ensures StateAfter(r, log[..n + 1]) == RunAfter(StateAfter(r, log[..n]), log[n].run)
    ensures DirtyAfterAll(dirty, log[..n + 1]) == RunDirty(DirtyAfterAll(dirty, log[..n]), log[n].run)
  {
    assert log[..n + 1][..n] == log[..n];
  }

  lemma {:induction false} RunNothing(r: Replica, dirty: set<string>)
    ensures RunAfter(r, []) == r && RunDirty(dirty, []) == dirty
  {}

  /** Whole-run agreement: whatever the attempts find, and wherever each of them stops, table, dataset
      and newest snapshot agree outside the paths that some push made visible and none recorded since. */
  lemma {:induction false} LogAgrees(r: Replica, cwd: string, seen: Views, fm: NameMatch, digest: Digest,
                                     log: seq<Attempt>, dirty: set<string>, n: nat)
    requires IsAbs(cwd) && SizedLog(log) && ValidLog(r, cwd, seen, fm, digest, log) && n <= |log| && SizedLog(log[..n])
    requires forall k :: 0 <= k < |log| ==> AllSteady(seen(k), fm)
    requires AgreeOutside(digest, r, dirty)
    ensures AgreeOutside(digest, StateAfter(r, log[..n]), DirtyAfterAll(dirty, log[..n]))
    decreases n
  {
    hide AgreeOutside, RunAfter, RunDirty, AllPlanned, Ran, SizedRun, AllSteady, NonEmpty, FailedAt, RunLeftNew;
    if n == 0 {
      assert log[..0] == [];
    } else {
      LogStep(r, dirty, log, n - 1);
      LogAgrees(r, cwd, seen, fm, digest, log, dirty, n - 1);
      var before, a, was := StateAfter(r, log[..n - 1]), log[n - 1], DirtyAfterAll(dirty, log[..n - 1]);
      if a.run == [] {
        RunNothing(before, was);
      } else {
        AttemptAgrees(before.index, cwd, seen(n - 1), fm, digest, a.plans, a.run, a.failure.None?, before, was);
      }
    }
  }

  // ---- retries of an unchanged tree ----------------------------------------------------------

  /** Either the three agree at p, or the table still differs from the scan there, so that the next
      difference names p. */
  ghost predicate Pending(digest: Digest, r: Replica, scan: map<string, FileInfo>, p: string) {
    AgreeAt(digest, r, p) || Lookup(r.index, p) != ScanMeta(scan, p)
  }

  /** One push of the root that p belongs to, wherever it stopped. */
  lemma {:induction false} OwnPushPends(digest: Digest, r: Replica, e: Push, diffs: seq<FileDiff>,
                                        index: map<string, Meta>, scan: map<string, FileInfo>, prefix: string,
                                        p: string)
    requires ValidPush(digest, e) && e.rows == IndexEdits(diffs) && IsDiff(diffs, index, scan, prefix)
    requires forall q :: q in scan ==> scan[q].path == q && InScope(q, prefix)
    requires p in Named(diffs) && Lookup(r.index, p) == Lookup(index, p)
    ensures Pending(digest, After(r, e), scan, p)
  {
    hide AgreeAt, InScope, ValidPush, After, IsDiff;
    NamedExactly(diffs, index, scan, prefix, p);
    Bounded(digest, e);
    if p in PathsIn(e.rows[..e.recorded]) {
      RecordedAgrees(digest, r, e, p);
    } else {
      IndexKept(r, e, p);
    }
  }

  lemma {:induction false} Bounded(digest: Digest, e: Push)
    requires ValidPush(digest, e)
    ensures e.pushed <= |e.files| && e.recorded <= |e.rows| && |e.rows| == |e.files|
  {}

  lemma {:induction false} IndexKept(r: Replica, e: Push, p: string)
    requires e.pushed <= |e.files| && e.recorded <= |e.rows| && p !in PathsIn(e.rows[..e.recorded])
    ensures Lookup(After(r, e).index, p) == Lookup(r.index, p)
  {
    PathsTouched(e.rows[..e.recorded], p);
    ApplyUntouched(r.index, e.rows[..e.recorded], p);
  }

  /** One push of another root. */
  lemma {:induction false} OtherPushPends(digest: Digest, r: Replica, e: Push, diffs: seq<FileDiff>,
                                          scan: map<string, FileInfo>, p: string)
    requires ValidPush(digest, e) && e.rows == IndexEdits(diffs) && p !in Named(diffs)
    requires e.pushed <= |e.files| && LeftIsNew(r, e) && (p in scan || p !in e.left)
    ensures Lookup(After(r, e).index, p) == Lookup(r.index, p)
    ensures Pending(digest, r, scan, p) ==> Pending(digest, After(r, e), scan, p)
  {
    hide After, Describes, LeftIsNew;
    forall i | 0 <= i < |e.rows| ensures e.rows[i].path != p && e.files[i].path != p {
      assert diffs[i].file.path in Named(diffs);
    }
    assert p !in PathsIn(e.files[..e.pushed]) && p !in PathsIn(e.rows[..e.recorded]);
    if p !in e.left {
      UntouchedKeeps(digest, r, e, p);
    } else {
      IndexKept(r, e, p);
      LeftWasNot(r, e, p);
    }
  }

  /** Where a temporary file stayed and nothing was pushed, nothing was stored before. */
  lemma {:induction false} LeftWasNot(r: Replica, e: Push, p: string)
    requires e.pushed <= |e.files| && LeftIsNew(r, e) && p in e.left && p !in PathsIn(e.files[..e.pushed])
    ensures p !in r.live
  {
    PathsTouched(e.files[..e.pushed], p);
    ApplyUntouched(r.live, e.files[..e.pushed], p);
  }

  ghost predicate FirstNamed(batches: seq<RootDiffs>, n: nat, p: string)
    requires n < |batches|
  {
    p in Named(batches[n].diffs) ==> !NamedBefore(batches, n, p)
  }

  /** A path below a root is named by at most one batch. */
  lemma {:induction false} NamedOnce(index: map<string, Meta>, cwd: string, roots: seq<Root>, fm: NameMatch,
                                     digest: Digest, plans: seq<RootDiffs>, i: nat, n: nat, p: string)
    requires IsAbs(cwd) && AllPlanned(index, cwd, roots, fm, digest, plans) && Hypotheses(roots, fm, plans)
    requires i < |plans|
    requires PathInRoot(p, plans[i].rootPrefix) && n < |NonEmpty(plans)|
    ensures FirstNamed(NonEmpty(plans), n, p)
  {
    hide AllPlanned, NonEmpty, PathInRoot, Named, AllSteady;
    if p in Named(NonEmpty(plans)[n].diffs) && NamedBefore(NonEmpty(plans), n, p) {
      var j :| 0 <= j < n && p in Named(NonEmpty(plans)[j].diffs);
      OnlyOwnRoot(index, cwd, roots, fm, digest, plans, i, j, p);
      OnlyOwnRoot(index, cwd, roots, fm, digest, plans, i, n, p);
      var a, b := NonEmptyOrdered(plans, j, n);
      assert false;
    }
  }

  /** Through one attempt, wherever it stopped. */
  lemma {:induction false} AttemptPends(cwd: string, roots: seq<Root>, fm: NameMatch, digest: Digest,
                                        plans: seq<RootDiffs>, i: nat, p: string, r: Replica, run: seq<Push>,
                                        done: bool, n: nat)
    requires IsAbs(cwd) && AllPlanned(r.index, cwd, roots, fm, digest, plans) && Hypotheses(roots, fm, plans)
    requires i < |plans|
    requires PathInRoot(p, plans[i].rootPrefix)
    requires Ran(run, NonEmpty(plans), done) && SizedRun(run) && n <= |run| && SizedRun(run[..n]) && RunLeftNew(r, run)
    requires Pending(digest, r, ScanOfRoot(plans[i].rootPrefix, roots[i], fm, digest), p)
    requires p in ScanOfRoot(plans[i].rootPrefix, roots[i], fm, digest) || p !in RunLitter(run)
    ensures Pending(digest, RunAfter(r, run[..n]), ScanOfRoot(plans[i].rootPrefix, roots[i], fm, digest), p)
    ensures n <= |NonEmpty(plans)|
    ensures (!NamedBefore(NonEmpty(plans), n, p) ==> Lookup(RunAfter(r, run[..n]).index, p) == Lookup(r.index, p))
    decreases n
  {
    hide AllPlanned, Hypotheses, NonEmpty, PathInRoot, Named, ScanOfRoot, After, Carries, CarriedThrough, Pending,
         LeftIsNew;
    if n == 0 {
      assert run[..0] == [];
    } else {
      RunStep(r, run, n - 1);
      AttemptPends(cwd, roots, fm, digest, plans, i, p, r, run, done, n - 1);
      PushPends(r.index, cwd, roots, fm, digest, plans, i, n - 1, p, RunAfter(r, run[..n - 1]), run[n - 1]);
    }
  }

  lemma {:induction false} PushPends(index: map<string, Meta>, cwd: string, roots: seq<Root>, fm: NameMatch,
                                     digest: Digest, plans: seq<RootDiffs>, i: nat, j: nat, p: string, r: Replica,
                                     e: Push)
    requires IsAbs(cwd) && AllPlanned(index, cwd, roots, fm, digest, plans) && Hypotheses(roots, fm, plans)
    requires i < |plans|
    requires PathInRoot(p, plans[i].rootPrefix) && j < |NonEmpty(plans)| && Carries(e, NonEmpty(plans)[j])
    requires Pending(digest, r, ScanOfRoot(plans[i].rootPrefix, roots[i], fm, digest), p)
    requires !NamedBefore(NonEmpty(plans), j, p) ==> Lookup(r.index, p) == Lookup(index, p)
    requires e.pushed <= |e.files| && LeftIsNew(r, e)
    requires p in ScanOfRoot(plans[i].rootPrefix, roots[i], fm, digest) || p !in e.left
    ensures Pending(digest, After(r, e), ScanOfRoot(plans[i].rootPrefix, roots[i], fm, digest), p)
    ensures !NamedBefore(NonEmpty(plans), j + 1, p) ==> Lookup(After(r, e).index, p) == Lookup(index, p)
  {
    hide Steady, NamedTree, NonEmpty, PathInRoot, Named, Errors, ScanOfRoot, Found, ValidPush, IsDiff, After, Pending,
         Carries, CarriedThrough, LeftIsNew;
    var t := NonEmptyFrom(plans, j);
    CarriedIsValid(index, cwd, roots[t], fm, digest, plans[t], e);
    NamedOnce(index, cwd, roots, fm, digest, plans, i, j, p);
    CarriesRows(e, plans[t]);
    if p in Named(NonEmpty(plans)[j].diffs) {
      OnlyOwnRoot(index, cwd, roots, fm, digest, plans, i, j, p);
      ScanKeys(index, cwd, roots[i], fm, digest, plans[i]);
      OwnPushPends(digest, r, e, plans[i].diffs, index, ScanOfRoot(plans[i].rootPrefix, roots[i], fm, digest),
        plans[i].rootPrefix, p);
    } else {
      OtherPushPends(digest, r, e, plans[t].diffs, ScanOfRoot(plans[i].rootPrefix, roots[i], fm, digest), p);
    }
  }

  lemma {:induction false} CarriesRows(e: Push, b: RootDiffs)
    requires Carries(e, b)
    ensures e.rows == IndexEdits(b.diffs)
  {}

  /** No configured root lies inside another. */
  ghost predicate UnrelatedRoots(cwd: string, roots: seq<Root>) {
    forall i, j :: 0 <= i < j < |roots| ==>
      Unrelated(ArchiveRootPrefix(cwd, roots[i].path), ArchiveRootPrefix(cwd, roots[j].path))
  }

  lemma {:induction false} PlansUnrelated(index: map<string, Meta>, cwd: string, roots: seq<Root>, fm: NameMatch,
                                          digest: Digest, plans: seq<RootDiffs>)
    requires AllPlanned(index, cwd, roots, fm, digest, plans) && AllSteady(roots, fm) && UnrelatedRoots(cwd, roots)
    ensures Hypotheses(roots, fm, plans)
    ensures forall i :: 0 <= i < |roots| ==> plans[i].rootPrefix == ArchiveRootPrefix(cwd, roots[i].path)
  {
    hide AllSteady, ArchiveRootPrefix, Unrelated, IsDiff, ScanOfRoot, Errors;
  }

  /** Every attempt sees the same roots, and they meet the hypotheses. */
  ghost predicate Unchanging(seen: Views, roots: seq<Root>, n: nat, cwd: string, fm: NameMatch) {
    && (forall k :: 0 <= k < n ==> seen(k) == roots)
    && AllSteady(roots, fm) && UnrelatedRoots(cwd, roots)
  }

  lemma {:induction false} LogPends(r: Replica, cwd: string, seen: Views, roots: seq<Root>, fm: NameMatch,
                                    digest: Digest, log: seq<Attempt>, i: nat, p: string, n: nat)
    requires IsAbs(cwd) && SizedLog(log) && ValidLog(r, cwd, seen, fm, digest, log) && n <= |log| && SizedLog(log[..n])
    requires Unchanging(seen, roots, |log|, cwd, fm) && i < |roots|
    requires PathInRoot(p, ArchiveRootPrefix(cwd, roots[i].path))
    requires Pending(digest, r, ScanOfRoot(ArchiveRootPrefix(cwd, roots[i].path), roots[i], fm, digest), p)
    requires p in ScanOfRoot(ArchiveRootPrefix(cwd, roots[i].path), roots[i], fm, digest) || p !in LogLitter(log)
    ensures Pending(digest, StateAfter(r, log[..n]),
      ScanOfRoot(ArchiveRootPrefix(cwd, roots[i].path), roots[i], fm, digest), p)
    decreases n
  {
    hide Pending, RunAfter, RunDirty, AllPlanned, Ran, SizedRun, AllSteady, UnrelatedRoots, NonEmpty, ArchiveRootPrefix,
         ScanOfRoot, PathInRoot, Hypotheses, RunLeftNew, RunLitter;
    if n == 0 {
      assert log[..0] == [];
    } else {
      LogStep(r, {}, log, n - 1);
      LogPends(r, cwd, seen, roots, fm, digest, log, i, p, n - 1);
      var before, a := StateAfter(r, log[..n - 1]), log[n - 1];
      assert a.run[..|a.run|] == a.run;
      if a.run == [] {
        RunNothing(before, {});
      } else {
        PlansUnrelated(before.index, cwd, roots, fm, digest, a.plans);
        PlanCount(before.index, cwd, roots, fm, digest, a.plans);
        AttemptPends(cwd, roots, fm, digest, a.plans, i, p, before, a.run, a.failure.None?, |a.run|);
      }
    }
  }

  lemma {:induction false} AgreesExcept(digest: Digest, r: Replica, dirty: set<string>, p: string)
    requires AgreeOutside(digest, r, dirty) && AgreeAt(digest, r, p)
    ensures AgreeOutside(digest, r, dirty - {p})
  {}

  /** The last, successful attempt settles p, because p agrees or is named. */
  lemma {:induction false} LastSettles(cwd: string, roots: seq<Root>, fm: NameMatch, digest: Digest,
                                       plans: seq<RootDiffs>, i: nat, p: string, r: Replica, run: seq<Push>,
                                       dirty: set<string>)
    requires Injective(digest) && IsAbs(cwd) && AgreeOutside(digest, r, dirty)
    requires AllPlanned(r.index, cwd, roots, fm, digest, plans) && Hypotheses(roots, fm, plans) && i < |plans|
    requires i < |roots|
    requires Ran(run, NonEmpty(plans), true) && SizedRun(run) && PathInRoot(p, plans[i].rootPrefix)
    requires Pending(digest, r, ScanOfRoot(plans[i].rootPrefix, roots[i], fm, digest), p)
    ensures Settled(RunAfter(r, run), ScanOfRoot(plans[i].rootPrefix, roots[i], fm, digest),
      TreeOf(plans[i].rootPrefix, roots[i], fm, digest), p)
  {
    hide AgreeOutside, AgreeAt, Hypotheses, NonEmpty, PathInRoot, Named, ScanOfRoot, TreeOf, RunAfter, Settled, Ran,
         SizedRun, IsDiff, Errors, Found;
    if AgreeAt(digest, r, p) {
      AgreesExcept(digest, r, dirty, p);
      SyncSettles(r.index, cwd, roots, fm, digest, plans, i, p, r, run, dirty - {p});
    } else {
      var prefix, scan := plans[i].rootPrefix, ScanOfRoot(plans[i].rootPrefix, roots[i], fm, digest);
      ScanKeys(r.index, cwd, roots[i], fm, digest, plans[i]);
      NamedExactly(plans[i].diffs, r.index, scan, prefix, p);
      SyncSettles(r.index, cwd, roots, fm, digest, plans, i, p, r, run, dirty);
    }
  }

  lemma {:induction false} LastFollows(r: Replica, cwd: string, seen: Views, fm: NameMatch, digest: Digest,
                                       log: seq<Attempt>)
    requires SizedLog(log) && ValidLog(r, cwd, seen, fm, digest, log) && Succeeded(log)
    ensures var n := |log| - 1;
      && SizedLog(log[..n]) && SizedRun(log[n].run) && Ran(log[n].run, NonEmpty(log[n].plans), true)
      && AllPlanned(StateAfter(r, log[..n]).index, cwd, seen(n), fm, digest, log[n].plans)
  {
    hide AllPlanned, Ran, RunLeftNew, FailedAt, StateAfter, NonEmpty;
    var n := |log| - 1;
    assert Follows(StateAfter(r, log[..n]), cwd, seen(n), fm, digest, log[n]);
  }

  /** Retry converges: starting from agreement and with an unchanged tree, however many attempts failed
      and wherever each of them stopped, a successful one leaves table, dataset and newest snapshot
      exactly equal to the scan and the tree at every path below every root, but for the names of
      temporary files that could not be removed. */
  lemma {:induction false} RetriesConverge(r: Replica, cwd: string, seen: Views, roots: seq<Root>, fm: NameMatch,
                                           digest: Digest, log: seq<Attempt>, i: nat, p: string)
    requires Injective(digest) && IsAbs(cwd) && SizedLog(log) && AgreeOutside(digest, r, {})
    requires ValidLog(r, cwd, seen, fm, digest, log) && Succeeded(log)
    requires Unchanging(seen, roots, |log|, cwd, fm) && i < |roots|
    requires PathInRoot(p, ArchiveRootPrefix(cwd, roots[i].path))
    requires p in ScanOfRoot(ArchiveRootPrefix(cwd, roots[i].path), roots[i], fm, digest) || p !in LogLitter(log)
    ensures var prefix := ArchiveRootPrefix(cwd, roots[i].path);
      Settled(StateAfter(r, log), ScanOfRoot(prefix, roots[i], fm, digest), TreeOf(prefix, roots[i], fm, digest), p)
  {
    hide Pending, RunAfter, AgreeOutside, AgreeAt, RunDirty, AllPlanned, Ran, SizedRun, AllSteady, UnrelatedRoots,
         NonEmpty, ArchiveRootPrefix, ScanOfRoot,
      TreeOf, PathInRoot, Hypotheses, Settled, ValidLog, RunLeftNew, LogLitter;
    var n := |log| - 1;
    var scan := ScanOfRoot(ArchiveRootPrefix(cwd, roots[i].path), roots[i], fm, digest);
    LogStep(r, {}, log, n);
    assert log[..n + 1] == log;
    PendingStart(digest, r, scan, p);
    LogPends(r, cwd, seen, roots, fm, digest, log, i, p, n);
    LogAgrees(r, cwd, seen, fm, digest, log, {}, n);
    var before, a := StateAfter(r, log[..n]), log[n];
    LastFollows(r, cwd, seen, fm, digest, log);
    PlansUnrelated(before.index, cwd, roots, fm, digest, a.plans);
    PlanCount(before.index, cwd, roots, fm, digest, a.plans);
    LastSettles(cwd, roots, fm, digest, a.plans, i, p, before, a.run, DirtyAfterAll({}, log[..n]));
  }

  lemma {:induction false} PendingStart(digest: Digest, r: Replica, scan: map<string, FileInfo>, p: string)
    requires AgreeOutside(digest, r, {})
    ensures Pending(digest, r, scan, p)
  {}

  /** And a restore then gives every root back as it was scanned; the only other files below it are
      temporary ones that could not be removed. */
  lemma {:induction false} RetriesRestore(r: Replica, cwd: string, seen: Views, roots: seq<Root>, fm: NameMatch,
                                          digest: Digest, log: seq<Attempt>, i: nat, umask: Creation)
    requires Injective(digest) && IsAbs(cwd) && SizedLog(log) && AgreeOutside(digest, r, {})
    requires ValidLog(r, cwd, seen, fm, digest, log) && Succeeded(log)
    requires Unchanging(seen, roots, |log|, cwd, fm) && i < |roots|
    ensures RestoredExactly(roots[i], fm, ArchiveRootPrefix(cwd, roots[i].path), umask,
                            RestoredMap(umask, StateAfter(r, log).snap, RESTORE_CHUNK_BYTES), LogLitter(log))
  {
    var n := |log| - 1;
    var index, plans := StateAfter(r, log[..n]).index, log[n].plans;
    assert AllPlanned(index, cwd, roots, fm, digest, plans);
    assert NamedTree(roots[i].tree);
    assert Planned(index, cwd, roots[i], fm, digest, plans[i]) &&
      plans[i].rootPrefix == ArchiveRootPrefix(cwd, roots[i].path);
    ScanDescribesTree(index, cwd, roots[i], fm, digest, plans[i]);
    hide *;
    var prefix := ArchiveRootPrefix(cwd, roots[i].path);
    var scan, tree := ScanOfRoot(prefix, roots[i], fm, digest), TreeOf(prefix, roots[i], fm, digest);
    ScanKeysAreTree(digest, scan, tree);
    forall p | PathInRoot(p, prefix) && (p in tree || p !in LogLitter(log))
      ensures Settled(StateAfter(r, log), scan, tree, p)
    {
      RetriesConverge(r, cwd, seen, roots, fm, digest, log, i, p);
    }
    RootSettledIs(StateAfter(r, log), scan, tree, prefix, LogLitter(log));
    SettledRootRestores(index, cwd, roots[i], fm, digest, plans[i], StateAfter(r, log), umask, LogLitter(log));
  }

  lemma {:induction false} ScanKeysAreTree(digest: Digest, scan: map<string, FileInfo>, tree: map<string, Local>)
    requires ScanOf(digest, scan, tree)
    ensures scan.Keys == tree.Keys
  {}
}
