/** Temporary files over whole runs of streams: where they come from, how long they stay, and when a
    snapshot is free of them. */
module CleanRuns {
  import opened Model
  import opened Namespacing
  import opened FileSystem
  import opened StreamMachine
  import opened Leftovers
  import opened Server
  import opened Retention
  import opened BackupServer

  /** A dataset as a stream finds or leaves it. */
  datatype Dataset = Dataset(fs: FS, snaps: seq<Snapshot>)

  /** One stream: what it carried, how much of it was accepted, whether it took a snapshot, and the
      dataset it left. */
  datatype Stream = Stream(es: seq<FileEntry>, accepted: nat, took: bool, left: Dataset)

  function Before(d: Dataset, log: seq<Stream>, n: nat): Dataset
    requires n <= |log|
  {
    if n == 0 then d else log[n - 1].left
  }

  /** The n-th stream did to the dataset what a stream can do. */
  ghost predicate StreamAt(d: Dataset, log: seq<Stream>, n: nat)
    requires n < |log|
  {
    var t, was := log[n], Before(d, log, n);
    && t.accepted <= |t.es| && WellFormed(was.fs)
    && StreamEffect(was.fs, was.snaps, t.es, t.accepted, t.took, t.left.fs, t.left.snaps)
  }

  ghost predicate Streams(d: Dataset, log: seq<Stream>) {
    forall n :: 0 <= n < |log| ==> StreamAt(d, log, n)
  }

  /** The temporary files that the n-th stream failed to remove. */
  ghost function LitterOf(d: Dataset, log: seq<Stream>, n: nat): set<string>
    requires n < |log|
  {
    var t, was := log[n], Before(d, log, n);
    if t.accepted <= |t.es| && Run(Fresh(was.fs), t.es[..t.accepted]).Ok?
    then NewFiles(Run(Fresh(was.fs), t.es[..t.accepted]).value.fs, t.left.fs).Keys else {}
  }

  /** The paths that the n-th stream wrote or removed. */
  function SettledIn(log: seq<Stream>, n: nat): set<string>
    requires n < |log|
  {
    if log[n].accepted <= |log[n].es| then Settles(log[n].es[..log[n].accepted]) else {}
  }

  lemma {:induction false} KeysEmpty<V>(m: map<string, V>)
    ensures m.Keys == {} <==> m == map[]
  {}

  /** A stream leaves litter exactly if its flag says so, and never with a snapshot. */
  lemma {:induction false} LitterIff(d: Dataset, log: seq<Stream>, n: nat)
    requires n < |log| && StreamAt(d, log, n)
    ensures log[n].accepted <= |log[n].es|
    ensures LitterOf(d, log, n) != {} <==>
      LeavesLitter(Before(d, log, n).fs, log[n].es, log[n].accepted, log[n].left.fs)
    ensures log[n].took ==> LitterOf(d, log, n) == {}
  {
    hide Run, NewFiles, Residue, Suffix, WellFormed;
    var t, was := log[n], Before(d, log, n);
    KeysEmpty(NewFiles(Run(Fresh(was.fs), t.es[..t.accepted]).value.fs, t.left.fs));
    if t.took {
      assert t.es[..t.accepted] == t.es;
      NothingNew(t.left.fs);
    }
  }

  lemma {:induction false} StreamStrays(d: Dataset, log: seq<Stream>, n: nat)
    requires n < |log| && StreamAt(d, log, n)
    ensures Before(d, log, n + 1).fs.strays == (Before(d, log, n).fs.strays - SettledIn(log, n)) + LitterOf(d, log, n)
  {
    hide Run, NewFiles, Suffix, WellFormed, Settles, Valid, Remnant;
    var t, was := log[n], Before(d, log, n);
    FreshValid(was.fs);
    RunStrays(Fresh(was.fs), t.es[..t.accepted]);
  }

  /** Left by stream i, and neither overwritten nor removed by the streams from i + 1 to n - 1. */
  ghost predicate StaysFrom(d: Dataset, log: seq<Stream>, i: nat, n: nat, q: string)
    requires i < n <= |log|
  {
    q in LitterOf(d, log, i) && forall j :: i < j < n ==> q !in SettledIn(log, j)
  }

  ghost predicate Stays(d: Dataset, log: seq<Stream>, n: nat, q: string)
    requires n <= |log|
  {
    exists i: nat :: i < n && StaysFrom(d, log, i, n, q)
  }

  ghost predicate NothingStays(d: Dataset, log: seq<Stream>, n: nat)
    requires n <= |log|
  {
    forall i: nat, q :: i < n ==> !StaysFrom(d, log, i, n, q)
  }

  lemma {:induction false} StaysStep(d: Dataset, log: seq<Stream>, n: nat, q: string)
    requires n < |log|
    ensures Stays(d, log, n + 1, q) <==> (Stays(d, log, n, q) && q !in SettledIn(log, n)) || q in LitterOf(d, log, n)
  {
    hide LitterOf, SettledIn;
    if Stays(d, log, n + 1, q) {
      var i: nat :| i < n + 1 && StaysFrom(d, log, i, n + 1, q);
      if i < n { assert StaysFrom(d, log, i, n, q); }
    }
    if Stays(d, log, n, q) && q !in SettledIn(log, n) {
      var i: nat :| i < n && StaysFrom(d, log, i, n, q);
      assert StaysFrom(d, log, i, n + 1, q);
    }
    if q in LitterOf(d, log, n) { assert StaysFrom(d, log, n, n + 1, q); }
  }

  /** The strays of a dataset that was clean are exactly the temporary files whose removal failed and
      which nothing accepted since wrote or removed. */
  lemma {:induction false} StraysOverRuns(d: Dataset, log: seq<Stream>, n: nat, q: string)
    requires Streams(d, log) && d.fs.strays == {} && n <= |log|
    ensures q in Before(d, log, n).fs.strays <==> Stays(d, log, n, q)
    decreases n
  {
    hide StreamAt, Stays, SettledIn, LitterOf;
    if n == 0 {
      NeverStays(d, log, q);
    } else {
      StraysOverRuns(d, log, n - 1, q);
      StreamStrays(d, log, n - 1);
      StaysStep(d, log, n - 1, q);
    }
  }

  lemma {:induction false} NeverStays(d: Dataset, log: seq<Stream>, q: string)
    ensures !Stays(d, log, 0, q)
  {}

  /** A snapshot that shows no temporary file, neither one in use nor one that stayed. */
  predicate CleanSnapshot(s: Snapshot) { s.temps == map[] && s.fs.strays == {} }

  /** When the snapshot of a stream is clean: exactly if every temporary file whose removal failed since
      the dataset was clean has been written or removed by a later stream. */
  lemma {:induction false} SnapshotCleanIff(d: Dataset, log: seq<Stream>, n: nat)
    requires Streams(d, log) && d.fs.strays == {} && n < |log| && log[n].took
    ensures var s := Snapshot(log[n].left.fs, map[]);
      && Suffix(log[n].left.snaps, Before(d, log, n).snaps + [s])
      && (CleanSnapshot(s) <==> NothingStays(d, log, n + 1))
  {
    hide *;
    TakenIs(d, log, n);
    var m := n + 1;
    forall q ensures q in Before(d, log, m).fs.strays <==> Stays(d, log, m, q) { StraysOverRuns(d, log, m, q); }
    CleanIs(d, log, m);
  }

  lemma {:induction false} TakenIs(d: Dataset, log: seq<Stream>, n: nat)
    requires Streams(d, log) && n < |log| && log[n].took
    ensures Suffix(log[n].left.snaps, Before(d, log, n).snaps + [Snapshot(log[n].left.fs, map[])])
    ensures Before(d, log, n + 1) == log[n].left
    ensures CleanSnapshot(Snapshot(log[n].left.fs, map[])) <==> log[n].left.fs.strays == {}
  {
    hide Run, Residue, Suffix;
    assert StreamAt(d, log, n);
  }

  lemma {:induction false} CleanIs(d: Dataset, log: seq<Stream>, n: nat)
    requires n <= |log| && forall q :: q in Before(d, log, n).fs.strays <==> Stays(d, log, n, q)
    ensures Before(d, log, n).fs.strays == {} <==> NothingStays(d, log, n)
  {
    hide StaysFrom, Before;
    if NothingStays(d, log, n) {
      forall q ensures q !in Before(d, log, n).fs.strays {}
    } else {
      var i: nat, q :| i < n && StaysFrom(d, log, i, n, q);
      assert Stays(d, log, n, q);
    }
  }

  /** No stream writes or removes what an earlier one failed to remove: a difference never names a file
      that the agent knows nothing of. */
  ghost predicate LitterUnnamed(d: Dataset, log: seq<Stream>) {
    forall i, j :: 0 <= i < j < |log| ==> LitterOf(d, log, i) !! SettledIn(log, j)
  }

  /** Then a snapshot is clean exactly if no removal has failed since the dataset was clean. */
  lemma {:induction false} SnapshotCleanIffNoLitter(d: Dataset, log: seq<Stream>, n: nat)
    requires Streams(d, log) && d.fs.strays == {} && n < |log| && log[n].took && LitterUnnamed(d, log)
    ensures CleanSnapshot(Snapshot(log[n].left.fs, map[])) <==> forall i :: 0 <= i <= n ==> LitterOf(d, log, i) == {}
  {
    SnapshotCleanIff(d, log, n);
    hide Streams, Suffix, LitterOf, SettledIn, CleanSnapshot;
    forall i | 0 <= i <= n ensures NothingStays(d, log, n + 1) ==> LitterOf(d, log, i) == {} {
      forall q | q in LitterOf(d, log, i) ensures StaysFrom(d, log, i, n + 1, q) {}
    }
  }

  // ---- it happens ----------------------------------------------------------------------------

  function FirstHalf(p: string, content: Bytes, mode: Mode): FileEntry {
    FileEntry(p, content, mode, false, true, 0, false)
  }

  function WholeAgain(p: string, content: Bytes, mode: Mode): FileEntry {
    FileEntry(p, content, mode, false, false, 0, false)
  }

  /** A stream that broke after the first chunk of p, with its temporary file not removed, and then one
      that stored p whole. */
  function DirtyRun(p: string, name: string, x: Bytes, y: Bytes, mode: Mode): seq<Stream> {
    var fs1 := Strand(MkParents(EMPTY_FS, p), name, File(x, 0x180));
    var fs2 := Put(fs1, p, File(y, Perm(mode)));
    [Stream([FirstHalf(p, x, mode)], 1, false, Dataset(fs1, [])),
     Stream([WholeAgain(p, y, mode)], 1, true, Dataset(fs2, [Snapshot(fs2, map[])]))]
  }

  lemma {:induction false} HalfAccepted(p: string, x: Bytes, mode: Mode)
    requires TargetKey(p) == Some(p)
    ensures Run(Fresh(EMPTY_FS), [FirstHalf(p, x, mode)]) ==
      Ok(Session(MkParents(EMPTY_FS, p), map[p := Upload(p, x, |x|, mode)]))
  {
    hide TargetKey;
    RunSingle(Fresh(EMPTY_FS), FirstHalf(p, x, mode));
    var s1 := Session(MkParents(EMPTY_FS, p), map[p := Upload(p, [], 0, mode)]);
    assert Start(Fresh(EMPTY_FS), FirstHalf(p, x, mode)) == Ok(s1);
    assert [] + x == x;
    assert s1.open[p := Upload(p, x, |x|, mode)] == map[p := Upload(p, x, |x|, mode)];
  }

  lemma {:induction false} EmptyParents(p: string)
    ensures WellFormed(EMPTY_FS) && WellFormed(MkParents(EMPTY_FS, p)) && Rooted(MkParents(EMPTY_FS, p).dirs, p)
    ensures MkParents(EMPTY_FS, p) == FS(map[], Ancestors(p), {}) && p !in Ancestors(p)
  {
    MkParentsWellFormed(EMPTY_FS, p);
    NotAncestorOfItself(p);
  }

  lemma {:induction false} VacantBeside(p: string, name: string)
    requires Beside(name, p)
    ensures Vacant(MkParents(EMPTY_FS, p), name)
  {
    hide Paths.IsArchivePath;
    NotAncestorOfItself(name);
  }

  /** The first stream of the run. */
  lemma {:induction false} HalfEffect(p: string, name: string, x: Bytes, mode: Mode)
    requires TargetKey(p) == Some(p) && Beside(name, p)
    ensures var fs1 := Strand(MkParents(EMPTY_FS, p), name, File(x, 0x180));
      && WellFormed(fs1) && StreamEffect(EMPTY_FS, [], [FirstHalf(p, x, mode)], 1, false, fs1, [])
  {
    hide TargetKey, Beside, Run, WellFormed, Rooted, Vacant, FirstHalf, MkParents;
    var fs1 := Strand(MkParents(EMPTY_FS, p), name, File(x, 0x180));
    HalfAccepted(p, x, mode);
    EmptyParents(p);
    VacantBeside(p, name);
    StrandWellFormed(MkParents(EMPTY_FS, p), p, name, File(x, 0x180));
    var base := Session(MkParents(EMPTY_FS, p), map[p := Upload(p, x, |x|, mode)]);
    assert [FirstHalf(p, x, mode)][..1] == [FirstHalf(p, x, mode)];
    assert NewFiles(base.fs, fs1) == map[name := File(x, 0x180)];
    assert RemnantOf(base, None, p, name, File(x, 0x180));
  }

  /** A stream that was accepted to its end on a dataset without snapshots. */
  lemma {:induction false} WholeStream(fs0: FS, es: seq<FileEntry>, fs: FS)
    requires WellFormed(fs) && Run(Fresh(fs0), es) == Ok(Fresh(fs))
    ensures StreamEffect(fs0, [], es, |es|, true, fs, [Snapshot(fs, map[])])
  {
    hide Run, WellFormed, Remnant;
    assert es[..|es|] == es;
    NothingNew(fs);
  }

  /** The second. */
  lemma {:induction false} WholeEffect(p: string, name: string, x: Bytes, y: Bytes, mode: Mode)
    requires TargetKey(p) == Some(p) && Beside(name, p)
    ensures var fs1 := Strand(MkParents(EMPTY_FS, p), name, File(x, 0x180));
      var fs2 := Put(fs1, p, File(y, Perm(mode)));
      StreamEffect(fs1, [], [WholeAgain(p, y, mode)], 1, true, fs2, [Snapshot(fs2, map[])])
  {
    hide TargetKey, Beside, StreamEffect, WellFormed;
    var fs1 := Strand(MkParents(EMPTY_FS, p), name, File(x, 0x180));
    var fs2 := Put(fs1, p, File(y, Perm(mode)));
    HalfEffect(p, name, x, mode);
    EmptyParents(p);
    BesideIs(name, p);
    NotAncestorOfItself(name);
    assert !ParentIsFile(fs1, p) && p !in fs1.dirs;
    RunSingle(Fresh(fs1), WholeAgain(p, y, mode));
    PutWellFormed(fs1, p, File(y, Perm(mode)));
    WholeStream(fs1, [WholeAgain(p, y, mode)], fs2);
  }

  /** A run with one failed removal: the next snapshot holds the temporary file as a file of the user. */
  lemma {:induction false} DirtySnapshot(p: string, name: string, x: Bytes, y: Bytes, mode: Mode)
    requires TargetKey(p) == Some(p) && Beside(name, p) && name != p
    ensures var log := DirtyRun(p, name, x, y, mode);
      && Streams(Dataset(EMPTY_FS, []), log) && log[1].took
      && name in log[1].left.fs.files && log[1].left.fs.files[name].content == x
      && !CleanSnapshot(log[1].left.snaps[0])
  {
    hide TargetKey, Beside, StreamEffect, WellFormed;
    var d, log := Dataset(EMPTY_FS, []), DirtyRun(p, name, x, y, mode);
    EmptyParents(p);
    HalfEffect(p, name, x, mode);
    WholeEffect(p, name, x, y, mode);
    assert StreamAt(d, log, 0);
    assert StreamAt(d, log, 1);
    assert name in log[1].left.fs.strays;
  }
}
