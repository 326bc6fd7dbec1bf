/** The upload stream of the server as a state machine over wire entries, its reference meaning as
    a function of the message history, and the agreement of the two for every accepted history. */
module StreamMachine {
  import opened Model
  import opened Namespacing
  import opened FileSystem

  /** One unfinished chunked upload: where it will be published, the bytes staged so far, the
      offset expected next and the mode fixed by its first chunk. */
  datatype Upload = Upload(target: string, staged: Bytes, next: nat, mode: Mode)

  /** `open` is keyed by the raw path of the message, as the handler keys it. */
  datatype Session = Session(fs: FS, open: map<string, Upload>)

  datatype Reason =
    | DeletedChunk | FirstOffset | InvalidPath | ParentNotDirectory | WrongOffset | ModeChanged
    | TargetIsDirectory | UnfinishedUpload | CannotRemove

  function Busy(open: map<string, Upload>): set<string> {
    set r | r in open :: open[r].target
  }

  function Start(s: Session, e: FileEntry): Result<Session, Reason> {
    if e.path in s.open then Ok(s)
    else if e.chunkOffset != 0 then Err(FirstOffset)
    else match TargetKey(e.path)
      case None => Err(InvalidPath)
      case Some(target) =>
        if ParentIsFile(s.fs, target) then Err(ParentNotDirectory)
        else Ok(Session(MkParents(s.fs, target), s.open[e.path := Upload(target, [], 0, e.mode)]))
  }

  function Append(s: Session, e: FileEntry): Result<Session, Reason>
    requires e.path in s.open
  {
    var up := s.open[e.path];
    if e.chunkOffset != up.next then Err(WrongOffset)
    else if e.mode != up.mode then Err(ModeChanged)
    else Ok(s.(open := s.open[e.path := up.(staged := up.staged + e.content, next := up.next + |e.content|)]))
  }

  function Commit(s: Session, e: FileEntry): Result<Session, Reason>
    requires e.path in s.open
  {
    var up := s.open[e.path];
    if up.target in s.fs.dirs then Err(TargetIsDirectory)
    else Ok(Session(Publish(s.fs, up.target, File(up.staged, Perm(e.mode))), s.open - {e.path}))
  }

  function StepChunk(s: Session, e: FileEntry): Result<Session, Reason> {
    if e.deleted then Err(DeletedChunk)
    else match Start(s, e)
      case Err(r) => Err(r)
      case Ok(s1) =>
        match Append(s1, e)
        case Err(r) => Err(r)
        case Ok(s2) => if e.finalChunk then Commit(s2, e) else Ok(s2)
  }

  function StepPlain(s: Session, e: FileEntry): Result<Session, Reason> {
    if e.path in s.open then Err(UnfinishedUpload)
    else match TargetKey(e.path)
      case None => Err(InvalidPath)
      case Some(target) =>
        if e.deleted then
          if CanRemove(s.fs, Busy(s.open), target) then Ok(s.(fs := Remove(s.fs, target))) else Err(CannotRemove)
        else if ParentIsFile(s.fs, target) then Err(ParentNotDirectory)
        else if target in s.fs.dirs then Err(TargetIsDirectory)
        else Ok(s.(fs := Put(s.fs, target, File(e.content, Perm(e.mode)))))
  }

  function Step(s: Session, e: FileEntry): Result<Session, Reason> {
    if e.chunked then StepChunk(s, e) else StepPlain(s, e)
  }

  function Run(s: Session, es: seq<FileEntry>): Result<Session, Reason>
    decreases |es|
  {
    if es == [] then Ok(s)
    else match Run(s, es[..|es| - 1])
      case Err(r) => Err(r)
      case Ok(s1) => Step(s1, es[|es| - 1])
  }

  lemma {:induction false} RunAppend(s: Session, a: seq<FileEntry>, b: seq<FileEntry>)
    ensures Run(s, a + b) == (match Run(s, a) case Err(r) => Err(r) case Ok(s1) => Run(s1, b))
    decreases |b|
  {
    if b == [] {
      assert a + b == a;
    } else {
      var c := b[..|b| - 1];
      assert (a + b)[..|a + b| - 1] == a + c;
      RunAppend(s, a, c);
    }
  }

  lemma {:induction false} RunSingle(s: Session, e: FileEntry)
    ensures Run(s, [e]) == Step(s, e)
  {
    assert [e][..0] == [];
  }

  // ---- invariant of every reachable session -------------------------------------------------

  ghost predicate Valid(s: Session) {
    && WellFormed(s.fs)
    && forall r :: r in s.open ==>
      && s.open[r].next == |s.open[r].staged|
      && TargetKey(r) == Some(s.open[r].target)
      && Rooted(s.fs.dirs, s.open[r].target)
  }

  lemma {:induction false} StartValid(s: Session, e: FileEntry)
    requires Valid(s) && Start(s, e).Ok?
    ensures Valid(Start(s, e).value)
  {
    if e.path !in s.open {
      var target := TargetKey(e.path).value;
      MkParentsWellFormed(s.fs, target);
    }
  }

  lemma {:induction false} StepValid(s: Session, e: FileEntry)
    requires Valid(s) && Step(s, e).Ok?
    ensures Valid(Step(s, e).value)
  {
    if e.chunked {
      StartValid(s, e);
      var s1 := Start(s, e).value;
      var s2 := Append(s1, e).value;
      assert Valid(s2);
      if e.finalChunk { CommitValid(s2, e); }
    } else {
      var target := TargetKey(e.path).value;
      if e.deleted {
        RemoveWellFormed(s.fs, Busy(s.open), target);
        assert forall r :: r in s.open ==> s.open[r].target in Busy(s.open);
      } else {
        PutWellFormed(s.fs, target, File(e.content, Perm(e.mode)));
      }
    }
  }

  lemma {:induction false} CommitValid(s: Session, e: FileEntry)
    requires Valid(s) && e.path in s.open && Commit(s, e).Ok?
    ensures Valid(Commit(s, e).value)
  {}

  lemma {:induction false} RunValid(s: Session, es: seq<FileEntry>)
    requires Valid(s) && Run(s, es).Ok?
    ensures Valid(Run(s, es).value)
    decreases |es|
  {
    if es != [] {
      RunValid(s, es[..|es| - 1]);
      StepValid(Run(s, es[..|es| - 1]).value, es[|es| - 1]);
    }
  }

  // ---- messages that fail half way -----------------------------------------------------------

  /** What an upload of r has staged so far. */
  function StagedOf(s: Session, r: string): Bytes { if r in s.open then s.open[r].staged else [] }

  /** What a message that failed half way may leave: some parents of its path, a temporary file that
      could not be removed, an upload opened or extended by some of the bytes. */
  ghost predicate Interrupted(s: Session, e: FileEntry, t: Session) {
    && WellFormed(t.fs) && s.fs.dirs <= t.fs.dirs && Littered(s.fs, t.fs)
    && (forall r :: r != e.path ==> Lookup(t.open, r) == Lookup(s.open, r))
    && (TargetKey(e.path).None? || e.deleted ==> t == s)
    && (TargetKey(e.path).Some? ==> InterruptedAt(s, e, TargetKey(e.path).value, t))
  }

  ghost predicate InterruptedAt(s: Session, e: FileEntry, key: string, t: Session) {
    && t.fs.dirs <= s.fs.dirs + Ancestors(key)
    && (forall q :: q in NewFiles(s.fs, t.fs) ==> Beside(q, key) && NewFiles(s.fs, t.fs)[q].content <= e.content)
    && (e.path in s.open ==> e.path in t.open)
    && (e.path in t.open ==>
          && t.open[e.path].target == key
          && StagedOf(s, e.path) <= t.open[e.path].staged <= StagedOf(s, e.path) + e.content)
  }

  lemma {:induction false} NothingDone(s: Session, e: FileEntry)
    requires Valid(s)
    ensures Interrupted(s, e, s)
  {
    hide Beside, TargetKey;
    assert NewFiles(s.fs, s.fs) == map[];
  }

  lemma {:induction false} OnlyParents(s: Session, e: FileEntry, fs: FS)
    requires Valid(s) && !e.deleted && TargetKey(e.path).Some? && MadeFor(s.fs, fs, TargetKey(e.path).value)
    ensures Interrupted(s, e, s.(fs := fs))
  {
    hide Beside, TargetKey;
    assert NewFiles(s.fs, fs) == map[];
  }

  lemma {:induction false} OnlyAttempted(s: Session, e: FileEntry, fs: FS)
    requires Valid(s) && !e.deleted && TargetKey(e.path).Some?
    requires Attempted(s.fs, fs, TargetKey(e.path).value, e.content)
    ensures Interrupted(s, e, s.(fs := fs))
  {
    hide Beside, TargetKey;
  }

  /** Started, and some of the bytes staged. */
  lemma {:induction false} StartedAndStaged(s: Session, e: FileEntry, t: Session, part: Bytes, next: nat)
    requires Valid(s) && !e.deleted && Start(s, e) == Ok(t) && part <= e.content
    ensures e.path in t.open
    ensures var u := t.open[e.path];
      Interrupted(s, e, t.(open := t.open[e.path := u.(staged := u.staged + part, next := next)]))
  {
    hide Beside, TargetKey;
    StartValid(s, e);
    assert NewFiles(s.fs, t.fs) == map[];
    assert TargetKey(e.path).Some?;
  }

  // ---- what becomes of strays ----------------------------------------------------------------

  /** The path an entry writes or removes, if it does. */
  function SettledBy(e: FileEntry): set<string> {
    if (e.chunked && !e.finalChunk) || TargetKey(e.path).None? then {} else {TargetKey(e.path).value}
  }

  function Settles(es: seq<FileEntry>): set<string>
    decreases |es|
  {
    if es == [] then {} else Settles(es[..|es| - 1]) + SettledBy(es[|es| - 1])
  }

  lemma {:induction false} StepStrays(s: Session, e: FileEntry)
    requires Valid(s) && Step(s, e).Ok?
    ensures Step(s, e).value.fs.strays == s.fs.strays - SettledBy(e)
  {
    hide TargetKey, WellFormed, Rooted;
    if e.chunked { assert TargetKey(e.path).Some?; }
  }

  /** Accepted entries end the strays they write or remove, and no others. */
  lemma {:induction false} RunStrays(s: Session, es: seq<FileEntry>)
    requires Valid(s) && Run(s, es).Ok?
    ensures Run(s, es).value.fs.strays == s.fs.strays - Settles(es)
    decreases |es|
  {
    hide Valid, Step, SettledBy;
    if es != [] {
      RunStrays(s, es[..|es| - 1]);
      RunValid(s, es[..|es| - 1]);
      StepStrays(Run(s, es[..|es| - 1]).value, es[|es| - 1]);
    }
  }

  // ---- reference meaning of a history -------------------------------------------------------

  /** The chunks of raw path r received since its last final chunk, in order of arrival. */
  function Pending(es: seq<FileEntry>, r: string): seq<FileEntry>
    decreases |es|
  {
    if es == [] then []
    else
      var before, last := es[..|es| - 1], es[|es| - 1];
      if !last.chunked || last.path != r then Pending(before, r)
      else if last.finalChunk then []
      else Pending(before, r) + [last]
  }

  function Contents(chunks: seq<FileEntry>): Bytes
    decreases |chunks|
  {
    if chunks == [] then [] else Contents(chunks[..|chunks| - 1]) + chunks[|chunks| - 1].content
  }

  /** Chunks that follow one another from offset zero with one mode. */
  predicate InOrder(chunks: seq<FileEntry>) {
    forall i :: 0 <= i < |chunks| ==>
      chunks[i].chunkOffset == |Contents(chunks[..i])| && chunks[i].mode == chunks[0].mode
  }

  predicate Names(e: FileEntry, k: string) { TargetKey(e.path) == Some(k) }

  /** What a reader of the dataset should see at k after the history: the last plain write or
      deletion of k, or the whole of the last chunked upload completed for k. */
  function Visible(base: map<string, File>, es: seq<FileEntry>, k: string): Option<File>
    decreases |es|
  {
    if es == [] then Lookup(base, k)
    else
      var before, last := es[..|es| - 1], es[|es| - 1];
      if !Names(last, k) then Visible(base, before, k)
      else if !last.chunked then
        if last.deleted then None else Some(File(last.content, Perm(last.mode)))
      else if last.finalChunk then
        Some(File(Contents(Pending(before, last.path) + [last]), Perm(last.mode)))
      else Visible(base, before, k)
  }

  lemma {:induction false} ContentsSnoc(chunks: seq<FileEntry>, e: FileEntry)
    ensures Contents(chunks + [e]) == Contents(chunks) + e.content
  {
    assert (chunks + [e])[..|chunks|] == chunks;
  }

  lemma {:induction false} InOrderSnoc(chunks: seq<FileEntry>, e: FileEntry)
    requires InOrder(chunks) && e.chunkOffset == |Contents(chunks)| && (chunks != [] ==> e.mode == chunks[0].mode)
    ensures InOrder(chunks + [e])
  {
    var all := chunks + [e];
    forall i | 0 <= i < |all|
      ensures all[i].chunkOffset == |Contents(all[..i])| && all[i].mode == all[0].mode
    {
      assert all[..i] == chunks[..i];
      if i == |chunks| { assert chunks[..i] == chunks; }
    }
  }

  /** The open uploads are exactly the paths with pending chunks, and each stages their bytes. */
  ghost predicate MirrorsAt(s: Session, es: seq<FileEntry>, r: string) {
    && (r in s.open <==> Pending(es, r) != [])
    && (r in s.open ==>
          && s.open[r].staged == Contents(Pending(es, r))
          && s.open[r].mode == Pending(es, r)[0].mode
          && InOrder(Pending(es, r)))
  }

  ghost predicate Mirrors(s: Session, es: seq<FileEntry>) {
    forall r :: MirrorsAt(s, es, r)
  }

  /** Upload safety for arbitrary interleaved messages: whenever a history is accepted, the visible
      files are exactly its reference meaning (in particular no unfinished upload is visible), and
      what is staged is exactly what is pending. */
  lemma {:induction false} AcceptedHistory(s: Session, es: seq<FileEntry>)
    requires Valid(s) && s.open == map[] && Run(s, es).Ok?
    ensures Mirrors(Run(s, es).value, es)
    ensures forall k :: Lookup(Run(s, es).value.fs.files, k) == Visible(s.fs.files, es, k)
    decreases |es|
  {
    if es != [] {
      var before, last := es[..|es| - 1], es[|es| - 1];
      AcceptedHistory(s, before);
      RunValid(s, before);
      var s1 := Run(s, before).value;
      StepMirrors(s1, before, last, es);
      forall k
        ensures Lookup(Run(s, es).value.fs.files, k) == Visible(s.fs.files, es, k)
      {
        StepVisible(s1, before, last, k);
      }
    }
  }

  lemma {:induction false} StepMirrors(s: Session, before: seq<FileEntry>, e: FileEntry, es: seq<FileEntry>)
    requires Valid(s) && Mirrors(s, before) && Step(s, e).Ok? && es == before + [e]
    ensures Mirrors(Step(s, e).value, es)
  {
    hide MirrorsAt, Step, Valid;
    forall r ensures MirrorsAt(Step(s, e).value, es, r) {
      if r == e.path { OwnMirrors(s, before, e, es); } else { OtherMirrors(s, before, e, es, r); }
    }
  }

  /** The path of the message itself. */
  lemma {:induction false} OwnMirrors(s: Session, before: seq<FileEntry>, e: FileEntry, es: seq<FileEntry>)
    requires Valid(s) && MirrorsAt(s, before, e.path) && Step(s, e).Ok? && es == before + [e]
    ensures MirrorsAt(Step(s, e).value, es, e.path)
  {
    assert es[..|es| - 1] == before;
    if e.chunked {
      ChunkContinues(s, before, e);
      ContentsSnoc(Pending(before, e.path), e);
    }
  }

  /** Any other path: its upload and its pending chunks are as they were. */
  lemma {:induction false} OtherMirrors(s: Session, before: seq<FileEntry>, e: FileEntry, es: seq<FileEntry>, r: string)
    requires MirrorsAt(s, before, r) && Step(s, e).Ok? && es == before + [e] && r != e.path
    ensures MirrorsAt(Step(s, e).value, es, r)
  {
    hide InOrder, Contents;
    assert es[..|es| - 1] == before;
    assert Pending(es, r) == Pending(before, r);
    hide Pending;
  }

  lemma {:induction false} ChunkContinues(s: Session, before: seq<FileEntry>, e: FileEntry)
    requires Valid(s) && MirrorsAt(s, before, e.path) && e.chunked && Step(s, e).Ok?
    ensures !e.deleted && InOrder(Pending(before, e.path) + [e])
  {
    var s1 := Start(s, e).value;
    assert Append(s1, e).Ok?;
    InOrderSnoc(Pending(before, e.path), e);
  }

  lemma {:induction false} StepVisible(s: Session, before: seq<FileEntry>, e: FileEntry, k: string)
    requires Valid(s) && MirrorsAt(s, before, e.path) && Step(s, e).Ok?
    ensures Lookup(Step(s, e).value.fs.files, k) ==
      if !Names(e, k) || (e.chunked && !e.finalChunk) then Lookup(s.fs.files, k)
      else if e.chunked then Some(File(Contents(Pending(before, e.path) + [e]), Perm(e.mode)))
      else if e.deleted then None
      else Some(File(e.content, Perm(e.mode)))
  {
    ContentsSnoc(Pending(before, e.path), e);
  }

  /** Reading the reference meaning backwards: every chunk of an accepted history continued its
      path's pending chunks exactly, with the mode of the first. */
  lemma {:induction false} AcceptedChunksContinue(s: Session, es: seq<FileEntry>, i: nat)
    requires Valid(s) && s.open == map[] && Run(s, es).Ok? && i < |es| && es[i].chunked
    ensures !es[i].deleted
    ensures InOrder(Pending(es[..i], es[i].path) + [es[i]])
  {
    assert es == es[..i + 1] + es[i + 1..];
    RunAppend(s, es[..i + 1], es[i + 1..]);
    assert es[..i + 1][..i] == es[..i] && es[..i + 1][i] == es[i];
    AcceptedHistory(s, es[..i]);
    RunValid(s, es[..i]);
    ChunkContinues(Run(s, es[..i]).value, es[..i], es[i]);
  }

  /** What an entry must be to be accepted after a history that led to the tree `fs` and the staging files
      `busy`: a chunk continues what is pending at its path, and something else comes only where nothing is;
      and the tree lets it through. */
  ghost predicate Welcome(fs: FS, busy: set<string>, es: seq<FileEntry>, e: FileEntry) {
    TargetKey(e.path).Some? && var target := TargetKey(e.path).value;
    if e.chunked then
      && !e.deleted && InOrder(Pending(es, e.path) + [e])
      && (Pending(es, e.path) == [] ==> !ParentIsFile(fs, target))
      && (e.finalChunk ==> target !in fs.dirs)
    else
      Pending(es, e.path) == [] && if e.deleted then CanRemove(fs, busy, target) else CanPut(fs, target)
  }

  lemma {:induction false} InOrderLast(chunks: seq<FileEntry>, e: FileEntry)
    requires InOrder(chunks)
    ensures InOrder(chunks + [e]) <==>
      e.chunkOffset == |Contents(chunks)| && (chunks != [] ==> e.mode == chunks[0].mode)
  {
    hide Contents;
    var all := chunks + [e];
    assert all[..|chunks|] == chunks && all[|chunks|] == e;
    if InOrder(all) {
      assert all[|chunks|].chunkOffset == |Contents(all[..|chunks|])| && all[|chunks|].mode == all[0].mode;
    }
    if e.chunkOffset == |Contents(chunks)| && (chunks != [] ==> e.mode == chunks[0].mode) { InOrderSnoc(chunks, e); }
  }

  lemma {:induction false} NothingInOrder()
    ensures Contents([]) == [] && InOrder([])
  {}

  lemma {:induction false} ChunkIs(s: Session, e: FileEntry)
    requires Valid(s) && e.chunked
    ensures e.path in s.open ==> TargetKey(e.path) == Some(s.open[e.path].target)
    ensures Step(s, e).Ok? <==>
      && !e.deleted && TargetKey(e.path).Some?
      && (e.path !in s.open ==> e.chunkOffset == 0 && !ParentIsFile(s.fs, TargetKey(e.path).value))
      && (e.path in s.open ==> e.chunkOffset == |s.open[e.path].staged| && e.mode == s.open[e.path].mode)
      && (e.finalChunk ==> TargetKey(e.path).value !in s.fs.dirs)
  {
    hide TargetKey, WellFormed, Rooted;
    if TargetKey(e.path).Some? { NotAncestorOfItself(TargetKey(e.path).value); }
  }

  /** Exactly which entries are accepted next, after any accepted history. */
  lemma {:induction false} NextAcceptedIff(s: Session, es: seq<FileEntry>, e: FileEntry)
    requires Valid(s) && s.open == map[] && Run(s, es).Ok?
    ensures var t := Run(s, es).value; Step(t, e).Ok? <==> Welcome(t.fs, Busy(t.open), es, e)
  {
    AcceptedHistory(s, es);
    RunValid(s, es);
    hide Run, TargetKey, Valid, Contents, Pending, InOrder, ParentIsFile, CanRemove;
    var t := Run(s, es).value;
    assert MirrorsAt(t, es, e.path);
    NothingInOrder();
    InOrderLast(Pending(es, e.path), e);
    if e.chunked { ChunkIs(t, e); }
  }
}
