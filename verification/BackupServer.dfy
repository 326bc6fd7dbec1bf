/** One upload stream from the first message to its end: batches in order, every exit aborting what
    is still staged, a snapshot only after a clean end. */
module BackupServer {
  import opened Integers
  import opened Model
  import Namespacing
  import Paths
  import opened FileSystem
  import opened StreamMachine
  import opened Server
  import opened BackupStream
  import opened Leftovers
  import opened Pusher
  import opened Retention

  datatype Code = OK | InvalidArgument | PermissionDenied | Internal | Canceled

  datatype StreamEnd = Eof | Broken

  predicate LowerOrUnderscore(c: char) { ('a' <= c <= 'z') || c == '_' }

  // ^[a-z_][a-z0-9_-]{0,30}$
  predicate ValidUsername(name: string) {
    && 1 <= |name| <= 31
    && LowerOrUnderscore(name[0])
    && forall i :: 1 <= i < |name| ==> LowerOrUnderscore(name[i]) || '0' <= name[i] <= '9' || name[i] == '-'
  }

  /** A valid name is one plain component, and the directories of two users are not inside one another: no
      path leads below both. */
  lemma {:induction false} UsersApart(mount: string, u: string, v: string, p: string)
    requires Namespacing.BaseDir(mount) && ValidUsername(u) && ValidUsername(v) && u != v
    ensures var a, b := Paths.JoinPath(mount, u), Paths.JoinPath(mount, v);
      && Namespacing.BaseDir(a) && Namespacing.BaseDir(b)
      && !(Namespacing.HasPathPrefix(p, a) && Namespacing.HasPathPrefix(p, b) && Paths.IsAbs(p))
  {
    UserDirectory(mount, u);
    UserDirectory(mount, v);
    var a, b := Paths.JoinPath(mount, u), Paths.JoinPath(mount, v);
    if Paths.IsAbs(p) {
      Namespacing.HasPathPrefixIff(p, a);
      Namespacing.HasPathPrefixIff(p, b);
      hide *;
      var n := |Paths.Components(mount)|;
      assert Paths.Components(a)[n] == u && Paths.Components(b)[n] == v;
    }
  }

  lemma {:induction false} UserDirectory(mount: string, name: string)
    requires Namespacing.BaseDir(mount) && ValidUsername(name)
    ensures Paths.PlainComponent(name) && name != ".."
    ensures var dir := Paths.JoinPath(mount, name);
      Namespacing.BaseDir(dir) && Paths.Components(dir) == Paths.Components(mount) + [name]
  {
    forall i | 0 <= i < |name| ensures name[i] != '/' && name[i] != '.' {
      if i == 0 { assert LowerOrUnderscore(name[0]); }
    }
    assert name[0] != '.';
    Paths.SplitNoSep(name);
    assert [] + [name] == [name];
    Paths.NormalizeFixed(false, [], [name]);
    Paths.JoinPathComponents(mount, name);
    Paths.ComponentsNormal(mount);
    Paths.CleanFixed(mount + "/" + name);
    Paths.ComponentsNormal(mount + "/" + name);
    assert Paths.Components(mount) + [name] != [];
    Paths.JoinStart(Paths.Components(mount) + [name]);
  }

  function ValidateBackupIdentity(b: Batch): Code {
    if b.ruleType == "user" then (if b.username == "_machine" then PermissionDenied else OK)
    else if b.ruleType == "machine" then (if b.username != "_machine" then PermissionDenied else OK)
    else InvalidArgument
  }

  /** The checks on each batch; `username` and `ruleType` are empty before the first one. */
  function Admit(username: string, ruleType: string, b: Batch): Code {
    if !ValidUsername(b.username) then InvalidArgument
    else if ValidateBackupIdentity(b) != OK then ValidateBackupIdentity(b)
    else if username != "" && b.username != username then InvalidArgument
    else if ruleType != "" && b.ruleType != ruleType then InvalidArgument
    else OK
  }

  function Fresh(fs: FS): Session { Session(fs, map[]) }

  lemma {:induction false} FreshTracks(disk: Disk)
    requires disk.Valid() && disk.temps == map[]
    ensures Tracks(disk, map[], map[], Fresh(disk.fs)) && Valid(Fresh(disk.fs))
  {}

  lemma {:induction false} NoUploadsNoTemps(disk: Disk, uploads: Uploads, slots: map<string, Slot>, s: Session)
    requires Tracks(disk, uploads, slots, s) && uploads == map[]
    ensures disk.temps == map[] && s.open == map[]
  {
    RefinesKeys(disk.temps, slots, s.open);
    assert forall t :: t in disk.temps ==> Claimed(slots, t);
  }

  /** A list with an entry that is refused where it stands is refused. */
  lemma {:induction false} RunStuck(s: Session, es: seq<FileEntry>, n: nat, mid: Session)
    requires n < |es| && Run(s, es[..n]) == Ok(mid) && Step(mid, es[n]).Err?
    ensures Run(s, es).Err?
  {
    hide Step;
    RunAppend(s, es[..n], es[n..]);
    RunAppend(mid, [es[n]], es[n + 1..]);
    RunSingle(mid, es[n]);
    assert es == es[..n] + es[n..] && es[n..] == [es[n]] + es[n + 1..];
  }

  /** A temporary file was left behind since the entries `es` were accepted. */
  ghost predicate Dirtied(s: Session, es: seq<FileEntry>, t: Session) {
    Run(s, es).Ok? && NewFiles(Run(s, es).value.fs, t.fs) != map[]
  }

  lemma {:induction false} NotDirtied(s: Session, es: seq<FileEntry>, t: Session)
    requires Run(s, es).Ok? ==> t.fs.files == Run(s, es).value.fs.files
    ensures !Dirtied(s, es, t)
  {
    hide Run;
  }

  lemma {:induction false} StoppedAt(s: Session, es: seq<FileEntry>, n: nat, mid: Session, t: Session)
    requires n < |es| && Run(s, es[..n]) == Ok(mid) && Interrupted(mid, es[n], t)
    ensures StoppedIn(s, es, n, t)
    ensures Dirtied(s, es[..n], t) <==> NewFiles(mid.fs, t.fs) != map[]
    ensures t.fs.files == mid.fs.files ==> !Dirtied(s, es[..n], t)
  {
    hide Run, Interrupted;
    if t.fs.files == mid.fs.files { NotDirtied(s, es[..n], t); }
  }

  lemma {:induction false} NotStopped(s: Session, es: seq<FileEntry>, t: Session)
    requires Run(s, es) == Ok(t)
    ensures StoppedIn(s, es, |es|, t) && es[..|es|] == es && !Dirtied(s, es, t)
  {
    hide Run;
    assert es[..|es|] == es;
    NotDirtied(s, es, t);
  }

  /** The entries of one batch, in order. It stops at the first one that fails; without a fault of the
      disk that happens exactly when the stream machine refuses the batch. What it leaves is what the
      entries before left and, of the failed one, no more than Interrupted says. */
  method HandleBatch(disk: Disk, files: seq<FileEntry>, uploads: Uploads, ghost slots: map<string, Slot>,
                     ghost s: Session)
    returns (ok: bool, uploads': Uploads, ghost slots': map<string, Slot>, ghost s': Session,
             ghost created: set<ChunkWriter>, ghost done: nat, ghost fault: bool, ghost litter: bool)
    requires Tracks(disk, uploads, slots, s) && Valid(s)
    modifies disk`fs, disk`temps, disk`nextTemp, Writers(uploads)
    ensures Tracks(disk, uploads', slots', s')
    ensures StoppedIn(s, files, done, s') && done <= |files| && (litter <==> Dirtied(s, files[..done], s'))
    ensures ok ==> done == |files| && Run(s, files) == Ok(s') && Valid(s')
    ensures !ok && !fault ==> Run(s, files).Err?
    ensures fresh(created) && WritersWithin(uploads', Writers(uploads), created)
  {
    hide *;
    ok, uploads', slots', s', created, done, fault, litter := true, uploads, slots, s, {}, 0, false, false;
    RunNothing(s);
    assert files[..0] == [];
    WithinStart(uploads);
    for n := 0 to |files|
      invariant ok && !litter && done == n && Tracks(disk, uploads', slots', s') && Valid(s')
      invariant Run(s, files[..n]) == Ok(s')
      invariant fresh(created) && WritersWithin(uploads', Writers(uploads), created)
    {
      var e := files[n];
      assert files[..n + 1][..n] == files[..n];
      ghost var before := s';
      ghost var more: set<ChunkWriter> := {};
      ghost var mid := uploads';
      WritersFresh(uploads', Writers(uploads), created);
      WithinStart(uploads');
      if e.chunked {
        ok, uploads', slots', s', more, fault := HandleChunk(disk, e, uploads', slots', s');
      } else {
        ok, s', fault, litter := HandlePlain(disk, e, uploads', slots', s');
      }
      WithinMore(mid, Writers(uploads), created, uploads', more);
      SameFiles(before, s');
      created := created + more;
      if !ok {
        StoppedAt(s, files, n, before, s');
        if !fault { RunStuck(s, files, n, before); }
        return;
      }
      StepValid(before, e);
      RunMore(s, files, n, before);
      done := n + 1;
    }
    assert files[..|files|] == files;
    NotStopped(s, files, s');
  }

  lemma {:induction false} RunMore(s: Session, es: seq<FileEntry>, n: nat, mid: Session)
    requires n < |es| && Run(s, es[..n]) == Ok(mid)
    ensures Run(s, es[..n + 1]) == Step(mid, es[n])
  {
    hide Step;
    assert es[..n + 1][..n] == es[..n];
  }

  lemma {:induction false} WithinStart(uploads: Uploads)
    ensures WritersWithin(uploads, Writers(uploads), {})
  {}

  /** New writers of one entry join those of the entries before. */
  lemma {:induction false} WithinMore(mid: Uploads, known: set<ChunkWriter>, created: set<ChunkWriter>, after: Uploads,
                                      more: set<ChunkWriter>)
    requires WritersWithin(mid, known, created) && WritersWithin(after, Writers(mid), more)
    ensures WritersWithin(after, known, created + more)
  {}

  lemma {:induction false} SameFiles(s: Session, t: Session)
    ensures t.fs.files == s.fs.files ==> NewFiles(s.fs, t.fs) == map[]
  {}

  /** One upload dropped from the table with its staging file, which may stay as a stray. */
  method AbortOne(disk: Disk, r: string, uploads: Uploads, ghost slots: map<string, Slot>, ghost s: Session)
    returns (ghost litter: bool, ghost name: string, ghost left: File)
    requires Tracks(disk, uploads, slots, s) && r in uploads
    modifies disk`fs, disk`temps, uploads[r].writer
    ensures Tracks(disk, uploads - {r}, slots - {r}, Session(disk.fs, s.open - {r}))
    ensures r in s.open
    ensures !litter ==> disk.fs == s.fs
    ensures litter ==> disk.fs == Strand(s.fs, name, left) && left.content == s.open[r].staged
    ensures litter ==> Beside(name, s.open[r].target) && Vacant(s.fs, name)
  {
    hide Refines, Beside, Vacant, WellFormed, Rooted, Paths.IsArchivePath;
    RefinesKeys(disk.temps, slots, s.open);
    RefinesAt(disk.temps, slots, s.open, r);
    assert InSlot(disk, uploads[r], slots[r]);
    OthersDiffer(disk, uploads, slots, s, r);
    ghost var temps, id := disk.temps, slots[r].tmpFile.value;
    litter, name, left := uploads[r].writer.Abort();
    RefinesCommit(temps, slots, s.open, disk.temps, r, id);
  }

  /** Where the open uploads are to be published, and that their directories are there. */
  lemma {:induction false} OpenRooted(disk: Disk, uploads: Uploads, slots: map<string, Slot>, s: Session, r: string)
    requires Tracks(disk, uploads, slots, s) && r in uploads
    ensures r in s.open && Rooted(disk.fs.dirs, s.open[r].target)
  {
    hide Rooted, WellFormed, Paths.IsArchivePath;
    RefinesKeys(disk.temps, slots, s.open);
    RefinesAt(disk.temps, slots, s.open, r);
    assert disk.temps[slots[r].tmpFile.value].target == s.open[r].target;
  }

  /** The table while it is being emptied: what is still in it is as it was. */
  ghost predicate StillThere(uploads: Uploads, s: Session, remaining: Uploads, open: map<string, Upload>) {
    && (forall r :: r in remaining ==> r in uploads && remaining[r] == uploads[r])
    && (forall r :: r in remaining ==> r in open && r in s.open && open[r] == s.open[r])
  }

  lemma {:induction false} StillStart(disk: Disk, uploads: Uploads, slots: map<string, Slot>, s: Session)
    requires Tracks(disk, uploads, slots, s)
    ensures StillThere(uploads, s, uploads, s.open) && disk.Valid() && disk.fs == s.fs && WellFormed(s.fs)
  {
    RefinesKeys(disk.temps, slots, s.open);
  }

  lemma {:induction false} StillStep(uploads: Uploads, s: Session, remaining: Uploads, open: map<string, Upload>,
                                     r: string)
    requires StillThere(uploads, s, remaining, open) && r in remaining
    ensures StillThere(uploads, s, remaining - {r}, open - {r})
    ensures r in uploads && remaining[r] == uploads[r] && r in s.open && r in open && open[r] == s.open[r]
    ensures remaining[r].writer in Writers(uploads)
  {}

  lemma {:induction false} DirsKept(s: Session, left: map<string, string>, fs: FS)
    requires LeftOver(s, left, fs)
    ensures fs.dirs == s.fs.dirs
  {}

  /** The deferred clean-up: every upload still in the table loses its staging file. `left` says which
      files could not be removed: what stays of the uploads is exactly those, under the given names. */
  method AbortUploads(disk: Disk, uploads: Uploads, ghost slots: map<string, Slot>, ghost s: Session)
    returns (ghost left: map<string, string>)
    requires Tracks(disk, uploads, slots, s)
    modifies disk`fs, disk`temps, Writers(uploads)
    ensures disk.Valid() && disk.temps == map[]
    ensures LeftOver(s, left, disk.fs)
  {
    hide *;
    var remaining := uploads;
    ghost var slotsLeft, sLeft := slots, s;
    left := map[];
    StillStart(disk, uploads, slots, s);
    NoneLeft(s);
    while remaining != map[]
      invariant Tracks(disk, remaining, slotsLeft, sLeft) && sLeft.fs == disk.fs
      invariant StillThere(uploads, s, remaining, sLeft.open)
      invariant LeftOver(s, left, disk.fs) && left.Keys !! remaining.Keys
      decreases remaining.Keys
    {
      var r :| r in remaining;
      StillStep(uploads, s, remaining, sLeft.open, r);
      OpenRooted(disk, remaining, slotsLeft, sLeft, r);
      DirsKept(s, left, disk.fs);
      ghost var litter, name, file;
      litter, name, file := AbortOne(disk, r, remaining, slotsLeft, sLeft);
      if litter {
        OneMoreLeft(s, left, sLeft.fs, r, name, file);
        left := left[r := name];
      }
      remaining, slotsLeft, sLeft := remaining - {r}, slotsLeft - {r}, Session(disk.fs, sLeft.open - {r});
    }
    TracksFs(disk, remaining, slotsLeft, sLeft);
    NoUploadsNoTemps(disk, remaining, slotsLeft, sLeft);
  }

  /** The first `accepted` entries were accepted and the next one may have failed half way. */
  ghost predicate PartWay(fs0: FS, es: seq<FileEntry>, accepted: nat, s: Session) {
    StoppedIn(Fresh(fs0), es, accepted, s)
  }

  /** The entries of the first n batches, of the next one, and of the rest. */
  lemma {:induction false} BatchStep(batches: seq<Batch>, n: nat)
    requires n < |batches|
    ensures Flatten(batches[..n + 1]) == Flatten(batches[..n]) + batches[n].files
    ensures Flatten(batches) == Flatten(batches[..n + 1]) + Flatten(batches[n + 1..])
  {
    hide Flatten;
    FlattenSnoc(batches[..n], batches[n]);
    assert batches[..n + 1] == batches[..n] + [batches[n]];
    FlattenAppend(batches[..n + 1], batches[n + 1..]);
    assert batches == batches[..n + 1] + batches[n + 1..];
  }

  lemma {:induction false} TakeMiddle<T>(a: seq<T>, b: seq<T>, c: seq<T>, k: nat)
    requires k <= |b|
    ensures |a| + k <= |(a + b) + c| && ((a + b) + c)[..|a| + k] == a + b[..k]
  {}

  /** Inside batch n, after `done` of its entries. */
  lemma {:induction false} InsideBatch(fs0: FS, batches: seq<Batch>, n: nat, s: Session, done: nat, s': Session)
    requires n < |batches| && Run(Fresh(fs0), Flatten(batches[..n])) == Ok(s)
    requires StoppedIn(s, batches[n].files, done, s') && done <= |batches[n].files|
    ensures PartWay(fs0, Flatten(batches), |Flatten(batches[..n])| + done, s')
    ensures |Flatten(batches[..n])| + done <= |Flatten(batches)|
    ensures Dirtied(s, batches[n].files[..done], s') <==>
      Dirtied(Fresh(fs0), Flatten(batches)[..|Flatten(batches[..n])| + done], s')
  {
    hide Run, Flatten, Interrupted, NewFiles;
    BatchStep(batches, n);
    var head, files := Flatten(batches[..n]), batches[n].files;
    var rest := Flatten(batches[n + 1..]);
    RunAppend(Fresh(fs0), head, files[..done]);
    TakeMiddle(head, files, rest, done);
    assert done < |files| ==> ((head + files) + rest)[|head| + done] == files[done];
  }

  lemma {:induction false} WritersFresh(uploads: Uploads, known: set<ChunkWriter>, created: set<ChunkWriter>)
    requires WritersWithin(uploads, known, created)
    ensures Writers(uploads) <= known + created
  {}

  /** Every batch of the stream passed the identity checks. */
  ghost predicate AllAdmitted(username: string, ruleType: string, batches: seq<Batch>) {
    forall i :: 0 <= i < |batches| ==> Admit(username, ruleType, batches[i]) == OK
  }

  /** Exactly which streams pass: the name is valid, all batches have one user and one rule type, and rules of
      the machine are pushed by the machine's own user and by no other. */
  lemma {:induction false} AdmittedIff(batches: seq<Batch>)
    requires batches != []
    ensures var username, ruleType := batches[0].username, batches[0].ruleType;
      (Admit("", "", batches[0]) == OK && AllAdmitted(username, ruleType, batches)) <==>
        && ValidUsername(username)
        && (forall i :: 0 <= i < |batches| ==> batches[i].username == username && batches[i].ruleType == ruleType)
        && ((ruleType == "user" && username != "_machine") || (ruleType == "machine" && username == "_machine"))
    ensures ValidUsername(batches[0].username) ==> 1 <= |batches[0].username| <= 31
  {
    NameShort(batches[0].username);
    hide ValidUsername;
    var username, ruleType := batches[0].username, batches[0].ruleType;
    NameNotEmpty();
    if AllAdmitted(username, ruleType, batches) { assert Admit(username, ruleType, batches[0]) == OK; }
  }

  lemma {:induction false} NameShort(name: string)
    ensures ValidUsername(name) ==> 1 <= |name| <= 31
  {}

  lemma {:induction false} NameNotEmpty()
    ensures !ValidUsername("")
  {}

  lemma {:induction false} RunNothing(s: Session)
    ensures Run(s, []) == Ok(s)
  {}

  lemma {:induction false} NothingYet(s: Session, es: seq<FileEntry>)
    ensures StoppedIn(s, es, 0, s) && !Dirtied(s, es[..0], s)
  {
    assert es[..0] == [];
    NotDirtied(s, [], s);
  }

  /** One turn of the receive loop: deadline, identity, entries, acknowledgement. */
  method ReceiveOne(disk: Disk, username: string, ruleType: string, b: Batch, uploads: Uploads,
                    ghost slots: map<string, Slot>, ghost s: Session)
    returns (code: Code, uploads': Uploads, ghost slots': map<string, Slot>, ghost s': Session,
             ghost created: set<ChunkWriter>, ghost done: nat, ghost fault: bool, ghost litter: bool)
    requires Tracks(disk, uploads, slots, s) && Valid(s)
    modifies disk`fs, disk`temps, disk`nextTemp, Writers(uploads)
    ensures Tracks(disk, uploads', slots', s')
    ensures StoppedIn(s, b.files, done, s') && done <= |b.files| && (litter <==> Dirtied(s, b.files[..done], s'))
    ensures code == OK ==> Run(s, b.files) == Ok(s') && Valid(s') && Admit(username, ruleType, b) == OK
    ensures code != OK && !fault ==> Admit(username, ruleType, b) != OK || Run(s, b.files).Err?
    ensures code == OK ==> !litter
    ensures fresh(created) && Writers(uploads') <= Writers(uploads) + created
  {
    hide *;
    NothingYet(s, b.files);
    WithinStart(uploads);
    uploads', slots', s', created, done, litter := uploads, slots, s, {}, 0, false;
    var expired: bool := *;
    fault := expired;
    code := if expired then Canceled else Admit(username, ruleType, b);
    if code == OK {
      var ok;
      ok, uploads', slots', s', created, done, fault, litter := HandleBatch(disk, b.files, uploads, slots, s);
      if ok { NotStopped(s, b.files, s'); }
      WritersFresh(uploads', Writers(uploads), created);
      var acked: bool := *;
      code := if !ok then Internal else if !acked then Canceled else OK;
      if ok { fault := !acked; }
    }
  }

  /** The first n batches were admitted and accepted, and led to `s`. */
  ghost predicate Reached(fs0: FS, username: string, ruleType: string, batches: seq<Batch>, n: nat, s: Session) {
    && n <= |batches|
    && Run(Fresh(fs0), Flatten(batches[..n])) == Ok(s)
    && Valid(s)
    && AllAdmitted(username, ruleType, batches[..n])
  }

  lemma {:induction false} ReachedStart(fs0: FS, username: string, ruleType: string, batches: seq<Batch>)
    requires WellFormed(fs0)
    ensures Reached(fs0, username, ruleType, batches, 0, Fresh(fs0))
  {
    assert batches[..0] == [];
  }

  lemma {:induction false} ReachedStep(fs0: FS, username: string, ruleType: string, batches: seq<Batch>, n: nat,
                                       s: Session, s': Session)
    requires Reached(fs0, username, ruleType, batches, n, s) && n < |batches|
    requires Run(s, batches[n].files) == Ok(s') && Valid(s') && Admit(username, ruleType, batches[n]) == OK
    ensures Reached(fs0, username, ruleType, batches, n + 1, s')
  {
    hide Run, Flatten, Valid, Admit;
    BatchStep(batches, n);
    RunAppend(Fresh(fs0), Flatten(batches[..n]), batches[n].files);
    assert batches[..n + 1] == batches[..n] + [batches[n]];
  }

  lemma {:induction false} ReachedInside(fs0: FS, username: string, ruleType: string, batches: seq<Batch>, n: nat,
                                         s: Session, done: nat, s': Session)
    requires Reached(fs0, username, ruleType, batches, n, s) && n < |batches| && done <= |batches[n].files|
    requires StoppedIn(s, batches[n].files, done, s')
    ensures |Flatten(batches[..n])| + done <= |Flatten(batches)|
    ensures PartWay(fs0, Flatten(batches), |Flatten(batches[..n])| + done, s')
    ensures Dirtied(s, batches[n].files[..done], s') <==>
      Dirtied(Fresh(fs0), Flatten(batches)[..|Flatten(batches[..n])| + done], s')
  {
    hide Run, Flatten, PartWay, Valid, AllAdmitted, StoppedIn, Dirtied;
    InsideBatch(fs0, batches, n, s, done, s');
  }

  lemma {:induction false} ReachedEnd(fs0: FS, username: string, ruleType: string, batches: seq<Batch>, s: Session)
    requires Reached(fs0, username, ruleType, batches, |batches|, s)
    ensures Run(Fresh(fs0), Flatten(batches)) == Ok(s) && AllAdmitted(username, ruleType, batches)
    ensures PartWay(fs0, Flatten(batches), |Flatten(batches)|, s)
    ensures !Dirtied(Fresh(fs0), Flatten(batches)[..|Flatten(batches)|], s)
  {
    assert batches[..|batches|] == batches;
    NotStopped(Fresh(fs0), Flatten(batches), s);
  }

  lemma {:induction false} StreamStart(disk: Disk, username: string, ruleType: string, batches: seq<Batch>)
    requires disk.Valid() && disk.temps == map[]
    ensures Tracks(disk, map[], map[], Fresh(disk.fs)) && Writers(map[]) == {}
    ensures Reached(disk.fs, username, ruleType, batches, 0, Fresh(disk.fs))
  {
    FreshTracks(disk);
    ReachedStart(disk.fs, username, ruleType, batches);
  }

  /** Reasons of the stream itself for which the server refuses it. */
  ghost predicate Refused(fs0: FS, username: string, ruleType: string, batches: seq<Batch>) {
    !AllAdmitted(username, ruleType, batches) || Run(Fresh(fs0), Flatten(batches)).Err?
  }

  lemma {:induction false} ReachedRefused(fs0: FS, username: string, ruleType: string, batches: seq<Batch>, n: nat,
                                          s: Session)
    requires Reached(fs0, username, ruleType, batches, n, s) && n < |batches|
    requires Admit(username, ruleType, batches[n]) != OK || Run(s, batches[n].files).Err?
    ensures Refused(fs0, username, ruleType, batches)
  {
    hide Run, Flatten, Valid, Admit;
    BatchStep(batches, n);
    RunAppend(Fresh(fs0), Flatten(batches[..n]), batches[n].files);
    RunAppend(Fresh(fs0), Flatten(batches[..n + 1]), Flatten(batches[n + 1..]));
  }

  /** The receive loop of one stream: every batch is checked and handled before the next. */
  method ReceiveAll(disk: Disk, username: string, ruleType: string, batches: seq<Batch>)
    returns (code: Code, uploads: Uploads, ghost slots: map<string, Slot>, ghost s: Session, ghost accepted: nat,
             ghost fault: bool, ghost litter: bool)
    requires disk.Valid() && disk.temps == map[]
    modifies disk`fs, disk`temps, disk`nextTemp
    ensures Tracks(disk, uploads, slots, s) && fresh(Writers(uploads))
    ensures PartWay(old(disk.fs), Flatten(batches), accepted, s) && accepted <= |Flatten(batches)|
    ensures litter <==> Dirtied(Fresh(old(disk.fs)), Flatten(batches)[..accepted], s)
    ensures code == OK ==> Run(Fresh(old(disk.fs)), Flatten(batches)) == Ok(s) && accepted == |Flatten(batches)|
    ensures code == OK ==> AllAdmitted(username, ruleType, batches)
    ensures code != OK && !fault ==> Refused(old(disk.fs), username, ruleType, batches)
  {
    hide *;
    ghost var fs0 := disk.fs;
    StreamStart(disk, username, ruleType, batches);
    code, uploads, slots, s, accepted, fault, litter := OK, map[], map[], Fresh(fs0), 0, false, false;
    var n := 0;
    while code == OK && n < |batches|
      invariant 0 <= n <= |batches|
      invariant Tracks(disk, uploads, slots, s) && fresh(Writers(uploads))
      invariant accepted <= |Flatten(batches)|
      invariant code == OK ==> Reached(fs0, username, ruleType, batches, n, s) && !litter
      invariant code != OK ==> PartWay(fs0, Flatten(batches), accepted, s)
      invariant code != OK ==> (litter <==> Dirtied(Fresh(fs0), Flatten(batches)[..accepted], s))
      invariant code == OK || fault || Refused(fs0, username, ruleType, batches)
      decreases |batches| - n, code == OK
    {
      ReachedValid(fs0, username, ruleType, batches, n, s);
      ghost var before, created, done := s, {}, 0;
      code, uploads, slots, s, created, done, fault, litter := ReceiveOne(disk, username, ruleType, batches[n], uploads,
        slots, s);
      if code == OK {
        ReachedStep(fs0, username, ruleType, batches, n, before, s);
        n := n + 1;
      } else {
        ReachedInside(fs0, username, ruleType, batches, n, before, done, s);
        accepted := |Flatten(batches[..n])| + done;
        if !fault { ReachedRefused(fs0, username, ruleType, batches, n, before); }
      }
    }
    if code == OK {
      ReachedEnd(fs0, username, ruleType, batches, s);
      accepted := |Flatten(batches)|;
    }
  }

  lemma {:induction false} ReachedValid(fs0: FS, username: string, ruleType: string, batches: seq<Batch>, n: nat,
                                        s: Session)
    requires Reached(fs0, username, ruleType, batches, n, s)
    ensures Valid(s)
  {}

  /** What a stream may do to a dataset: the tree is that of some accepted prefix of the entries it
      carried, with the residue of where it stopped, and the snapshots are the newest of the old ones
      followed by at most one new one. That one is taken only when every entry was accepted and every
      upload was finished, and it is exactly the live tree, with no staging file in it. */
  ghost predicate StreamEffect(fs0: FS, snaps0: seq<Snapshot>, es: seq<FileEntry>, accepted: nat, took: bool,
                               fs: FS, snaps: seq<Snapshot>) {
    && accepted <= |es| && Run(Fresh(fs0), es[..accepted]).Ok?
    && Residue(Run(Fresh(fs0), es[..accepted]).value, NextEntry(es, accepted), fs)
    && (took ==> Run(Fresh(fs0), es) == Ok(Fresh(fs)) && accepted == |es|)
    && (took ==> Suffix(snaps, snaps0 + [Snapshot(fs, map[])]))
    && (!took ==> snaps == snaps0)
  }

  /** The stream left a temporary file behind. */
  ghost predicate LeavesLitter(fs0: FS, es: seq<FileEntry>, accepted: nat, fs: FS)
    requires accepted <= |es|
  {
    Dirtied(Fresh(fs0), es[..accepted], Fresh(fs))
  }

  lemma {:induction false} FreshValid(fs: FS)
    requires WellFormed(fs)
    ensures Valid(Fresh(fs))
  {}

  lemma {:induction false} Untaken(fs0: FS, snaps0: seq<Snapshot>, es: seq<FileEntry>, accepted: nat, s: Session,
                                   left: map<string, string>, fs: FS)
    requires WellFormed(fs0) && PartWay(fs0, es, accepted, s) && LeftOver(s, left, fs) && accepted <= |es|
    ensures StreamEffect(fs0, snaps0, es, accepted, false, fs, snaps0)
    ensures LeavesLitter(fs0, es, accepted, fs) <==> Dirtied(Fresh(fs0), es[..accepted], s) || left != map[]
  {
    hide Run, LeftOver, Residue, NewFiles, Valid, WellFormed;
    FreshValid(fs0);
    StoppedResidue(Fresh(fs0), es, accepted, s, left, fs);
  }

  lemma {:induction false} Taken(fs0: FS, snaps0: seq<Snapshot>, es: seq<FileEntry>, s: Session,
                                 left: map<string, string>, fs: FS, snaps: seq<Snapshot>)
    requires WellFormed(fs0) && Run(Fresh(fs0), es) == Ok(s) && s.open == map[] && LeftOver(s, left, fs)
    requires Suffix(snaps, snaps0 + [Snapshot(s.fs, map[])])
    ensures StreamEffect(fs0, snaps0, es, |es|, true, fs, snaps) && left == map[] && fs == s.fs
    ensures !LeavesLitter(fs0, es, |es|, fs)
  {
    hide Run, Residue, NewFiles, Valid, WellFormed;
    assert left.Keys == {} && left == map[];
    NothingLeft(s, fs);
    assert s == Fresh(s.fs);
    NotStopped(Fresh(fs0), es, s);
    Untaken(fs0, snaps0, es, |es|, s, left, fs);
  }

  lemma {:induction false} TracksFs(disk: Disk, uploads: Uploads, slots: map<string, Slot>, s: Session)
    requires Tracks(disk, uploads, slots, s)
    ensures disk.Valid() && disk.fs == s.fs
  {}

  /** After a clean end: refuse unfinished uploads, otherwise snapshot and prune. */
  method Finish(disk: Disk, uploads: Uploads, ghost slots: map<string, Slot>, ghost s: Session, policy: Policy)
    returns (code: Code, ghost took: bool, ghost fault: bool)
    requires Tracks(disk, uploads, slots, s)
    modifies disk`snaps
    ensures Tracks(disk, uploads, slots, s)
    ensures took ==> uploads == map[] && Suffix(disk.snaps, old(disk.snaps) + [Snapshot(disk.fs, map[])])
    ensures took ==> |disk.snaps| >= Min(|old(disk.snaps)| + 1, policy.minKeep)
    ensures !took ==> disk.snaps == old(disk.snaps)
    ensures code == OK ==> took
    ensures uploads != map[] ==> code == InvalidArgument
    ensures code != OK && !fault ==> uploads != map[]
  {
    hide *;
    took, fault := false, false;
    if uploads != map[] { return InvalidArgument, false, false; }
    NoUploadsNoTemps(disk, uploads, slots, s);
    TracksNothing(disk, uploads, slots, s);
    var expired: bool := *;
    if expired { return Canceled, false, true; }
    var ok := disk.CreateSnapshot();
    TracksNothing(disk, uploads, slots, s);
    if !ok { return Internal, false, true; }
    took := true;
    var cleaned, readings;
    ghost var failed;
    cleaned, readings, failed := CleanupSnapshots(disk, policy);
    code, fault := if cleaned then OK else Internal, !cleaned;
    TracksNothing(disk, uploads, slots, s);
  }

  /** Without uploads only the tree, the staging files and their numbering matter. */
  ghost predicate NothingTracked(fs: FS, temps: Temps, nextTemp: nat, slots: map<string, Slot>, s: Session) {
    && WellFormed(fs) && fs == s.fs && slots == map[] && Refines(temps, slots, s.open)
    && forall t :: t in temps ==>
      t < nextTemp && Paths.IsArchivePath(temps[t].target) && Rooted(fs.dirs, temps[t].target)
  }

  lemma {:induction false} TracksNothing(disk: Disk, uploads: Uploads, slots: map<string, Slot>, s: Session)
    requires uploads == map[]
    ensures Tracks(disk, uploads, slots, s) <==> NothingTracked(disk.fs, disk.temps, disk.nextTemp, slots, s)
  {
    hide Refines, WellFormed, Paths.IsArchivePath, Rooted;
    assert slots.Keys == {} <==> slots == map[];
  }

  /** A stream the server has no reason to refuse: every batch is admitted, every entry is accepted, and
      nothing is left unfinished. */
  ghost predicate Acceptable(fs0: FS, username: string, ruleType: string, batches: seq<Batch>) {
    && AllAdmitted(username, ruleType, batches)
    && var r := Run(Fresh(fs0), Flatten(batches)); r.Ok? && r.value.open == map[]
  }

  lemma {:induction false} RefusedOrAcceptable(fs0: FS, username: string, ruleType: string, batches: seq<Batch>)
    ensures Refused(fs0, username, ruleType, batches) ==> !Acceptable(fs0, username, ruleType, batches)
  {}

  lemma {:induction false} LeftOpen(disk: Disk, uploads: Uploads, slots: map<string, Slot>, s: Session, fs0: FS,
                                    username: string, ruleType: string, batches: seq<Batch>)
    requires Tracks(disk, uploads, slots, s) && Run(Fresh(fs0), Flatten(batches)) == Ok(s)
    ensures uploads != map[] ==> !Acceptable(fs0, username, ruleType, batches)
    ensures uploads == map[] && AllAdmitted(username, ruleType, batches) ==>
      Acceptable(fs0, username, ruleType, batches)
  {
    hide Run, Flatten, AllAdmitted;
    RefinesKeys(disk.temps, slots, s.open);
    assert uploads != map[] ==> uploads.Keys != {};
    assert s.open == map[] ==> s.open.Keys == {};
    assert s.open.Keys == {} ==> s.open == map[];
  }

  /** One whole stream on one dataset that no other stream is using. Unless the machine or the network
      fails, it is answered with success exactly if it ends properly and is acceptable. */
  method ReceiveStream(disk: Disk, username: string, ruleType: string, batches: seq<Batch>, end: StreamEnd,
                       policy: Policy)
    returns (code: Code, ghost accepted: nat, ghost took: bool, ghost fault: bool, ghost litter: bool)
    requires disk.Valid() && disk.temps == map[]
    modifies disk
    ensures disk.Valid() && disk.temps == map[] && accepted <= |Flatten(batches)|
    ensures litter <==> LeavesLitter(old(disk.fs), Flatten(batches), accepted, disk.fs)
    ensures StreamEffect(old(disk.fs), old(disk.snaps), Flatten(batches), accepted, took, disk.fs, disk.snaps)
    ensures took ==> end.Eof? && Acceptable(old(disk.fs), username, ruleType, batches)
    ensures took ==> |disk.snaps| >= Min(|old(disk.snaps)| + 1, policy.minKeep)
    ensures code == OK ==> took
    ensures code != OK && !fault ==> end.Broken? || !Acceptable(old(disk.fs), username, ruleType, batches)
  {
    hide *;
    ghost var fs0, snaps0, es := disk.fs, disk.snaps, Flatten(batches);
    var uploads: Uploads;
    ghost var slots, s;
    DiskWellFormed(disk);
    code, uploads, slots, s, accepted, fault, litter := ReceiveAll(disk, username, ruleType, batches);
    took := false;
    RefusedOrAcceptable(fs0, username, ruleType, batches);
    if code == OK {
      LeftOpen(disk, uploads, slots, s, fs0, username, ruleType, batches);
      if end.Broken? {
        code := Canceled;
      } else {
        code, took, fault := Finish(disk, uploads, slots, s, policy);
      }
    }
    if took { NoUploadsNoTemps(disk, uploads, slots, s); }
    TracksFs(disk, uploads, slots, s);
    ghost var left := AbortUploads(disk, uploads, slots, s);
    if took {
      Taken(fs0, snaps0, es, s, left, disk.fs, disk.snaps);
      NotStopped(Fresh(fs0), es, s);
      litter := false;
    } else {
      Untaken(fs0, snaps0, es, accepted, s, left, disk.fs);
      litter := litter || left != map[];
    }
  }

  /** Every snapshot is a whole tree with no staging file in it. */
  ghost predicate CleanSnaps(snaps: seq<Snapshot>) {
    forall i :: 0 <= i < |snaps| ==> snaps[i].temps == map[] && WellFormed(snaps[i].fs)
  }

  /** Snapshot integrity is kept by every stream, however it ends. */
  lemma {:induction false} EffectKeepsClean(fs0: FS, snaps0: seq<Snapshot>, es: seq<FileEntry>, accepted: nat,
                                            took: bool, fs: FS, snaps: seq<Snapshot>)
    requires StreamEffect(fs0, snaps0, es, accepted, took, fs, snaps) && WellFormed(fs) && CleanSnaps(snaps0)
    ensures CleanSnaps(snaps)
  {
    hide PartWay, Run, WellFormed, CleanSnaps, Suffix;
    if took {
      var all := snaps0 + [Snapshot(fs, map[])];
      CleanMore(snaps0, Snapshot(fs, map[]));
      CleanSuffix(snaps, all);
    }
  }

  lemma {:induction false} CleanMore(snaps: seq<Snapshot>, s: Snapshot)
    requires CleanSnaps(snaps) && s.temps == map[] && WellFormed(s.fs)
    ensures CleanSnaps(snaps + [s])
  {
    hide WellFormed;
  }

  lemma {:induction false} CleanSuffix(after: seq<Snapshot>, before: seq<Snapshot>)
    requires Suffix(after, before) && CleanSnaps(before)
    ensures CleanSnaps(after)
  {
    hide WellFormed;
    forall i | 0 <= i < |after| ensures after[i] == before[|before| - |after| + i] {}
  }

  lemma {:induction false} DiskWellFormed(disk: Disk)
    requires disk.Valid()
    ensures WellFormed(disk.fs)
  {}

  /** The server's datasets, one for each user of the host. */
  class Host {
    const policy: Policy
    var datasets: map<string, Disk>

    ghost predicate Idle()
      reads this, datasets.Values
    {
      && (forall u :: u in datasets ==>
            datasets[u].Valid() && datasets[u].temps == map[] && CleanSnaps(datasets[u].snaps))
      && (forall u, v :: u in datasets && v in datasets && u != v ==> datasets[u] != datasets[v])
    }

    /** The dataset of a user, created empty if it is missing. */
    method EnsureDataset(user: string) returns (d: Option<Disk>)
      requires Idle()
      modifies this`datasets
      ensures d.None? ==> datasets == old(datasets)
      ensures d.Some? && user in old(datasets) ==> datasets == old(datasets) && d.value == datasets[user]
      ensures d.Some? && user !in old(datasets) ==> datasets == old(datasets)[user := d.value] && fresh(d.value)
      ensures d.Some? && user !in old(datasets) ==> d.value.fs == EMPTY_FS && d.value.snaps == []
      ensures d.Some? ==> d.value.Valid() && d.value.temps == map[] && CleanSnaps(d.value.snaps)
    {
      var ok: bool := *;
      if !ok { return None; }
      if user !in datasets {
        var created := new Disk();
        datasets := datasets[user := created];
      }
      return Some(datasets[user]);
    }

    /** The handler: the first batch fixes the user, the rule type and the dataset. `used` is that
        dataset, when the stream got as far as opening it; no other dataset is touched. */
    method PushBackup(batches: seq<Batch>, end: StreamEnd)
      returns (code: Code, used: Option<Disk>, ghost fs0: FS, ghost snaps0: seq<Snapshot>, ghost accepted: nat,
               ghost took: bool, ghost fault: bool, ghost litter: bool)
      requires Idle()
      modifies this`datasets, datasets.Values
      ensures used.None? ==> datasets == old(datasets) && forall u :: u in datasets ==> unchanged(datasets[u])
      ensures used.Some? ==>
        batches != [] && batches[0].username in datasets && used.value == datasets[batches[0].username]
      ensures used.Some? ==> datasets == old(datasets)[batches[0].username := used.value]
      ensures used.Some? ==> forall u :: u in old(datasets) && u != batches[0].username ==> unchanged(old(datasets[u]))
      ensures used.Some? && batches[0].username in old(datasets) ==>
        used.value == old(datasets[batches[0].username]) && fs0 == old(used.value.fs) && snaps0 == old(used.value.snaps)
      ensures used.Some? && batches[0].username !in old(datasets) ==>
        fresh(used.value) && fs0 == EMPTY_FS && snaps0 == []
      ensures used.Some? ==> used.value.Valid() && used.value.temps == map[]
      ensures used.Some? ==> accepted <= |Flatten(batches)|
      ensures used.Some? ==> (litter <==> LeavesLitter(fs0, Flatten(batches), accepted, used.value.fs))
      ensures used.None? ==> !litter
      ensures used.Some? ==> StreamEffect(fs0, snaps0, Flatten(batches), accepted, took, used.value.fs,
        used.value.snaps)
      ensures took ==> used.Some? && end.Eof? && Acceptable(fs0, batches[0].username, batches[0].ruleType, batches)
      ensures code != OK && !fault && end.Eof? ==>
        batches != [] && (used.Some? || !AllAdmitted(batches[0].username, batches[0].ruleType, batches))
      ensures code != OK && !fault && end.Eof? && used.Some? ==>
        !Acceptable(fs0, batches[0].username, batches[0].ruleType, batches)
      ensures took ==> |used.value.snaps| >= Min(|snaps0| + 1, policy.minKeep)
      ensures code == OK && batches != [] ==> took
      ensures Idle()
    {
      hide StreamEffect, LeavesLitter, Flatten, AllAdmitted, Admit, CleanSnaps, Acceptable;
      code, used, fs0, snaps0, accepted, took, fault, litter := OK, None, EMPTY_FS, [], 0, false, false, false;
      if |batches| == 0 {
        code := if end.Eof? then OK else Canceled;
        return;
      }
      var user, ruleType := batches[0].username, batches[0].ruleType;
      code := Admit("", "", batches[0]);
      FirstAdmitted(batches);
      if code != OK { return; }
      var disk := EnsureDataset(user);
      if disk.None? { code, fault := Internal, true; return; }
      used, fs0, snaps0 := disk, disk.value.fs, disk.value.snaps;
      code, accepted, took, fault, litter := ReceiveStream(disk.value, user, ruleType, batches, end, policy);
      DiskWellFormed(disk.value);
      EffectKeepsClean(fs0, snaps0, Flatten(batches), accepted, took, disk.value.fs, disk.value.snaps);
    }
  }

  lemma {:induction false} FirstAdmitted(batches: seq<Batch>)
    requires batches != []
    ensures AllAdmitted(batches[0].username, batches[0].ruleType, batches) ==> Admit("", "", batches[0]) == OK
  {}
}
