/** The restore stream: what the server emits for a snapshot, what the agent makes of any stream,
    and the proof that the second inverts the first. */
module RestoreMachine {
  import opened Integers
  import opened Model
  import opened Paths
  import opened Namespacing
  import opened FileSystem
  import opened StreamMachine
  import opened Wire

  // ---- sender: one entry for a small file, chunks for a large one ----------------------------

  function EntriesOfFile(path: string, f: File, size: nat): seq<FileEntry>
    requires size > 0
  {
    if |f.content| <= size then [FileEntry(path, f.content, f.mode, false, false, 0, true)]
    else ChunksFrom(path, f.content, f.mode, size, 0)
  }

  function Emit(files: map<string, File>, order: seq<string>, size: nat): seq<FileEntry>
    requires size > 0 && forall i :: 0 <= i < |order| ==> order[i] in files
    decreases |order|
  {
    if order == [] then []
    else
      var p := order[|order| - 1];
      Emit(files, order[..|order| - 1], size) + EntriesOfFile(p, files[p], size)
  }

  /** Every file once, in whatever order the walk visits them. */
  ghost predicate Visits(order: seq<string>, paths: set<string>) {
    && (forall i :: 0 <= i < |order| ==> order[i] in paths)
    && (forall p :: p in paths ==> p in order)
    && (forall i, j :: 0 <= i < j < |order| ==> order[i] != order[j])
  }

  // ---- receiver ------------------------------------------------------------------------------

  /** What creating a file leaves of the mode word it is asked for: the creation mask, and what the system
      makes of the bits above the nine permissions. */
  type Creation = Mode -> Mode

  datatype RestoreWriter = RestoreWriter(key: string, next: nat, mode: Mode)

  /** The temporary tree being filled, and the files in it that still expect chunks. */
  datatype RestoreState = RestoreState(fs: FS, writers: map<string, RestoreWriter>)

  const EMPTY_RESTORE: RestoreState := RestoreState(EMPTY_FS, map[])

  datatype Refusal =
    | Deleted | Offset | BadPath | NotWritable | Exists | ModeDiffers | Unfinished

  /** The name below the root a raw path is written to; None is the root itself. */
  function RestoreKey(root: string, path: string): Result<Option<string>, Refusal> {
    match RestoreTargetPath(root, path)
    case Err(_) => Err(BadPath)
    case Ok(target) => if target == root || |target| <= |root| then Ok(None) else Ok(Some(target[|root| + 1..]))
  }

  // Bytes written at an offset of an open file: what lies beyond stays, a gap reads as zeros.
  function WriteAt(data: Bytes, at: nat, bytes: Bytes): Bytes {
    (if |data| >= at then data[..at] else data + seq(at - |data|, _ => 0))
    + bytes + (if |data| > at + |bytes| then data[at + |bytes|..] else [])
  }

  function OpenChunked(root: string, umask: Creation, st: RestoreState, e: FileEntry): Result<RestoreState, Refusal> {
    if e.path in st.writers then Ok(st)
    else if e.chunkOffset != 0 then Err(Offset)
    else match RestoreKey(root, e.path)
      case Err(r) => Err(r)
      case Ok(None) => Err(Exists)
      case Ok(Some(key)) =>
        if ParentIsFile(st.fs, key) then Err(NotWritable)
        else if key in st.fs.files || key in st.fs.dirs then Err(Exists)
        else Ok(RestoreState(Put(st.fs, key, File([], umask(0x180))),
          st.writers[e.path := RestoreWriter(key, 0, e.mode)]))
  }

  function AppendChunk(st: RestoreState, e: FileEntry): Result<RestoreState, Refusal>
    requires e.path in st.writers
  {
    var w := st.writers[e.path];
    if e.chunkOffset != w.next then Err(Offset)
    else if e.mode != w.mode then Err(ModeDiffers)
    else if w.key !in st.fs.files then Err(NotWritable)
    else
      var f := st.fs.files[w.key];
      var grown := f.(content := WriteAt(f.content, w.next, e.content));
      Ok(RestoreState(st.fs.(files := st.fs.files[w.key := grown]),
        st.writers[e.path := w.(next := w.next + |e.content|)]))
  }

  function CloseChunked(st: RestoreState, e: FileEntry): RestoreState
    requires e.path in st.writers && st.writers[e.path].key in st.fs.files
  {
    var key := st.writers[e.path].key;
    RestoreState(st.fs.(files := st.fs.files[key := st.fs.files[key].(mode := Perm(e.mode))]), st.writers - {e.path})
  }

  function RestoreChunk(root: string, umask: Creation, st: RestoreState, e: FileEntry): Result<RestoreState, Refusal> {
    if e.deleted then Err(Deleted)
    else match OpenChunked(root, umask, st, e)
      case Err(r) => Err(r)
      case Ok(st1) =>
        match AppendChunk(st1, e)
        case Err(r) => Err(r)
        case Ok(st2) => Ok(if e.finalChunk then CloseChunked(st2, e) else st2)
  }

  function RestorePlain(root: string, umask: Creation, st: RestoreState, e: FileEntry): Result<RestoreState, Refusal> {
    if e.path in st.writers then Err(Unfinished)
    else match RestoreKey(root, e.path)
      case Err(r) => Err(r)
      case Ok(key) =>
        if e.deleted then Ok(st)
        else if key.None? || ParentIsFile(st.fs, key.value) || key.value in st.fs.dirs then Err(NotWritable)
        else
          var mode := if key.value in st.fs.files then st.fs.files[key.value].mode else umask(e.mode);
          Ok(st.(fs := Put(st.fs, key.value, File(e.content, mode))))
  }

  function RestoreStep(root: string, umask: Creation, st: RestoreState, e: FileEntry): Result<RestoreState, Refusal> {
    if e.chunked then RestoreChunk(root, umask, st, e) else RestorePlain(root, umask, st, e)
  }

  function RunRestore(root: string, umask: Creation, st: RestoreState,
                      es: seq<FileEntry>): Result<RestoreState, Refusal>
    decreases |es|
  {
    if es == [] then Ok(st)
    else match RunRestore(root, umask, st, es[..|es| - 1])
      case Err(r) => Err(r)
      case Ok(st1) => RestoreStep(root, umask, st1, es[|es| - 1])
  }

  lemma {:induction false} RestoreAppend(root: string, umask: Creation, st: RestoreState, a: seq<FileEntry>,
                                         b: seq<FileEntry>)
    ensures RunRestore(root, umask, st, a + b) ==
      match RunRestore(root, umask, st, a) { case Err(r) => Err(r) case Ok(st1) => RunRestore(root, umask, st1, b) }
    decreases |b|
  {
    hide RestoreStep;
    if b == [] {
      assert a + b == a;
    } else {
      var c := b[..|b| - 1];
      assert (a + b)[..|a + b| - 1] == a + c;
      RestoreAppend(root, umask, st, a, c);
    }
  }

  lemma {:induction false} RestoreSingle(root: string, umask: Creation, st: RestoreState, e: FileEntry)
    ensures RunRestore(root, umask, st, [e]) == RestoreStep(root, umask, st, e)
  {
    hide RestoreStep;
    assert [e][..0] == [];
  }

  lemma {:induction false} ArchiveRestoreKey(root: string, p: string)
    requires BaseDir(root) && IsArchivePath(p)
    ensures RestoreKey(root, p) == Ok(Some(p))
  {
    hide RestoreTargetPath, IsArchivePath;
    RestoreTargetAccepts(root, p);
    assert (root + "/" + p)[|root| + 1..] == p;
  }

  lemma {:induction false} WriteAtEnd(data: Bytes, bytes: Bytes)
    ensures WriteAt(data, |data|, bytes) == data + bytes
  {}

  // ---- the receiver inverts the sender -------------------------------------------------------

  /** What a restored file looks like: the same bytes; a chunked file gets its mode by chmod, a file
      written in one piece gets what the process's creation mask leaves of it. */
  function RestoredFile(umask: Creation, f: File, size: nat): File {
    File(f.content, if |f.content| <= size then umask(f.mode) else Perm(f.mode))
  }

  /** In the middle of receiving one chunked file, everything before `off` written. */
  ghost predicate MidFile(st: RestoreState, fs: FS, p: string, f: File, m0: Mode, off: nat) {
    && off <= |f.content|
    && st == RestoreState(Put(fs, p, File(f.content[..off], m0)), map[p := RestoreWriter(p, off, f.mode)])
  }

  lemma {:induction false} ChunkArrives(root: string, umask: Creation, st: RestoreState, fs: FS, p: string, f: File,
                                        m0: Mode, off: nat, end: nat)
    requires MidFile(st, fs, p, f, m0, off) && off < end <= |f.content|
    ensures var e := FileEntry(p, f.content[off..end], f.mode, false, true, off, end == |f.content|);
      RestoreStep(root, umask, st, e) == Ok(
        if end == |f.content| then RestoreState(Put(fs, p, File(f.content, Perm(f.mode))), map[])
        else RestoreState(Put(fs, p, File(f.content[..end], m0)), map[p := RestoreWriter(p, end, f.mode)]))
  {
    var e := FileEntry(p, f.content[off..end], f.mode, false, true, off, end == |f.content|);
    WriteAtEnd(f.content[..off], f.content[off..end]);
    assert f.content[..off] + f.content[off..end] == f.content[..end];
    var w := RestoreWriter(p, end, f.mode);
    assert st.writers[p := w] == map[p := w];
    var st2 := RestoreState(Put(fs, p, File(f.content[..end], m0)), map[p := w]);
    assert st.fs.(files := st.fs.files[p := File(f.content[..end], m0)]) == st2.fs;
    assert AppendChunk(st, e) == Ok(st2);
    if end == |f.content| {
      assert f.content[..end] == f.content;
      assert map[p := w] - {p} == map[];
      assert st2.fs.(files := st2.fs.files[p := File(f.content, Perm(f.mode))]) ==
        Put(fs, p, File(f.content, Perm(f.mode)));
    }
  }

  lemma {:induction false} ChunksArrive(root: string, umask: Creation, st: RestoreState, fs: FS, p: string, f: File,
                                        m0: Mode, size: nat, off: nat)
    requires size > 0 && MidFile(st, fs, p, f, m0, off) && off < |f.content|
    ensures RunRestore(root, umask, st, ChunksFrom(p, f.content, f.mode, size, off)) ==
      Ok(RestoreState(Put(fs, p, File(f.content, Perm(f.mode))), map[]))
    decreases |f.content| - off
  {
    hide RestoreStep;
    var end := Min(off + size, |f.content|);
    var e := FileEntry(p, f.content[off..end], f.mode, false, true, off, end == |f.content|);
    var rest := ChunksFrom(p, f.content, f.mode, size, end);
    ChunkArrives(root, umask, st, fs, p, f, m0, off, end);
    RestoreSingle(root, umask, st, e);
    RestoreAppend(root, umask, st, [e], rest);
    if end < |f.content| {
      var st1 := RestoreState(Put(fs, p, File(f.content[..end], m0)), map[p := RestoreWriter(p, end, f.mode)]);
      ChunksArrive(root, umask, st1, fs, p, f, m0, size, end);
    }
  }

  /** One file of the snapshot arrives whole, if nothing restored so far is in its way. */
  lemma {:induction false} FileArrives(root: string, umask: Creation, fs: FS, p: string, f: File, size: nat)
    requires BaseDir(root) && IsArchivePath(p) && size > 0
    requires CanPut(fs, p) && p !in fs.files
    ensures RunRestore(root, umask, RestoreState(fs, map[]), EntriesOfFile(p, f, size)) ==
      Ok(RestoreState(Put(fs, p, RestoredFile(umask, f, size)), map[]))
  {
    ArchiveRestoreKey(root, p);
    hide RestoreTargetPath, RestoreKey, IsArchivePath, BaseDir;
    var st := RestoreState(fs, map[]);
    var es := EntriesOfFile(p, f, size);
    if |f.content| <= size {
      RestoreSingle(root, umask, st, es[0]);
    } else {
      var m0 := umask(0x180);
      var st1 := RestoreState(Put(fs, p, File([], m0)), map[p := RestoreWriter(p, 0, f.mode)]);
      assert f.content[..0] == [];
      assert OpenChunked(root, umask, st, es[0]) == Ok(st1) == OpenChunked(root, umask, st1, es[0]);
      SameFirst(root, umask, st, st1, es);
      ChunksArrive(root, umask, st1, fs, p, f, m0, size, 0);
    }
  }

  /** Two states that treat the first entry alike treat the whole list alike. */
  lemma {:induction false} SameFirst(root: string, umask: Creation, a: RestoreState, b: RestoreState,
                                     es: seq<FileEntry>)
    requires es != [] && RestoreStep(root, umask, a, es[0]) == RestoreStep(root, umask, b, es[0])
    ensures RunRestore(root, umask, a, es) == RunRestore(root, umask, b, es)
  {
    hide RestoreStep;
    assert es == [es[0]] + es[1..];
    RestoreSingle(root, umask, a, es[0]);
    RestoreSingle(root, umask, b, es[0]);
    RestoreAppend(root, umask, a, [es[0]], es[1..]);
    RestoreAppend(root, umask, b, [es[0]], es[1..]);
  }

  /** The tree after the first n files: those files, and only directories above them. */
  ghost predicate Arrived(fs: FS, files: map<string, File>, order: seq<string>, n: nat, umask: Creation, size: nat)
    requires n <= |order|
  {
    && (forall p :: p in fs.files <==> p in order[..n])
    && (forall p :: p in fs.files ==> p in files && fs.files[p] == RestoredFile(umask, files[p], size))
    && (forall d :: d in fs.dirs ==> exists p :: p in files && Ancestor(d, p))
  }

  lemma {:induction false} RoomForNext(fs: FS, files: map<string, File>, order: seq<string>, n: nat, umask: Creation,
                                       size: nat)
    requires n < |order| && Arrived(fs, files, order, n, umask, size)
    requires Visits(order, files.Keys) && PrefixFree(files.Keys)
    ensures CanPut(fs, order[n]) && order[n] !in fs.files
  {
    var p := order[n];
    assert p in files.Keys;
    assert forall q :: q in files ==> q in files.Keys;
    assert forall a :: a in Ancestors(p) ==> Ancestor(a, p);
  }

  lemma {:induction false} NextArrived(fs: FS, files: map<string, File>, order: seq<string>, n: nat, umask: Creation,
                                       size: nat)
    requires n < |order| && Arrived(fs, files, order, n, umask, size) && order[n] in files
    ensures Arrived(Put(fs, order[n], RestoredFile(umask, files[order[n]], size)), files, order, n + 1, umask, size)
  {
    var p := order[n];
    assert order[..n + 1] == order[..n] + [p];
    var out := Put(fs, p, RestoredFile(umask, files[p], size));
    forall d | d in out.dirs ensures exists q :: q in files && Ancestor(d, q) {
      if d !in fs.dirs { assert Ancestor(d, p); }
    }
  }

  lemma {:induction false} EmitStep(files: map<string, File>, order: seq<string>, n: nat, size: nat)
    requires size > 0 && n < |order| && forall i :: 0 <= i < |order| ==> order[i] in files
    ensures Emit(files, order[..n + 1], size) ==
      Emit(files, order[..n], size) + EntriesOfFile(order[n], files[order[n]], size)
  {
    assert order[..n + 1][..n] == order[..n];
  }

  /** One more file restored. */
  lemma {:induction false} OneMoreArrives(root: string, umask: Creation, files: map<string, File>, order: seq<string>,
                                          n: nat, size: nat, fs: FS)
    requires BaseDir(root) && size > 0 && n < |order|
    requires Visits(order, files.Keys) && PrefixFree(files.Keys)
    requires forall p :: p in files ==> IsArchivePath(p)
    requires RunRestore(root, umask, EMPTY_RESTORE, Emit(files, order[..n], size)) == Ok(RestoreState(fs, map[]))
    requires Arrived(fs, files, order, n, umask, size)
    ensures var out := Put(fs, order[n], RestoredFile(umask, files[order[n]], size));
      && RunRestore(root, umask, EMPTY_RESTORE, Emit(files, order[..n + 1], size)) == Ok(RestoreState(out, map[]))
      && Arrived(out, files, order, n + 1, umask, size)
  {
    hide IsArchivePath, BaseDir, RunRestore, Arrived, PrefixFree, RestoredFile, EntriesOfFile, Put, Emit, CanPut;
    var p := order[n];
    assert p in files;
    EmitStep(files, order, n, size);
    RoomForNext(fs, files, order, n, umask, size);
    FileArrives(root, umask, fs, p, files[p], size);
    NextArrived(fs, files, order, n, umask, size);
    RestoreAppend(root, umask, EMPTY_RESTORE, Emit(files, order[..n], size), EntriesOfFile(p, files[p], size));
  }

  lemma {:induction false} EmitArrives(root: string, umask: Creation, files: map<string, File>, order: seq<string>,
                                       n: nat, size: nat) returns (fs: FS)
    requires BaseDir(root) && size > 0 && n <= |order|
    requires Visits(order, files.Keys) && PrefixFree(files.Keys)
    requires forall p :: p in files ==> IsArchivePath(p)
    ensures RunRestore(root, umask, EMPTY_RESTORE, Emit(files, order[..n], size)) == Ok(RestoreState(fs, map[]))
    ensures Arrived(fs, files, order, n, umask, size)
    decreases n
  {
    if n == 0 {
      assert order[..0] == [];
      fs := EMPTY_FS;
    } else {
      hide IsArchivePath, BaseDir, RunRestore, Arrived, PrefixFree, RestoredFile, EntriesOfFile, Put, Emit;
      var before := EmitArrives(root, umask, files, order, n - 1, size);
      OneMoreArrives(root, umask, files, order, n - 1, size, before);
      fs := Put(before, order[n - 1], RestoredFile(umask, files[order[n - 1]], size));
    }
  }

  /** The restored counterpart of a file map. */
  function RestoredMap(umask: Creation, files: map<string, File>, size: nat): map<string, File> {
    map p | p in files :: RestoredFile(umask, files[p], size)
  }

  lemma {:induction false} AllArrived(fs: FS, files: map<string, File>, order: seq<string>, umask: Creation, size: nat)
    requires Arrived(fs, files, order, |order|, umask, size) && Visits(order, files.Keys)
    ensures fs.files == RestoredMap(umask, files, size)
  {
    assert order[..|order|] == order;
    assert forall p :: p in files ==> p in files.Keys;
  }

  /** Restore reassembly inverts the server's chunker: for every prefix-free file map, every visiting
      order and every chunk size, the emitted entries are all accepted, nothing stays unfinished, and
      the rebuilt map has the same paths and bytes. */
  lemma {:induction false} RestoreInverts(root: string, umask: Creation, files: map<string, File>, order: seq<string>,
                                          size: nat)
    requires BaseDir(root) && size > 0
    requires Visits(order, files.Keys) && PrefixFree(files.Keys)
    requires forall p :: p in files ==> IsArchivePath(p)
    ensures var r := RunRestore(root, umask, EMPTY_RESTORE, Emit(files, order, size));
      r.Ok? && r.value.writers == map[] && r.value.fs.files == RestoredMap(umask, files, size)
  {
    var fs := EmitArrives(root, umask, files, order, |order|, size);
    AllArrived(fs, files, order, umask, size);
    hide RunRestore, IsArchivePath, PrefixFree, Emit, Arrived, RestoredMap, Visits;
    assert order[..|order|] == order;
  }

  /** The rebuilt map is the stored one, modes included, exactly when the creation mask takes nothing
      from the mode of any file small enough to travel in one piece. */
  lemma {:induction false} RestoreExactIff(umask: Creation, files: map<string, File>, size: nat)
    requires forall p :: p in files ==> files[p].mode == Perm(files[p].mode)
    ensures RestoredMap(umask, files, size) == files <==>
      forall p :: p in files && |files[p].content| <= size ==> umask(files[p].mode) == files[p].mode
  {
    var out := RestoredMap(umask, files, size);
    if out == files {
      forall p | p in files && |files[p].content| <= size ensures umask(files[p].mode) == files[p].mode {
        assert out[p] == files[p];
      }
    }
    if forall p :: p in files && |files[p].content| <= size ==> umask(files[p].mode) == files[p].mode {
      assert forall p :: p in files ==> out[p] == files[p];
    }
  }

  // ---- any accepted stream is in order -------------------------------------------------------

  /** What the history says the bytes written under raw path r should be: the last piece written whole, or
      all chunks of the last chunked file finished. Delete markers do nothing in a restore. */
  function Reassembled(es: seq<FileEntry>, r: string): Option<Bytes>
    decreases |es|
  {
    if es == [] then None
    else
      var before, last := es[..|es| - 1], es[|es| - 1];
      if last.path != r then Reassembled(before, r)
      else if !last.chunked then (if last.deleted then Reassembled(before, r) else Some(last.content))
      else Some(Contents(Pending(before, r) + [last]))
  }

  /** The open file of raw path r, if any, is at k and holds the pending chunks. */
  ghost predicate WriterMirrors(st: RestoreState, es: seq<FileEntry>, r: string, k: string) {
    && (r in st.writers <==> Pending(es, r) != [])
    && (r in st.writers ==>
          && st.writers[r].key == k
          && st.writers[r].next == |Contents(Pending(es, r))|
          && st.writers[r].mode == Pending(es, r)[0].mode
          && InOrder(Pending(es, r))
          && k in st.fs.files && st.fs.files[k].content == Contents(Pending(es, r)))
  }

  ghost predicate BytesMirror(st: RestoreState, es: seq<FileEntry>, r: string, k: string) {
    (if k in st.fs.files then Some(st.fs.files[k].content) else None) == Reassembled(es, r)
  }

  /** The open file of raw path r, if any, is at k and is written up to its expected offset. */
  ghost predicate AtEnd(st: RestoreState, r: string, k: string) {
    r in st.writers ==>
      st.writers[r].key == k && k in st.fs.files && st.writers[r].next == |st.fs.files[k].content|
  }

  function WrittenAt(st: RestoreState, r: string, k: string): Bytes {
    if r in st.writers && k in st.fs.files then st.fs.files[k].content else []
  }

  /** What one accepted chunk does under its own path. */
  ghost predicate ChunkDone(st: RestoreState, e: FileEntry, k: string, out: RestoreState) {
    var r := e.path;
    && !e.deleted
    && e.chunkOffset == |WrittenAt(st, r, k)|
    && (r in st.writers ==> e.mode == st.writers[r].mode)
    && k in out.fs.files && out.fs.files[k].content == WrittenAt(st, r, k) + e.content
    && (r in out.writers <==> !e.finalChunk)
    && (r in out.writers ==> out.writers[r] == RestoreWriter(k, e.chunkOffset + |e.content|, e.mode))
  }

  lemma {:induction false} ChunkResult(root: string, umask: Creation, st: RestoreState, e: FileEntry, k: string)
    requires RestoreKey(root, e.path) == Ok(Some(k)) && e.chunked && AtEnd(st, e.path, k)
    requires RestoreStep(root, umask, st, e).Ok?
    ensures ChunkDone(st, e, k, RestoreStep(root, umask, st, e).value)
  {
    hide RestoreKey, WriteAt, MkParents;
    WriteAtEnd(WrittenAt(st, e.path, k), e.content);
    var st1 := OpenChunked(root, umask, st, e).value;
    assert st1.writers[e.path].key == k && st1.fs.files[k].content == WrittenAt(st, e.path, k);
    var st2 := AppendChunk(st1, e).value;
    assert st2.fs.files[k].content == WrittenAt(st, e.path, k) + e.content;
  }

  lemma {:induction false} PlainResult(root: string, umask: Creation, st: RestoreState, e: FileEntry, k: string)
    requires RestoreKey(root, e.path) == Ok(Some(k)) && !e.chunked
    requires RestoreStep(root, umask, st, e).Ok?
    ensures var out := RestoreStep(root, umask, st, e).value;
      && e.path !in st.writers && out.writers == st.writers
      && if e.deleted then out == st else k in out.fs.files && out.fs.files[k].content == e.content
  {
    hide RestoreKey, MkParents;
  }

  /** Every open file is where its raw path says. */
  ghost predicate Keyed(root: string, st: RestoreState) {
    forall q :: q in st.writers ==> RestoreKey(root, q) == Ok(Some(st.writers[q].key))
  }

  /** An entry under another path with another key touches neither the writer of r nor the file at k. */
  lemma {:induction false} OtherResult(root: string, umask: Creation, st: RestoreState, e: FileEntry, r: string,
                                       k: string)
    requires Keyed(root, st) && RestoreStep(root, umask, st, e).Ok?
    requires e.path != r && RestoreKey(root, e.path) != Ok(Some(k))
    ensures var out := RestoreStep(root, umask, st, e).value;
      Lookup(out.writers, r) == Lookup(st.writers, r) && Lookup(out.fs.files, k) == Lookup(st.fs.files, k)
  {
    hide RestoreKey, WriteAt, ParentIsFile;
    if e.chunked {
      var st1 := OpenChunked(root, umask, st, e).value;
      assert st1.writers[e.path].key != k;
    }
  }

  lemma {:induction false} StepKeyed(root: string, umask: Creation, st: RestoreState, e: FileEntry)
    requires Keyed(root, st) && RestoreStep(root, umask, st, e).Ok?
    ensures Keyed(root, RestoreStep(root, umask, st, e).value)
  {
    hide RestoreKey, MkParents, WriteAt, ParentIsFile, Put;
  }

  lemma {:induction false} RunKeyed(root: string, umask: Creation, es: seq<FileEntry>)
    requires RunRestore(root, umask, EMPTY_RESTORE, es).Ok?
    ensures Keyed(root, RunRestore(root, umask, EMPTY_RESTORE, es).value)
    decreases |es|
  {
    hide RestoreStep, RestoreKey;
    if es != [] {
      RestoreLast(root, umask, EMPTY_RESTORE, es);
      RunKeyed(root, umask, es[..|es| - 1]);
      StepKeyed(root, umask, RunRestore(root, umask, EMPTY_RESTORE, es[..|es| - 1]).value, es[|es| - 1]);
    }
  }

  lemma {:induction false} MirrorAtEnd(st: RestoreState, es: seq<FileEntry>, r: string, k: string)
    requires WriterMirrors(st, es, r, k)
    ensures AtEnd(st, r, k) && WrittenAt(st, r, k) == Contents(Pending(es, r))
  {}

  lemma {:induction false} ChunkMirrors(st: RestoreState, before: seq<FileEntry>, e: FileEntry, k: string,
                                        out: RestoreState)
    requires e.chunked && WriterMirrors(st, before, e.path, k) && ChunkDone(st, e, k, out)
    ensures WriterMirrors(out, before + [e], e.path, k)
    ensures BytesMirror(out, before + [e], e.path, k)
  {
    var es, r := before + [e], e.path;
    assert es[..|es| - 1] == before;
    ContentsSnoc(Pending(before, r), e);
    MirrorAtEnd(st, before, r, k);
    InOrderSnoc(Pending(before, r), e);
  }

  lemma {:induction false} OtherMirrors(st: RestoreState, before: seq<FileEntry>, e: FileEntry, out: RestoreState,
                                        r: string, k: string)
    requires r != e.path && Lookup(out.writers, r) == Lookup(st.writers, r)
    requires Lookup(out.fs.files, k) == Lookup(st.fs.files, k)
    requires WriterMirrors(st, before, r, k) && BytesMirror(st, before, r, k)
    ensures WriterMirrors(out, before + [e], r, k) && BytesMirror(out, before + [e], r, k)
  {
    var es := before + [e];
    assert es[..|es| - 1] == before;
    assert Pending(es, r) == Pending(before, r) && Reassembled(es, r) == Reassembled(before, r);
  }

  lemma {:induction false} PlainMirrors(st: RestoreState, before: seq<FileEntry>, e: FileEntry, k: string,
                                        out: RestoreState)
    requires !e.chunked && e.path !in st.writers && out.writers == st.writers
    requires if e.deleted then out == st else k in out.fs.files && out.fs.files[k].content == e.content
    requires WriterMirrors(st, before, e.path, k) && BytesMirror(st, before, e.path, k)
    ensures WriterMirrors(out, before + [e], e.path, k) && BytesMirror(out, before + [e], e.path, k)
  {
    var es := before + [e];
    assert es[..|es| - 1] == before;
    assert Pending(es, e.path) == Pending(before, e.path);
  }

  lemma {:induction false} StepMirrorsRestore(root: string, umask: Creation, st: RestoreState, before: seq<FileEntry>,
                                              e: FileEntry, r: string, k: string)
    requires RestoreKey(root, r) == Ok(Some(k)) && Keyed(root, st) && RestoreStep(root, umask, st, e).Ok?
    requires e.path == r || RestoreKey(root, e.path) != Ok(Some(k))
    requires WriterMirrors(st, before, r, k) && BytesMirror(st, before, r, k)
    ensures var out := RestoreStep(root, umask, st, e).value;
      WriterMirrors(out, before + [e], r, k) && BytesMirror(out, before + [e], r, k)
  {
    hide RestoreStep, RestoreKey, WriterMirrors, BytesMirror, Pending, InOrder, AtEnd, ChunkDone, Keyed;
    var out := RestoreStep(root, umask, st, e).value;
    MirrorAtEnd(st, before, r, k);
    if e.path != r {
      OtherResult(root, umask, st, e, r, k);
      OtherMirrors(st, before, e, out, r, k);
    } else if e.chunked {
      ChunkResult(root, umask, st, e, k);
      ChunkMirrors(st, before, e, k, out);
    } else {
      PlainResult(root, umask, st, e, k);
      PlainMirrors(st, before, e, k, out);
    }
  }

  /** No other raw path of the stream means the file k. */
  ghost predicate SoleSpelling(root: string, es: seq<FileEntry>, r: string, k: string) {
    forall i :: 0 <= i < |es| && es[i].path != r ==> RestoreKey(root, es[i].path) != Ok(Some(k))
  }

  lemma {:induction false} SoleLast(root: string, es: seq<FileEntry>, r: string, k: string)
    requires SoleSpelling(root, es, r, k) && es != []
    ensures SoleSpelling(root, es[..|es| - 1], r, k)
    ensures es[|es| - 1].path == r || RestoreKey(root, es[|es| - 1].path) != Ok(Some(k))
  {
    hide RestoreKey;
  }

  lemma {:induction false} RestoreNothing(root: string, umask: Creation, st: RestoreState)
    ensures RunRestore(root, umask, st, []) == Ok(st)
  {}

  lemma {:induction false} RestoreLast(root: string, umask: Creation, st: RestoreState, es: seq<FileEntry>)
    requires es != [] && RunRestore(root, umask, st, es).Ok?
    ensures RunRestore(root, umask, st, es[..|es| - 1]).Ok?
    ensures RestoreStep(root, umask, RunRestore(root, umask, st, es[..|es| - 1]).value, es[|es| - 1]) ==
      RunRestore(root, umask, st, es)
  {}

  lemma {:induction false} NothingMirrored(r: string, k: string)
    ensures WriterMirrors(EMPTY_RESTORE, [], r, k) && BytesMirror(EMPTY_RESTORE, [], r, k)
  {}

  /** A stream the agent accepts is in order: for every raw path that no other raw path of the stream means
      the same as, the bytes in the tree being rebuilt are the ones its history calls for, and what is
      unfinished is exactly what is pending. */
  lemma {:induction false} AcceptedRestore(root: string, umask: Creation, es: seq<FileEntry>, r: string, k: string)
    requires RestoreKey(root, r) == Ok(Some(k)) && SoleSpelling(root, es, r, k)
    requires RunRestore(root, umask, EMPTY_RESTORE, es).Ok?
    ensures WriterMirrors(RunRestore(root, umask, EMPTY_RESTORE, es).value, es, r, k)
    ensures BytesMirror(RunRestore(root, umask, EMPTY_RESTORE, es).value, es, r, k)
    decreases |es|
  {
    hide *;
    if es == [] {
      RestoreNothing(root, umask, EMPTY_RESTORE);
      NothingMirrored(r, k);
    } else {
      var before, e := es[..|es| - 1], es[|es| - 1];
      SoleLast(root, es, r, k);
      RestoreLast(root, umask, EMPTY_RESTORE, es);
      AcceptedRestore(root, umask, before, r, k);
      RunKeyed(root, umask, before);
      StepMirrorsRestore(root, umask, RunRestore(root, umask, EMPTY_RESTORE, before).value, before, e, r, k);
      assert es == before + [e];
    }
  }

  // ---- two spellings of one target -----------------------------------------------------------

  /** A leading slash is dropped: every archive path has a second spelling. */
  lemma {:induction false} LeadingSlash(root: string, p: string)
    requires BaseDir(root) && IsArchivePath(p)
    ensures RestoreKey(root, "/" + p) == Ok(Some(p)) && RestoreKey(root, p) == Ok(Some(p)) && "/" + p != p
  {
    ArchiveRestoreKey(root, p);
    hide BaseDir, HasPathPrefix;
    ArchiveComponents(p);
    var cs := Components(p);
    ComponentsRender(true, cs);
    assert "/" + p == Render(true, cs);
    assert ("/" + p)[1..] == p;
  }

  /** A chunk of p, the whole of q, and the final chunk of p. */
  function Crossed(p: string, q: string, x: Byte, y: Byte, z: Byte, mode: Mode): seq<FileEntry> {
    [FileEntry(p, [x], mode, false, true, 0, false),
     FileEntry(q, [y], mode, false, false, 0, true),
     FileEntry(p, [z], mode, false, true, 1, true)]
  }

  lemma {:induction false} CrossedHistory(p: string, q: string, x: Byte, y: Byte, z: Byte, mode: Mode)
    requires p != q
    ensures Reassembled(Crossed(p, q, x, y, z, mode), p) == Some([x, z])
    ensures Reassembled(Crossed(p, q, x, y, z, mode), q) == Some([y])
  {
    var es := Crossed(p, q, x, y, z, mode);
    assert es[..2][..1] == [es[0]] && es[..2][1] == es[1] && [es[0]][..0] == [];
    assert es[..2][..|es[..2]| - 1] == [es[0]];
    assert Pending([es[0]], p) == [es[0]];
    assert Pending(es[..2], p) == [es[0]];
    ContentsSnoc([], es[0]);
    ContentsSnoc([es[0]], es[2]);
    assert [] + [es[0]] == [es[0]] && Contents([]) + [x] == [x] && [x] + [z] == [x, z];
  }

  lemma {:induction false} CrossedFirst(root: string, umask: Creation, p: string, k: string, x: Byte, mode: Mode)
    requires RestoreKey(root, p) == Ok(Some(k))
    ensures RestoreStep(root, umask, EMPTY_RESTORE, FileEntry(p, [x], mode, false, true, 0, false)) ==
      Ok(RestoreState(Put(EMPTY_FS, k, File([x], umask(0x180))), map[p := RestoreWriter(k, 1, mode)]))
  {
    hide RestoreKey;
    var e, m0 := FileEntry(p, [x], mode, false, true, 0, false), umask(0x180);
    var st := RestoreState(Put(EMPTY_FS, k, File([], m0)), map[p := RestoreWriter(k, 0, mode)]);
    assert OpenChunked(root, umask, EMPTY_RESTORE, e) == Ok(st);
    WriteAtEnd([], [x]);
    assert [] + [x] == [x];
    assert st.fs.files[k := File([x], m0)] == map[k := File([x], m0)];
    assert st.writers[p := RestoreWriter(k, 1, mode)] == map[p := RestoreWriter(k, 1, mode)];
    assert AppendChunk(st, e).value.fs == Put(EMPTY_FS, k, File([x], m0));
  }

  lemma {:induction false} CrossedSecond(root: string, umask: Creation, q: string, k: string, y: Byte, mode: Mode,
                                         st: RestoreState, m0: Mode)
    requires RestoreKey(root, q) == Ok(Some(k)) && q !in st.writers
    requires k in st.fs.files && st.fs.files[k].mode == m0 && !ParentIsFile(st.fs, k) && k !in st.fs.dirs
    ensures RestoreStep(root, umask, st, FileEntry(q, [y], mode, false, false, 0, true)) ==
      Ok(RestoreState(Put(st.fs, k, File([y], m0)), st.writers))
  {
    hide RestoreKey;
  }

  lemma {:induction false} CrossedThird(root: string, umask: Creation, p: string, k: string, y: Byte, z: Byte,
                                        mode: Mode, st: RestoreState, m0: Mode)
    requires st.writers == map[p := RestoreWriter(k, 1, mode)] && Lookup(st.fs.files, k) == Some(File([y], m0))
    ensures var r := RestoreStep(root, umask, st, FileEntry(p, [z], mode, false, true, 1, true));
      r.Ok? && r.value.writers == map[] && Lookup(r.value.fs.files, k) == Some(File([y, z], Perm(mode)))
  {
    hide RestoreKey;
    var e := FileEntry(p, [z], mode, false, true, 1, true);
    assert k in st.fs.files && st.fs.files[k] == File([y], m0);
    assert OpenChunked(root, umask, st, e) == Ok(st);
    WriteAtEnd([y], [z]);
    assert [y] + [z] == [y, z];
    var st2 := AppendChunk(st, e).value;
    assert st2.writers == map[p := RestoreWriter(k, 2, mode)];
    assert st2.writers - {p} == map[];
  }

  lemma {:induction false} NotAbove(k: string)
    ensures k !in Ancestors(k)
  {}

  /** Two raw paths with one key share a file under two writers: the stream is accepted, and the file is not
      what the history of either path calls for. */
  lemma {:induction false} TwoSpellings(root: string, umask: Creation, p: string, q: string, k: string,
                                        x: Byte, y: Byte, z: Byte, mode: Mode)
    requires p != q && RestoreKey(root, p) == Ok(Some(k)) && RestoreKey(root, q) == Ok(Some(k))
    ensures var r := RunRestore(root, umask, EMPTY_RESTORE, Crossed(p, q, x, y, z, mode));
      r.Ok? && r.value.writers == map[] && Lookup(r.value.fs.files, k) == Some(File([y, z], Perm(mode)))
    ensures Reassembled(Crossed(p, q, x, y, z, mode), p) == Some([x, z])
    ensures Reassembled(Crossed(p, q, x, y, z, mode), q) == Some([y])
  {
    hide RestoreKey;
    CrossedHistory(p, q, x, y, z, mode);
    var es := Crossed(p, q, x, y, z, mode);
    var m0 := umask(0x180);
    var st1 := RestoreState(Put(EMPTY_FS, k, File([x], m0)), map[p := RestoreWriter(k, 1, mode)]);
    var st2 := RestoreState(Put(st1.fs, k, File([y], m0)), st1.writers);
    CrossedFirst(root, umask, p, k, x, mode);
    NotAbove(k);
    CrossedSecond(root, umask, q, k, y, mode, st1, m0);
    CrossedThird(root, umask, p, k, y, z, mode, st2, m0);
    assert es == ([es[0]] + [es[1]]) + [es[2]];
    RestoreSingle(root, umask, EMPTY_RESTORE, es[0]);
    RestoreSingle(root, umask, st1, es[1]);
    RestoreSingle(root, umask, st2, es[2]);
    RestoreAppend(root, umask, EMPTY_RESTORE, [es[0]], [es[1]]);
    RestoreAppend(root, umask, EMPTY_RESTORE, [es[0]] + [es[1]], [es[2]]);
  }

  lemma {:induction false} AcceptedPrefix(root: string, umask: Creation, st: RestoreState, es: seq<FileEntry>, j: nat)
    requires j <= |es| && RunRestore(root, umask, st, es).Ok?
    ensures RunRestore(root, umask, st, es[..j]).Ok?
  {
    hide RunRestore;
    RestoreAppend(root, umask, st, es[..j], es[j..]);
    assert es == es[..j] + es[j..];
  }

  /** The table entry of a raw path, if any, expects the offset its pending chunks end at. */
  ghost predicate WriterFollows(st: RestoreState, es: seq<FileEntry>, r: string) {
    && (r in st.writers <==> Pending(es, r) != [])
    && (r in st.writers ==>
          && st.writers[r].next == |Contents(Pending(es, r))|
          && st.writers[r].mode == Pending(es, r)[0].mode
          && InOrder(Pending(es, r)))
  }

  /** What an accepted chunk does to the table, whatever its path means. */
  lemma {:induction false} ChunkWriters(root: string, umask: Creation, st: RestoreState, e: FileEntry)
    requires e.chunked && RestoreStep(root, umask, st, e).Ok?
    ensures var out := RestoreStep(root, umask, st, e).value;
      && e.chunkOffset == (if e.path in st.writers then st.writers[e.path].next else 0)
      && (e.path in st.writers ==> e.mode == st.writers[e.path].mode)
      && (e.path in out.writers <==> !e.finalChunk)
      && (e.path in out.writers ==>
            out.writers[e.path].next == e.chunkOffset + |e.content| && out.writers[e.path].mode == e.mode)
      && forall r :: r != e.path ==> Lookup(out.writers, r) == Lookup(st.writers, r)
  {
    hide RestoreKey, WriteAt, Put, Perm, ParentIsFile;
    var st1 := OpenChunked(root, umask, st, e).value;
    assert forall r :: r != e.path ==> Lookup(st1.writers, r) == Lookup(st.writers, r);
  }

  lemma {:induction false} PlainWriters(root: string, umask: Creation, st: RestoreState, e: FileEntry)
    requires !e.chunked && RestoreStep(root, umask, st, e).Ok?
    ensures e.path !in st.writers && RestoreStep(root, umask, st, e).value.writers == st.writers
  {
    hide RestoreKey, Put, Perm, ParentIsFile;
  }

  /** A chunk at its own path. */
  lemma {:induction false} ChunkFollows(st: RestoreState, before: seq<FileEntry>, e: FileEntry, out: RestoreState)
    requires e.chunked && WriterFollows(st, before, e.path)
    requires e.chunkOffset == (if e.path in st.writers then st.writers[e.path].next else 0)
    requires e.path in st.writers ==> e.mode == st.writers[e.path].mode
    requires e.path in out.writers <==> !e.finalChunk
    requires e.path in out.writers ==>
      out.writers[e.path].next == e.chunkOffset + |e.content| && out.writers[e.path].mode == e.mode
    ensures WriterFollows(out, before + [e], e.path) && InOrder(Pending(before, e.path) + [e])
  {
    var es, pending := before + [e], Pending(before, e.path);
    assert es[..|es| - 1] == before;
    assert Pending(es, e.path) == if e.finalChunk then [] else pending + [e];
    ContentsSnoc(pending, e);
    assert Contents([]) == [];
    InOrderSnoc(pending, e);
  }

  /** Any other path, and any message that is not a chunk. */
  lemma {:induction false} OthersFollow(st: RestoreState, before: seq<FileEntry>, e: FileEntry, out: RestoreState,
                                        r: string)
    requires WriterFollows(st, before, r) && Lookup(out.writers, r) == Lookup(st.writers, r)
    requires !(e.chunked && r == e.path)
    ensures WriterFollows(out, before + [e], r)
  {
    hide InOrder, Contents;
    var es := before + [e];
    assert es[..|es| - 1] == before;
    assert Pending(es, r) == Pending(before, r);
  }

  lemma {:induction false} StepFollows(root: string, umask: Creation, st: RestoreState, before: seq<FileEntry>,
                                       e: FileEntry, r: string)
    requires RestoreStep(root, umask, st, e).Ok? && WriterFollows(st, before, r)
    ensures WriterFollows(RestoreStep(root, umask, st, e).value, before + [e], r)
    ensures e.chunked && r == e.path ==> InOrder(Pending(before, r) + [e])
  {
    hide *;
    var out := RestoreStep(root, umask, st, e).value;
    if e.chunked {
      ChunkWriters(root, umask, st, e);
      if r == e.path { ChunkFollows(st, before, e, out); } else { OthersFollow(st, before, e, out, r); }
    } else {
      PlainWriters(root, umask, st, e);
      OthersFollow(st, before, e, out, r);
    }
  }

  /** After any accepted stream the table is what the pending chunks call for. */
  lemma {:induction false} WritersFollow(root: string, umask: Creation, es: seq<FileEntry>, r: string)
    requires RunRestore(root, umask, EMPTY_RESTORE, es).Ok?
    ensures WriterFollows(RunRestore(root, umask, EMPTY_RESTORE, es).value, es, r)
    decreases |es|
  {
    hide RestoreStep, WriterFollows;
    if es == [] {
      NothingFollows(r);
    } else {
      var before, e := es[..|es| - 1], es[|es| - 1];
      RestoreLast(root, umask, EMPTY_RESTORE, es);
      WritersFollow(root, umask, before, r);
      StepFollows(root, umask, RunRestore(root, umask, EMPTY_RESTORE, before).value, before, e, r);
      assert es == before + [e];
    }
  }

  lemma {:induction false} NothingFollows(r: string)
    ensures WriterFollows(EMPTY_RESTORE, [], r)
  {}

  /** Every chunk of an accepted stream continues its file from where the previous chunk stopped, with
      the mode of the first; a stream that skips, repeats or reorders a chunk, or changes a mode, is
      refused. */
  lemma {:induction false} AcceptedRestoreInOrder(root: string, umask: Creation, es: seq<FileEntry>, i: nat)
    requires RunRestore(root, umask, EMPTY_RESTORE, es).Ok? && i < |es| && es[i].chunked
    ensures InOrder(Pending(es[..i], es[i].path) + [es[i]])
  {
    hide RestoreStep, RunRestore, WriterFollows, InOrder, Pending;
    AcceptedPrefix(root, umask, EMPTY_RESTORE, es, i);
    AcceptedPrefix(root, umask, EMPTY_RESTORE, es, i + 1);
    assert es[..i + 1][..i] == es[..i] && es[..i + 1][i] == es[i];
    RestoreLast(root, umask, EMPTY_RESTORE, es[..i + 1]);
    WritersFollow(root, umask, es[..i], es[i].path);
    StepFollows(root, umask, RunRestore(root, umask, EMPTY_RESTORE, es[..i]).value, es[..i], es[i], es[i].path);
  }

  // ---- which entries are accepted ------------------------------------------------------------

  /** Every file that is still open is there. */
  ghost predicate OpenThere(st: RestoreState) {
    forall r :: r in st.writers ==> st.writers[r].key in st.fs.files
  }

  lemma {:induction false} StepOpenThere(root: string, umask: Creation, st: RestoreState, e: FileEntry)
    requires OpenThere(st) && RestoreStep(root, umask, st, e).Ok?
    ensures OpenThere(RestoreStep(root, umask, st, e).value)
  {
    hide RestoreKey, WriteAt, Perm, ParentIsFile, Ancestors;
  }

  lemma {:induction false} RunOpenThere(root: string, umask: Creation, es: seq<FileEntry>)
    requires RunRestore(root, umask, EMPTY_RESTORE, es).Ok?
    ensures OpenThere(RunRestore(root, umask, EMPTY_RESTORE, es).value)
    decreases |es|
  {
    hide RestoreStep;
    if es != [] {
      RunOpenThere(root, umask, es[..|es| - 1]);
      StepOpenThere(root, umask, RunRestore(root, umask, EMPTY_RESTORE, es[..|es| - 1]).value, es[|es| - 1]);
    }
  }

  /** What an entry must be to be accepted after a history that restored the tree `fs`: its path leads to the
      root or below it; a chunk continues what is pending, or creates a file that is not there yet; a whole
      file comes only where nothing is pending and where a file can be. */
  ghost predicate Restorable(root: string, fs: FS, es: seq<FileEntry>, e: FileEntry) {
    RestoreKey(root, e.path).Ok? && var key := RestoreKey(root, e.path).value;
    if e.chunked then
      && !e.deleted && InOrder(Pending(es, e.path) + [e])
      && (Pending(es, e.path) == [] ==> key.Some? && CanPut(fs, key.value) && key.value !in fs.files)
    else
      Pending(es, e.path) == [] && (e.deleted || (key.Some? && CanPut(fs, key.value)))
  }

  lemma {:induction false} ChunkAcceptedIff(root: string, umask: Creation, st: RestoreState, e: FileEntry)
    requires e.chunked && OpenThere(st) && Keyed(root, st)
    ensures RestoreStep(root, umask, st, e).Ok? <==>
      && !e.deleted && RestoreKey(root, e.path).Ok? && var key := RestoreKey(root, e.path).value;
         if e.path in st.writers then e.chunkOffset == st.writers[e.path].next && e.mode == st.writers[e.path].mode
         else e.chunkOffset == 0 && key.Some? && CanPut(st.fs, key.value) && key.value !in st.fs.files
  {
    hide RestoreKey, WriteAt, Perm, ParentIsFile, MkParents;
  }

  /** Exactly which entries are accepted next, after any accepted stream. */
  lemma {:induction false} NextRestoredIff(root: string, umask: Creation, es: seq<FileEntry>, e: FileEntry)
    requires RunRestore(root, umask, EMPTY_RESTORE, es).Ok?
    ensures var st := RunRestore(root, umask, EMPTY_RESTORE, es).value;
      RestoreStep(root, umask, st, e).Ok? <==> Restorable(root, st.fs, es, e)
  {
    hide RunRestore, RestoreKey, OpenThere, Keyed, Contents, Pending, InOrder, ParentIsFile, RestoreChunk;
    var st := RunRestore(root, umask, EMPTY_RESTORE, es).value;
    RunOpenThere(root, umask, es);
    RunKeyed(root, umask, es);
    WritersFollow(root, umask, es, e.path);
    NothingInOrder();
    InOrderLast(Pending(es, e.path), e);
    if e.chunked { ChunkAcceptedIff(root, umask, st, e); }
  }
}
