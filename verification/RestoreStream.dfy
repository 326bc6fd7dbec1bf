/** The two loops of a restore: the server walking its newest snapshot, and the agent filling a
    temporary tree that replaces the target only at the very end. */
module RestoreStream {
  import opened Model
  import Paths
  import opened Namespacing
  import opened FileSystem
  import opened Wire
  import opened Server
  import opened Retention
  import opened RestoreMachine

  const RESTORE_CHUNK_BYTES: nat := 4 * 1024 * 1024

  datatype RestoreBatch = RestoreBatch(files: seq<FileEntry>, isLast: bool)

  // ---- server --------------------------------------------------------------------------------

  lemma {:induction false} EmitSnoc(files: map<string, File>, order: seq<string>, p: string, size: nat)
    requires size > 0 && p in files && forall i :: 0 <= i < |order| ==> order[i] in files
    ensures Emit(files, order + [p], size) == Emit(files, order, size) + EntriesOfFile(p, files[p], size)
  {
    assert (order + [p])[..|order|] == order;
  }

  /** One file read in bounded pieces; a small file is a single entry. */
  method ReadFileChunks(path: string, f: File, maxChunkBytes: nat) returns (entries: seq<FileEntry>)
    requires maxChunkBytes > 0
    ensures entries == EntriesOfFile(path, f, maxChunkBytes)
  {
    var size := |f.content|;
    if size <= maxChunkBytes {
      return [FileEntry(path, f.content, f.mode, false, false, 0, true)];
    }
    entries := [];
    var offset := 0;
    while offset < size
      invariant 0 <= offset <= size
      invariant entries + ChunksFrom(path, f.content, f.mode, maxChunkBytes, offset) ==
        ChunksFrom(path, f.content, f.mode, maxChunkBytes, 0)
    {
      var want := maxChunkBytes;
      if size - offset < want { want := size - offset; }
      var final := offset + want == size;
      ghost var rest := ChunksFrom(path, f.content, f.mode, maxChunkBytes, offset + want);
      var entry := FileEntry(path, f.content[offset..offset + want], f.mode, false, true, offset, final);
      assert ChunksFrom(path, f.content, f.mode, maxChunkBytes, offset) == [entry] + rest;
      assert entries + ([entry] + rest) == (entries + [entry]) + rest;
      entries := entries + [entry];
      offset := offset + want;
    }
  }

  /** Walking a snapshot. The walk order is the directory order of the clone, which nothing relies on;
      it may stop at any file. */
  method ReadAllChunksFrom(files: map<string, File>, maxChunkBytes: int)
    returns (entries: seq<FileEntry>, ok: bool, ghost order: seq<string>, ghost fault: bool)
    ensures maxChunkBytes <= 0 ==> !ok && entries == []
    ensures forall i :: 0 <= i < |order| ==> order[i] in files
    ensures maxChunkBytes > 0 ==> entries == Emit(files, order, maxChunkBytes)
    ensures ok ==> maxChunkBytes > 0 && Visits(order, files.Keys)
    ensures !ok && !fault ==> maxChunkBytes <= 0
  {
    entries, ok, order, fault := [], false, [], false;
    if maxChunkBytes <= 0 { return; }
    var todo := files.Keys;
    while todo != {}
      invariant todo <= files.Keys
      invariant forall i :: 0 <= i < |order| ==> order[i] in files && order[i] !in todo
      invariant forall p :: p in files ==> p in todo || p in order
      invariant forall i, j :: 0 <= i < j < |order| ==> order[i] != order[j]
      invariant entries == Emit(files, order, maxChunkBytes)
      decreases todo
    {
      hide Emit, EntriesOfFile;
      var p :| p in todo;
      var fails: bool := *;
      if fails { fault := true; return; }
      var more := ReadFileChunks(p, files[p], maxChunkBytes);
      EmitSnoc(files, order, p, maxChunkBytes);
      entries := entries + more;
      order := order + [p];
      todo := todo - {p};
    }
    ok := true;
  }

  ghost predicate NoneLast(batches: seq<RestoreBatch>) {
    forall i :: 0 <= i < |batches| ==> !batches[i].isLast
  }

  function Gather(batches: seq<RestoreBatch>): seq<FileEntry>
    decreases |batches|
  {
    if batches == [] then [] else Gather(batches[..|batches| - 1]) + batches[|batches| - 1].files
  }

  /** PullRestore: the newest snapshot, one entry a batch, and a final batch only when every file was
      read. Snapshots of streams taken one at a time hold no staging files, so the walk of the clone
      sees exactly the files of the tree. */
  method PullRestore(disk: Disk)
    returns (sent: seq<RestoreBatch>, ok: bool, ghost order: seq<string>, ghost fault: bool)
    requires disk.snaps != [] ==> disk.snaps[|disk.snaps| - 1].temps == map[]
    ensures disk.snaps == [] ==> !ok && sent == []
    ensures !ok && !fault ==> disk.snaps == []
    ensures !ok ==> NoneLast(sent)
    ensures ok ==>
      && disk.snaps != []
      && var files := disk.snaps[|disk.snaps| - 1].fs.files;
         && Visits(order, files.Keys)
         && sent != [] && sent[|sent| - 1] == RestoreBatch([], true)
         && NoneLast(sent[..|sent| - 1])
         && Gather(sent[..|sent| - 1]) == Emit(files, order, RESTORE_CHUNK_BYTES)
  {
    hide Emit, Visits;
    sent, ok, order, fault := [], false, [], false;
    var latest;
    latest, fault := LatestSnapshot(disk);
    if latest.Err? { return; }
    var entries, complete;
    ghost var unread;
    entries, complete, order, unread := ReadAllChunksFrom(latest.value.fs.files, RESTORE_CHUNK_BYTES);
    for n := 0 to |entries|
      invariant NoneLast(sent) && Gather(sent) == entries[..n]
    {
      var broken: bool := *;
      if broken { fault := true; return; }
      assert (sent + [RestoreBatch([entries[n]], false)])[..|sent|] == sent;
      sent := sent + [RestoreBatch([entries[n]], false)];
    }
    assert entries[..|entries|] == entries;
    var closed: bool := *;
    fault := unread || !closed;
    if !complete || !closed { return; }
    ghost var before := sent;
    sent := sent + [RestoreBatch([], true)];
    assert sent[..|sent| - 1] == before;
    ok := true;
  }

  // ---- agent ---------------------------------------------------------------------------------

  /** The batches before the first final one. */
  function BeforeLast(batches: seq<RestoreBatch>): seq<RestoreBatch> {
    if batches == [] || batches[0].isLast then [] else [batches[0]] + BeforeLast(batches[1..])
  }

  predicate HasLast(batches: seq<RestoreBatch>) { exists b | b in batches :: b.isLast }

  /** A stream that may replace the target: it has a final batch, every entry before it is accepted,
      and no chunked file is left unfinished. */
  ghost predicate Complete(root: string, umask: Creation, batches: seq<RestoreBatch>) {
    && HasLast(batches)
    && var r := RunRestore(root, umask, EMPTY_RESTORE, Gather(BeforeLast(batches)));
       r.Ok? && r.value.writers == map[]
  }

  lemma {:induction false} GatherSnoc(batches: seq<RestoreBatch>, b: RestoreBatch)
    ensures Gather(batches + [b]) == Gather(batches) + b.files
  {
    assert (batches + [b])[..|batches|] == batches;
  }

  lemma {:induction false} BeforeLastIs(batches: seq<RestoreBatch>, n: nat)
    requires n <= |batches| && NoneLast(batches[..n])
    ensures n < |batches| && batches[n].isLast ==> BeforeLast(batches) == batches[..n] && HasLast(batches)
    ensures n == |batches| ==> BeforeLast(batches) == batches && !HasLast(batches)
    ensures batches[..n] <= BeforeLast(batches)
    decreases n
  {
    if n > 0 {
      var rest := batches[1..];
      assert batches[..n][0] == batches[0];
      assert rest[..n - 1] == batches[..n][1..];
      BeforeLastIs(rest, n - 1);
      assert batches[..n] == [batches[0]] + rest[..n - 1];
      assert forall b :: b in batches <==> b == batches[0] || b in rest;
    }
  }

  /** The temporary directory a restore fills, and its table of files that still expect chunks. */
  class RestoreDir {
    var fs: FS
    var writers: map<string, RestoreWriter>

    ghost function State(): RestoreState
      reads this
    {
      RestoreState(fs, writers)
    }

    constructor ()
      ensures State() == EMPTY_RESTORE
    {
      fs, writers := EMPTY_FS, map[];
    }

    /** The first chunk of a file creates it, exclusively. */
    method OpenRestored(root: string, umask: Creation, e: FileEntry) returns (ok: bool, ghost fault: bool)
      modifies this
      ensures ok ==> OpenChunked(root, umask, old(State()), e) == Ok(State()) && e.path in writers
      ensures !ok && !fault ==> OpenChunked(root, umask, old(State()), e).Err?
    {
      hide RestoreKey;
      ok, fault := true, false;
      if e.path !in writers {
        var key := RestoreKey(root, e.path);
        if e.chunkOffset != 0 || key.Err? || key.value.None? {
          ok := false;
        } else {
          var target := key.value.value;
          var created: bool := *;
          fault := !created;
          if !created || ParentIsFile(fs, target) || target in fs.files || target in fs.dirs {
            ok := false;
          } else {
            fs := Put(fs, target, File([], umask(0x180)));
            writers := writers[e.path := RestoreWriter(target, 0, e.mode)];
          }
        }
      }
    }

    /** One chunk: open the file if it is the first, check offset and mode, write, and on the final
        chunk set the mode and drop the writer. */
    method WriteRestoredChunk(root: string, umask: Creation, e: FileEntry) returns (ok: bool, ghost fault: bool)
      requires e.chunked
      modifies this
      ensures ok ==> RestoreStep(root, umask, old(State()), e) == Ok(State())
      ensures !ok && !fault ==> RestoreStep(root, umask, old(State()), e).Err?
    {
      hide OpenChunked, WriteAt, Perm;
      ok, fault := false, false;
      if e.deleted { return; }
      ok, fault := OpenRestored(root, umask, e);
      if !ok { return; }
      var w := writers[e.path];
      var written: bool := *;
      fault := !written;
      if !written || e.chunkOffset != w.next || e.mode != w.mode || w.key !in fs.files {
        ok := false;
      } else {
        var f := fs.files[w.key];
        fs := fs.(files := fs.files[w.key := f.(content := WriteAt(f.content, w.next, e.content))]);
        writers := writers[e.path := w.(next := w.next + |e.content|)];
        if e.finalChunk {
          fs := fs.(files := fs.files[w.key := fs.files[w.key].(mode := Perm(e.mode))]);
          writers := writers - {e.path};
        }
      }
    }

    /** A file that travelled in one piece; an existing one is overwritten and keeps its mode. */
    method WriteRestoredFile(root: string, umask: Creation, e: FileEntry) returns (ok: bool, ghost fault: bool)
      requires !e.chunked
      modifies this
      ensures ok ==> RestoreStep(root, umask, old(State()), e) == Ok(State())
      ensures !ok && !fault ==> RestoreStep(root, umask, old(State()), e).Err?
    {
      hide RestoreKey, Perm;
      ok, fault := false, false;
      if e.path in writers { return; }
      var key := RestoreKey(root, e.path);
      if key.Err? { return; }
      if e.deleted { ok := true; return; }
      var written: bool := *;
      fault := !written;
      if written && key.value.Some? {
        var target := key.value.value;
        if !ParentIsFile(fs, target) && target !in fs.dirs {
          var mode := if target in fs.files then fs.files[target].mode else umask(e.mode);
          fs := Put(fs, target, File(e.content, mode));
          ok := true;
        }
      }
    }

    /** All entries of one batch. */
    method WriteBatch(root: string, umask: Creation, files: seq<FileEntry>) returns (ok: bool, ghost fault: bool)
      modifies this
      ensures ok ==> RunRestore(root, umask, old(State()), files) == Ok(State())
      ensures !ok && !fault ==> RunRestore(root, umask, old(State()), files).Err?
    {
      hide RestoreStep;
      ok, fault := true, false;
      ghost var st := State();
      for n := 0 to |files|
        invariant ok && RunRestore(root, umask, st, files[..n]) == Ok(State())
      {
        assert files[..n + 1][..n] == files[..n];
        ghost var cur := State();
        if files[n].chunked {
          ok, fault := WriteRestoredChunk(root, umask, files[n]);
        } else {
          ok, fault := WriteRestoredFile(root, umask, files[n]);
        }
        if !ok {
          if !fault { RestoreStuck(root, umask, st, files, n, cur); }
          return;
        }
      }
      assert files[..|files|] == files;
    }
  }

  lemma {:induction false} RestoreStuck(root: string, umask: Creation, st: RestoreState, es: seq<FileEntry>, n: nat,
                                        mid: RestoreState)
    requires n < |es| && RunRestore(root, umask, st, es[..n]) == Ok(mid) && RestoreStep(root, umask, mid, es[n]).Err?
    ensures RunRestore(root, umask, st, es).Err?
  {
    hide RestoreStep;
    RestoreAppend(root, umask, st, es[..n], es[n..]);
    RestoreAppend(root, umask, mid, [es[n]], es[n + 1..]);
    RestoreSingle(root, umask, mid, es[n]);
    assert es == es[..n] + es[n..] && es[n..] == [es[n]] + es[n + 1..];
  }

  /** The directory a restore replaces. None: it does not exist. */
  class RestoreTarget {
    var tree: Option<FS>

    constructor (tree: Option<FS>)
      ensures this.tree == tree
    {
      this.tree := tree;
    }

    /** Everything is written to a temporary tree first. A stream that is not complete leaves the
        target as it was; a complete one replaces it unless the machine fails, and only a failure
        inside the final swap (which a RemoveAll may leave half done) can lose the old tree. */
    method RestoreFromStream(root: string, umask: Creation, batches: seq<RestoreBatch>)
      returns (ok: bool, ghost swapping: bool, ghost fault: bool)
      modifies this
      ensures !swapping ==> !ok && tree == old(tree)
      ensures swapping ==> Complete(root, umask, batches)
      ensures ok ==>
        swapping && tree == Some(RunRestore(root, umask, EMPTY_RESTORE, Gather(BeforeLast(batches))).value.fs)
      ensures !ok && !fault ==> !Complete(root, umask, batches)
    {
      hide RunRestore, BeforeLast, Complete;
      RestoreNothing(root, umask, EMPTY_RESTORE);
      ok, swapping, fault := false, false, false;
      var dir := new RestoreDir();
      var sawLast := false;
      var n := 0;
      while n < |batches| && !sawLast
        invariant 0 <= n <= |batches| && NoneLast(batches[..n]) && fresh(dir)
        invariant RunRestore(root, umask, EMPTY_RESTORE, Gather(batches[..n])) == Ok(dir.State())
        invariant sawLast ==> n < |batches| && batches[n].isLast
        invariant tree == old(tree)
        decreases |batches| - n, !sawLast
      {
        if batches[n].isLast {
          sawLast := true;
        } else {
          GatherStep(root, umask, batches, n, dir.State());
          var written;
          written, fault := dir.WriteBatch(root, umask, batches[n].files);
          if !written { return; }
          n := n + 1;
        }
      }
      fault := false;
      CompleteIff(root, umask, batches, n, dir.State());
      if !sawLast || dir.writers != map[] { return; }
      var inspected: bool := *;
      if !inspected { fault := true; return; }
      swapping := true;
      ok := Swap(dir.fs);
      fault := !ok;
    }

    /** The final swap: remove the old tree, rename the new one into place, hand it to its owner. */
    method Swap(fs: FS) returns (ok: bool)
      modifies this
      ensures ok ==> tree == Some(fs)
    {
      ok := false;
      var removed: bool := *;
      if !removed { tree := *; return; }
      tree := None;
      var renamed: bool := *;
      if !renamed { return; }
      tree := Some(fs);
      var owned: bool := *;
      if !owned { tree := None; return; }
      ok := true;
    }
  }

  /** One more batch before the final one: what it adds, and that refusing it makes the stream incomplete. */
  lemma {:induction false} GatherStep(root: string, umask: Creation, batches: seq<RestoreBatch>, n: nat,
                                      st: RestoreState)
    requires n < |batches| && NoneLast(batches[..n]) && !batches[n].isLast
    requires RunRestore(root, umask, EMPTY_RESTORE, Gather(batches[..n])) == Ok(st)
    ensures NoneLast(batches[..n + 1])
    ensures RunRestore(root, umask, EMPTY_RESTORE, Gather(batches[..n + 1])) ==
      RunRestore(root, umask, st, batches[n].files)
    ensures RunRestore(root, umask, st, batches[n].files).Err? ==> !Complete(root, umask, batches)
  {
    hide RunRestore;
    assert batches[..n + 1] == batches[..n] + [batches[n]];
    GatherSnoc(batches[..n], batches[n]);
    RestoreAppend(root, umask, EMPTY_RESTORE, Gather(batches[..n]), batches[n].files);
    BeforeLastIs(batches, n + 1);
    var rest := BeforeLast(batches)[n + 1..];
    assert BeforeLast(batches) == batches[..n + 1] + rest;
    GatherAppend(batches[..n + 1], rest);
    RestoreAppend(root, umask, EMPTY_RESTORE, Gather(batches[..n + 1]), Gather(rest));
  }

  lemma {:induction false} GatherAppend(a: seq<RestoreBatch>, b: seq<RestoreBatch>)
    ensures Gather(a + b) == Gather(a) + Gather(b)
    decreases |b|
  {
    if b == [] {
      assert a + b == a;
    } else {
      var c := b[..|b| - 1];
      assert (a + b)[..|a + b| - 1] == a + c;
      GatherAppend(a, c);
    }
  }

  /** After all batches before the final one, or all there are. */
  lemma {:induction false} CompleteIff(root: string, umask: Creation, batches: seq<RestoreBatch>, n: nat,
                                       st: RestoreState)
    requires n <= |batches| && NoneLast(batches[..n]) && (n < |batches| ==> batches[n].isLast)
    requires RunRestore(root, umask, EMPTY_RESTORE, Gather(batches[..n])) == Ok(st)
    ensures Complete(root, umask, batches) <==> n < |batches| && st.writers == map[]
    ensures n < |batches| ==> BeforeLast(batches) == batches[..n]
  {
    hide RunRestore;
    BeforeLastIs(batches, n);
  }

  /** What a restore rebuilds from what the server sent in full. */
  lemma {:induction false} PulledIsComplete(root: string, umask: Creation, files: map<string, File>, order: seq<string>,
                                            sent: seq<RestoreBatch>)
    requires BaseDir(root) && Visits(order, files.Keys) && PrefixFree(files.Keys)
    requires forall p :: p in files ==> Paths.IsArchivePath(p)
    requires sent != [] && sent[|sent| - 1].isLast && NoneLast(sent[..|sent| - 1])
    requires Gather(sent[..|sent| - 1]) == Emit(files, order, RESTORE_CHUNK_BYTES)
    ensures Complete(root, umask, sent)
    ensures RunRestore(root, umask, EMPTY_RESTORE, Gather(BeforeLast(sent))).value.fs.files ==
      RestoredMap(umask, files, RESTORE_CHUNK_BYTES)
  {
    hide RunRestore, Emit, RestoredMap, PrefixFree, Visits, Gather, BeforeLast, BaseDir;
    BeforeLastIs(sent, |sent| - 1);
    RestoreInverts(root, umask, files, order, RESTORE_CHUNK_BYTES);
  }

  /** A stream cut off before its final batch replaces nothing. */
  lemma {:induction false} TruncatedIsIncomplete(root: string, umask: Creation, batches: seq<RestoreBatch>)
    requires NoneLast(batches)
    ensures !Complete(root, umask, batches)
  {}
}
