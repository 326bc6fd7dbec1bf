/** The receiving side: a mounted dataset, staging files on it, and the file operations the
    handler uses, each free to fail. */
module Server {
  import opened Model
  import opened Paths
  import opened Namespacing
  import opened FileSystem

  /** A staging file: it sits in the directory of the path it will be renamed to. */
  datatype Temp = Temp(target: string, data: Bytes)

  type Temps = map<nat, Temp>

  /** Everything a snapshot freezes, staging files included. */
  datatype Snapshot = Snapshot(fs: FS, temps: Temps)

  function Targets(temps: Temps): set<string> { set t | t in temps :: temps[t].target }

  lemma {:induction false} KeyIsArchive(relPath: string)
    requires TargetKey(relPath).Some?
    ensures IsArchivePath(TargetKey(relPath).value)
  {
    hide Clean;
    CleanFixed(relPath);
    assert IsAbs(Clean(relPath)) == IsAbs(relPath);
  }

  lemma {:induction false} MadeParents(fs: FS, p: string)
    requires WellFormed(fs) && !ParentIsFile(fs, p)
    ensures MadeFor(fs, MkParents(fs, p), p) && Rooted(MkParents(fs, p).dirs, p)
  {
    MkParentsWellFormed(fs, p);
  }

  lemma {:induction false} MadeNone(fs: FS, p: string)
    requires WellFormed(fs)
    ensures MadeFor(fs, fs, p)
  {}

  lemma {:induction false} NothingNew(fs: FS)
    ensures NewFiles(fs, fs) == map[]
  {}

  lemma {:induction false} PutIs(fs: FS, p: string, f: File)
    ensures Put(fs, p, f) == Publish(MkParents(fs, p), p, f)
  {}

  lemma {:induction false} OnlyDirsBlock(fs: FS, p: string)
    ensures p in MkParents(fs, p).dirs ==> !CanPut(fs, p)
    ensures p !in MkParents(fs, p).dirs && !ParentIsFile(fs, p) ==> CanPut(fs, p)
  {
    NotAncestorOfItself(p);
  }

  /** The mounted dataset of one host and user, with its snapshots in creation order. */
  class Disk {
    var fs: FS
    var temps: Temps
    var nextTemp: nat
    var snaps: seq<Snapshot>

    constructor ()
      ensures fs == EMPTY_FS && temps == map[] && snaps == [] && Valid()
    {
      fs, temps, nextTemp, snaps := EMPTY_FS, map[], 0, [];
    }

    ghost predicate Valid()
      reads this
    {
      && WellFormed(fs)
      && forall t :: t in temps ==> t < nextTemp && IsArchivePath(temps[t].target) && Rooted(fs.dirs, temps[t].target)
    }

    // ---- internal/server/receiver/receiver.go

    /** os.MkdirAll of the directory of p: the missing parents from the top down, stopping at the first
        that cannot be made. */
    method MkdirAll(p: string) returns (ok: bool)
      requires Valid() && !ParentIsFile(fs, p)
      modifies this`fs
      ensures Valid()
      ensures ok ==> fs == MkParents(old(fs), p)
      ensures !ok ==> MadeFor(old(fs), fs, p)
    {
      ghost var before := fs;
      MadeStart(fs, p);
      hide Made, WellFormed, Rooted, Ancestors, ParentIsFile;
      ok := true;
      var n := 0;
      while n < |p| && ok
        invariant 0 <= n <= |p| && Made(before, fs, p, n)
        decreases |p| - n, ok
      {
        if p[n] == '/' && p[..n] !in fs.dirs {
          ok := *;
          if ok {
            MadeOne(before, fs, p, n);
            fs := fs.(dirs := fs.dirs + {p[..n]});
            n := n + 1;
          }
        } else {
          MadeSame(before, fs, p, n);
          n := n + 1;
        }
      }
      MadeIs(before, fs, p, n);
      if ok { MadeAll(before, fs, p); }
    }

    /** Removing a temporary file that is no longer wanted; the error of os.Remove is ignored, so the
        file may stay. */
    method Discard(p: string, data: Bytes) returns (removed: bool, ghost name: string, ghost left: File)
      requires Valid() && IsArchivePath(p) && Rooted(fs.dirs, p)
      modifies this`fs
      ensures Valid()
      ensures removed ==> fs == old(fs)
      ensures !removed ==> Beside(name, p) && Vacant(old(fs), name) && left.content == data
      ensures !removed ==> fs == Strand(old(fs), name, left)
    {
      hide WellFormed, IsArchivePath, Rooted, Beside;
      removed := *;
      name, left := "", File(data, 0x180);
      if !removed {
        ghost var free := VacantExists(fs, p);
        var picked: string :| Beside(picked, p) && Vacant(fs, picked);
        var mode: int := *;
        var f := File(data, if mode < 0 then 0x180 else mode);
        StrandWellFormed(fs, p, picked, f);
        fs := Strand(fs, picked, f);
        name, left := picked, f;
      }
    }

    /** `fault` says that an operating-system call failed; otherwise only the path or the tree can be
        the reason of a failure. The same holds for the operations below. `litter` says that the
        temporary file could not be removed after a failure. */
    method WriteFile(relPath: string, content: Bytes, mode: Mode)
      returns (ok: bool, ghost fault: bool, ghost litter: bool)
      requires Valid()
      modifies this`fs
      ensures Valid()
      ensures !ok && TargetKey(relPath).None? ==> fs == old(fs)
      ensures !ok && TargetKey(relPath).Some? ==> Attempted(old(fs), fs, TargetKey(relPath).value, content)
      ensures litter <==> !ok && NewFiles(old(fs), fs) != map[]
      ensures !ok && !fault ==> TargetKey(relPath).None? || !CanPut(old(fs), TargetKey(relPath).value)
      ensures ok ==> TargetKey(relPath).Some? && CanPut(old(fs), TargetKey(relPath).value)
      ensures ok ==> fs == Put(old(fs), TargetKey(relPath).value, File(content, Perm(mode)))
      ensures ok ==>
        TargetKey(relPath).value in fs.files && Permissions(fs.files[TargetKey(relPath).value].mode, mode)
    {
      PermIff(mode, Perm(mode));
      hide WellFormed, IsArchivePath, Rooted, Put, Attempted, ParentIsFile, TargetKey, Permissions;
      ghost var before := fs;
      NothingNew(fs);
      ok, fault, litter := false, false, false;
      var key := TargetKey(relPath);
      if key.None? { return; }
      var target := key.value;
      KeyIsArchive(relPath);
      MadeNone(fs, target);
      MadeIsAttempted(fs, fs, target, content);
      if ParentIsFile(fs, target) { return; }
      ok := MkdirAll(target);
      fault := !ok;
      if !ok { MadeIsAttempted(before, fs, target, content); return; }
      MkParentsWellFormed(before, target);
      MadeParents(before, target);
      MadeIsAttempted(before, fs, target, content);
      var created: bool := *;
      if !created { return false, true, false; }
      var done: bool := *;
      if done && target !in fs.dirs {
        PutWellFormed(before, target, File(content, Perm(mode)));
        PutIs(before, target, File(content, Perm(mode)));
        fs := Publish(fs, target, File(content, Perm(mode)));
      } else {
        ghost var mid := fs;
        var n: int := *;
        var part := if 0 <= n <= |content| then content[..n] else content;
        var removed;
        ghost var name, left;
        removed, name, left := Discard(target, part);
        if !removed { StrandIsAttempted(before, mid, target, name, left, content); }
        ok, fault, litter := false, !done, !removed;
        OnlyDirsBlock(before, target);
      }
    }

    method NewChunkWriter(relPath: string) returns (w: Option<ChunkWriter>, ghost fault: bool)
      requires Valid()
      modifies this`fs, this`temps, this`nextTemp
      ensures Valid()
      ensures w.None? ==> temps == old(temps)
      ensures w.None? && TargetKey(relPath).None? ==> fs == old(fs)
      ensures w.None? && TargetKey(relPath).Some? ==> MadeFor(old(fs), fs, TargetKey(relPath).value)
      ensures w.None? && !fault ==> TargetKey(relPath).None? || ParentIsFile(old(fs), TargetKey(relPath).value)
      ensures w.Some? ==> fresh(w.value) && TargetKey(relPath).Some? && !ParentIsFile(old(fs), TargetKey(relPath).value)
      ensures w.Some? ==> w.value.disk == this && w.value.target == TargetKey(relPath).value
      ensures w.Some? ==> w.value.tmpFile == Some(old(nextTemp)) && !w.value.committed
      ensures w.Some? ==> fs == MkParents(old(fs), w.value.target)
      ensures w.Some? ==> temps == old(temps)[old(nextTemp) := Temp(w.value.target, [])]
    {
      hide WellFormed, IsArchivePath, Rooted, ParentIsFile, TargetKey, MadeFor;
      var key := TargetKey(relPath);
      if key.None? { return None, false; }
      KeyIsArchive(relPath);
      MadeNone(fs, key.value);
      if ParentIsFile(fs, key.value) { return None, false; }
      MkParentsWellFormed(fs, key.value);
      MadeParents(fs, key.value);
      var ok := MkdirAll(key.value);
      if !ok { return None, true; }
      ok := *;
      if !ok { return None, true; }
      var writer := new ChunkWriter(this, key.value, nextTemp);
      temps := temps[nextTemp := Temp(key.value, [])];
      nextTemp := nextTemp + 1;
      return Some(writer), false;
    }

    method DeleteFile(relPath: string) returns (ok: bool, ghost fault: bool)
      requires Valid()
      modifies this`fs
      ensures Valid()
      ensures !ok ==> fs == old(fs)
      ensures !ok && !fault ==>
        TargetKey(relPath).None? || !CanRemove(old(fs), Targets(temps), TargetKey(relPath).value)
      ensures ok ==> TargetKey(relPath).Some? && CanRemove(old(fs), Targets(temps), TargetKey(relPath).value)
      ensures ok ==> fs == Remove(old(fs), TargetKey(relPath).value)
    {
      hide IsArchivePath, TargetKey;
      var key := TargetKey(relPath);
      if key.None? || !CanRemove(fs, Targets(temps), key.value) { return false, false; }
      ok := *;
      fault := !ok;
      if ok {
        RemoveWellFormed(fs, Targets(temps), key.value);
        assert forall t :: t in temps ==> temps[t].target in Targets(temps);
        fs := Remove(fs, key.value);
      }
    }

    /** A snapshot freezes the dataset as it is. */
    method CreateSnapshot() returns (ok: bool)
      modifies this`snaps
      ensures snaps == if ok then old(snaps) + [Snapshot(fs, temps)] else old(snaps)
    {
      ok := *;
      if ok { snaps := snaps + [Snapshot(fs, temps)]; }
    }
  }

  class ChunkWriter {
    const disk: Disk
    const target: string
    var tmpFile: Option<nat>
    var committed: bool

    constructor (disk: Disk, target: string, tmp: nat)
      ensures this.disk == disk && this.target == target
      ensures tmpFile == Some(tmp) && !committed
    {
      this.disk, this.target := disk, target;
      tmpFile, committed := Some(tmp), false;
    }

    /** A failed write may have appended some of the bytes. */
    method Write(content: Bytes) returns (ok: bool, ghost part: Bytes)
      requires disk.Valid() && tmpFile.Some? && tmpFile.value in disk.temps
      modifies disk`temps
      ensures disk.Valid()
      ensures part <= content && (ok ==> part == content)
      ensures var t := old(disk.temps); var id := tmpFile.value;
        disk.temps == t[id := Temp(t[id].target, t[id].data + part)]
    {
      hide WellFormed, IsArchivePath, Rooted;
      ok := *;
      var n: int := *;
      var bytes := if !ok && 0 <= n < |content| then content[..n] else content;
      var t := disk.temps[tmpFile.value];
      disk.temps := disk.temps[tmpFile.value := Temp(t.target, t.data + bytes)];
      part := bytes;
    }

    /** Close, set the mode, and rename into place; renaming onto a directory fails. */
    method Commit(mode: Mode) returns (ok: bool, ghost fault: bool)
      requires disk.Valid() && tmpFile.Some? && tmpFile.value in disk.temps
      requires disk.temps[tmpFile.value].target == target
      modifies this, disk`fs, disk`temps
      ensures disk.Valid()
      ensures !ok ==> disk.fs == old(disk.fs) && disk.temps == old(disk.temps)
      ensures !ok ==> tmpFile == old(tmpFile) && committed == old(committed)
      ensures !ok && !fault ==> target in old(disk.fs.dirs)
      ensures ok ==> committed && tmpFile == None && target !in old(disk.fs.dirs)
      ensures ok ==> var t := old(disk.temps); var id := old(tmpFile.value);
        && disk.fs == Publish(old(disk.fs), target, File(t[id].data, Perm(mode)))
        && disk.temps == t - {id}
      ensures ok ==> target in disk.fs.files && Permissions(disk.fs.files[target].mode, mode)
    {
      PermIff(mode, Perm(mode));
      hide IsArchivePath, Permissions;
      ok := *;
      fault := !ok;
      if target in disk.fs.dirs { ok := false; }
      if ok {
        var id := tmpFile.value;
        disk.fs := Publish(disk.fs, target, File(disk.temps[id].data, Perm(mode)));
        disk.temps := disk.temps - {id};
        tmpFile, committed := None, true;
      }
    }

    /** Gives up an unfinished staging file; harmless after Commit. If the file cannot be removed it
        stays, as a file of the dataset that no one owns. */
    method Abort() returns (ghost litter: bool, ghost name: string, ghost left: File)
      requires disk.Valid()
      requires tmpFile.Some? && !committed ==> tmpFile.value in disk.temps
      modifies this, disk`fs, disk`temps
      ensures disk.Valid()
      ensures old(tmpFile).None? || old(committed) ==> !litter && disk.temps == old(disk.temps)
      ensures old(tmpFile).Some? && !old(committed) ==> disk.temps == old(disk.temps) - {old(tmpFile).value}
      ensures !litter ==> disk.fs == old(disk.fs)
      ensures litter ==> var t := old(disk.temps)[old(tmpFile).value];
        && Beside(name, t.target) && Vacant(old(disk.fs), name) && left.content == t.data
        && disk.fs == Strand(old(disk.fs), name, left)
    {
      hide WellFormed, IsArchivePath, Rooted, Beside, Vacant;
      litter, name, left := false, "", File([], 0);
      if tmpFile.None? || committed { return; }
      var t := disk.temps[tmpFile.value];
      disk.temps := disk.temps - {tmpFile.value};
      var removed;
      removed, name, left := disk.Discard(t.target, t.data);
      litter := !removed;
      tmpFile := None;
    }
  }
}
