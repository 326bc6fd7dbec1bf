/** The upload handler: a table of partial uploads over staging files, refining the stream machine. */
module BackupStream {
  import opened Model
  import Paths
  import opened Namespacing
  import opened FileSystem
  import opened StreamMachine
  import opened Server

  datatype PartialUpload = PartialUpload(writer: ChunkWriter, nextOffset: nat, mode: Mode)

  type Uploads = map<string, PartialUpload>

  ghost function Writers(uploads: Uploads): set<ChunkWriter> {
    set r | r in uploads :: uploads[r].writer
  }

  // ---- the table as values -------------------------------------------------------------------

  /** What one table entry holds, with the state of its writer. */
  datatype Slot = Slot(target: string, tmpFile: Option<nat>, committed: bool, next: nat, mode: Mode)

  /** One entry stages, in its own staging file, what the machine's upload `u` has staged. */
  ghost predicate Stages(temps: Temps, slot: Slot, u: Upload) {
    && slot.tmpFile.Some? && slot.tmpFile.value in temps
    && temps[slot.tmpFile.value] == Temp(u.target, u.staged)
    && slot == Slot(u.target, slot.tmpFile, false, u.next, u.mode)
  }

  ghost predicate StagesAll(temps: Temps, slots: map<string, Slot>, open: map<string, Upload>) {
    slots.Keys == open.Keys && forall r :: r in slots ==> Stages(temps, slots[r], open[r])
  }

  ghost predicate Separate(slots: map<string, Slot>) {
    forall q, r :: q in slots && r in slots && q != r ==> slots[q].tmpFile != slots[r].tmpFile
  }

  ghost predicate Claimed(slots: map<string, Slot>, t: nat) {
    exists r :: r in slots && slots[r].tmpFile == Some(t)
  }

  ghost predicate AllClaimed(temps: Temps, slots: map<string, Slot>) {
    forall t :: t in temps ==> Claimed(slots, t)
  }

  /** The table and the staging files are exactly the machine's open uploads, and every staging
      file of the dataset belongs to exactly one of them. */
  ghost predicate Refines(temps: Temps, slots: map<string, Slot>, open: map<string, Upload>) {
    StagesAll(temps, slots, open) && Separate(slots) && AllClaimed(temps, slots)
  }

  lemma {:induction false} RefinesKeys(temps: Temps, slots: map<string, Slot>, open: map<string, Upload>)
    requires Refines(temps, slots, open)
    ensures slots.Keys == open.Keys
  {}

  /** Claims survive replacing a table entry by one with the same staging file. */
  lemma {:induction false} ClaimsKept(slots: map<string, Slot>, slots': map<string, Slot>, t: nat)
    requires Claimed(slots, t)
    requires forall r :: r in slots && slots[r].tmpFile == Some(t) ==> r in slots' && slots'[r].tmpFile == Some(t)
    ensures Claimed(slots', t)
  {
    var r :| r in slots && slots[r].tmpFile == Some(t);
    assert slots'[r].tmpFile == Some(t);
  }

  ghost function NewSlot(id: nat, u: Upload): Slot { Slot(u.target, Some(id), false, u.next, u.mode) }

  lemma {:induction false} SeparateStart(temps: Temps, slots: map<string, Slot>, open: map<string, Upload>, r0: string,
                                         id: nat, u: Upload)
    requires StagesAll(temps, slots, open) && Separate(slots) && r0 !in slots && id !in temps
    ensures Separate(slots[r0 := NewSlot(id, u)])
  {
    forall r | r in slots ensures slots[r].tmpFile != Some(id) { assert Stages(temps, slots[r], open[r]); }
  }

  lemma {:induction false} StagesStart(temps: Temps, slots: map<string, Slot>, open: map<string, Upload>, temps': Temps,
                                       r0: string, id: nat, u: Upload)
    requires StagesAll(temps, slots, open) && r0 !in slots && id !in temps
    requires temps' == temps[id := Temp(u.target, u.staged)]
    ensures StagesAll(temps', slots[r0 := NewSlot(id, u)], open[r0 := u])
  {
    forall r | r in slots ensures Stages(temps', slots[r], open[r]) { assert Stages(temps, slots[r], open[r]); }
    assert Stages(temps', NewSlot(id, u), u);
  }

  lemma {:induction false} RefinesStart(temps: Temps, slots: map<string, Slot>, open: map<string, Upload>,
                                        temps': Temps, r0: string, id: nat, u: Upload)
    requires Refines(temps, slots, open) && r0 !in slots && id !in temps
    requires temps' == temps[id := Temp(u.target, u.staged)]
    ensures Refines(temps', slots[r0 := NewSlot(id, u)], open[r0 := u])
  {
    SeparateStart(temps, slots, open, r0, id, u);
    StagesStart(temps, slots, open, temps', r0, id, u);
    var slots' := slots[r0 := NewSlot(id, u)];
    forall t | t in temps' ensures Claimed(slots', t) {
      if t == id {
        assert slots'[r0].tmpFile == Some(t);
      } else {
        ClaimsKept(slots, slots', t);
      }
    }
  }

  ghost function Grown(temps: map<nat, Temp>, id: nat, target: string, content: Bytes): map<nat, Temp>
    requires id in temps
  {
    temps[id := Temp(target, temps[id].data + content)]
  }

  /** More bytes staged, and the expected offset moved on by n. */
  ghost function Longer(u: Upload, content: Bytes, n: nat): Upload {
    u.(staged := u.staged + content, next := u.next + n)
  }

  lemma {:induction false} LongerByNothing(u: Upload)
    ensures Longer(u, [], 0) == u
  {
    assert u.staged + [] == u.staged;
  }

  lemma {:induction false} StagesAppend(temps: Temps, slots: map<string, Slot>, open: map<string, Upload>,
                                        temps': Temps, r0: string, id: nat, content: Bytes, n: nat)
    requires StagesAll(temps, slots, open) && Separate(slots) && r0 in slots && slots[r0].tmpFile == Some(id)
    requires id in temps && temps' == Grown(temps, id, slots[r0].target, content)
    ensures StagesAll(temps', slots[r0 := slots[r0].(next := slots[r0].next + n)],
      open[r0 := Longer(open[r0], content, n)])
  {
    assert Stages(temps, slots[r0], open[r0]);
    var slots', open' := slots[r0 := slots[r0].(next := slots[r0].next + n)], open[r0 := Longer(open[r0], content, n)];
    forall r | r in slots' ensures Stages(temps', slots'[r], open'[r]) {
      assert Stages(temps, slots[r], open[r]);
      assert r != r0 ==> slots[r].tmpFile != slots[r0].tmpFile;
    }
  }

  lemma {:induction false} RefinesAppend(temps: Temps, slots: map<string, Slot>, open: map<string, Upload>,
                                         temps': Temps, r0: string, id: nat, content: Bytes, n: nat)
    requires Refines(temps, slots, open) && r0 in slots && slots[r0].tmpFile == Some(id)
    requires id in temps && temps' == Grown(temps, id, slots[r0].target, content)
    ensures Refines(temps', slots[r0 := slots[r0].(next := slots[r0].next + n)],
      open[r0 := Longer(open[r0], content, n)])
  {
    hide Stages, StagesAll, Longer, Separate, Claimed, AllClaimed;
    StagesAppend(temps, slots, open, temps', r0, id, content, n);
    SameTemps(temps, slots, temps', slots[r0 := slots[r0].(next := slots[r0].next + n)]);
  }

  /** Entries that keep their staging files stay separate, and every staging file stays claimed. */
  lemma {:induction false} SameTemps(temps: Temps, slots: map<string, Slot>, temps': Temps, slots': map<string, Slot>)
    requires Separate(slots) && AllClaimed(temps, slots) && temps'.Keys == temps.Keys && slots'.Keys == slots.Keys
    requires forall r :: r in slots ==> slots'[r].tmpFile == slots[r].tmpFile
    ensures Separate(slots') && AllClaimed(temps', slots')
  {
    forall t | t in temps' ensures Claimed(slots', t) { ClaimsKept(slots, slots', t); }
  }

  lemma {:induction false} StagesCommit(temps: Temps, slots: map<string, Slot>, open: map<string, Upload>,
                                        temps': Temps, r0: string, id: nat)
    requires StagesAll(temps, slots, open) && Separate(slots) && r0 in slots && slots[r0].tmpFile == Some(id)
    requires temps' == temps - {id}
    ensures StagesAll(temps', slots - {r0}, open - {r0})
  {
    forall r | r in slots && r != r0 ensures Stages(temps', slots[r], open[r]) {
      assert Stages(temps, slots[r], open[r]);
      assert slots[r].tmpFile != slots[r0].tmpFile;
    }
  }

  lemma {:induction false} RefinesCommit(temps: Temps, slots: map<string, Slot>, open: map<string, Upload>,
                                         temps': Temps, r0: string, id: nat)
    requires Refines(temps, slots, open) && r0 in slots && slots[r0].tmpFile == Some(id)
    requires temps' == temps - {id}
    ensures Refines(temps', slots - {r0}, open - {r0})
  {
    StagesCommit(temps, slots, open, temps', r0, id);
    forall t | t in temps' ensures Claimed(slots - {r0}, t) { ClaimsKept(slots, slots - {r0}, t); }
  }

  /** The busy directories seen on the dataset are those of the machine's open uploads. */
  lemma {:induction false} SameBusy(temps: Temps, slots: map<string, Slot>, open: map<string, Upload>)
    requires Refines(temps, slots, open)
    ensures Targets(temps) == Busy(open)
  {
    forall x | x in Busy(open) ensures x in Targets(temps) {
      var r :| r in open && open[r].target == x;
      assert Stages(temps, slots[r], open[r]);
    }
    forall x | x in Targets(temps) ensures x in Busy(open) {
      var t :| t in temps && temps[t].target == x;
      assert Claimed(slots, t);
      var r :| r in slots && slots[r].tmpFile == Some(t);
      assert Stages(temps, slots[r], open[r]);
    }
  }

  // ---- the table on the heap -----------------------------------------------------------------

  ghost predicate InSlot(disk: Disk, up: PartialUpload, slot: Slot)
    reads up.writer
  {
    && up.writer.disk == disk
    && up.writer.target == slot.target && up.writer.tmpFile == slot.tmpFile && up.writer.committed == slot.committed
    && up.nextOffset == slot.next && up.mode == slot.mode
  }

  ghost predicate Tracks(disk: Disk, uploads: Uploads, slots: map<string, Slot>, s: Session)
    reads disk, Writers(uploads)
  {
    && disk.Valid()
    && disk.fs == s.fs
    && uploads.Keys == slots.Keys
    && (forall r :: r in uploads ==> InSlot(disk, uploads[r], slots[r]))
    && Refines(disk.temps, slots, s.open)
  }

  /** The first chunk of a path opens a staging file, to be entered in the table. */
  method OpenUpload(disk: Disk, e: FileEntry, uploads: Uploads, ghost slots: map<string, Slot>, ghost s: Session)
    returns (w: Option<ChunkWriter>, ghost slot: Slot, ghost s': Session, ghost fault: bool)
    requires Tracks(disk, uploads, slots, s) && e.path !in uploads && e.chunkOffset == 0 && Valid(s) && !e.deleted
    modifies disk`fs, disk`temps, disk`nextTemp
    ensures w.Some? ==> fresh(w.value) && Start(s, e) == Ok(s')
    ensures w.Some? ==> Tracks(disk, uploads[e.path := PartialUpload(w.value, 0, e.mode)], slots[e.path := slot], s')
    ensures w.None? ==> Interrupted(s, e, s') && Tracks(disk, uploads, slots, s') && s'.fs.files == s.fs.files
    ensures w.None? && !fault ==> Start(s, e).Err?
  {
    hide Refines, TargetKey, WellFormed, MadeFor, Interrupted, Valid;
    RefinesKeys(disk.temps, slots, s.open);
    ghost var temps, id := disk.temps, disk.nextTemp;
    w, fault := disk.NewChunkWriter(e.path);
    s' := s.(fs := disk.fs);
    slot := Slot("", None, true, 0, 0);
    if w.Some? {
      var u := Upload(w.value.target, [], 0, e.mode);
      s' := Start(s, e).value;
      slot := NewSlot(id, u);
      RefinesStart(temps, slots, s.open, disk.temps, e.path, id, u);
    } else {
      if TargetKey(e.path).Some? {
        OnlyParents(s, e, disk.fs);
        MadeForFiles(s.fs, disk.fs, TargetKey(e.path).value);
      } else {
        NothingDone(s, e);
      }
    }
  }

  lemma {:induction false} MadeForFiles(before: FS, after: FS, p: string)
    requires MadeFor(before, after, p)
    ensures after.files == before.files
  {}

  /** Adding bytes to the staging file of an open upload. A failed write may have added some of them;
      the offset moves only with a whole one. */
  method AppendUpload(disk: Disk, e: FileEntry, uploads: Uploads, ghost slots: map<string, Slot>, ghost s: Session)
    returns (ok: bool, up: PartialUpload, ghost slot: Slot, ghost s': Session, ghost part: Bytes, ghost fault: bool)
    requires Tracks(disk, uploads, slots, s) && e.path in uploads
    modifies disk`temps
    ensures e.path in s.open && (ok ==> Append(s, e) == Ok(s'))
    ensures part <= e.content
    ensures !ok ==> s' == s.(open := s.open[e.path := Longer(s.open[e.path], part, 0)])
    ensures !ok && !fault ==> Append(s, e).Err?
    ensures up.writer == uploads[e.path].writer
    ensures Tracks(disk, uploads[e.path := up], slots[e.path := slot], s')
  {
    hide Refines;
    RefinesKeys(disk.temps, slots, s.open);
    RefinesAt(disk.temps, slots, s.open, e.path);
    ok, up, slot, s', part, fault := false, uploads[e.path], slots[e.path], s, [], false;
    assert uploads[e.path := up] == uploads && slots[e.path := slot] == slots;
    assert InSlot(disk, up, slot);
    LongerByNothing(s.open[e.path]);
    assert s.open == s.open[e.path := s.open[e.path]];
    if e.chunkOffset != up.nextOffset || e.mode != up.mode { return; }
    ghost var temps, id := disk.temps, slot.tmpFile.value;
    ok, part := up.writer.Write(e.content);
    fault := !ok;
    ghost var n := if ok then |e.content| else 0;
    RefinesAppend(temps, slots, s.open, disk.temps, e.path, id, part, n);
    if ok { up := up.(nextOffset := up.nextOffset + |e.content|); }
    slot := slot.(next := slot.next + n);
    s' := s.(open := s.open[e.path := Longer(s.open[e.path], part, n)]);
  }

  lemma {:induction false} RefinesAt(temps: Temps, slots: map<string, Slot>, open: map<string, Upload>, r: string)
    requires Refines(temps, slots, open) && r in slots
    ensures r in open && Stages(temps, slots[r], open[r])
  {}

  /** Publishing a finished upload and dropping it from the table. */
  method CommitUpload(disk: Disk, e: FileEntry, uploads: Uploads, ghost slots: map<string, Slot>, ghost s: Session)
    returns (ok: bool, ghost s': Session, ghost fault: bool)
    requires Tracks(disk, uploads, slots, s) && e.path in uploads && Valid(s)
    modifies disk`fs, disk`temps, uploads[e.path].writer
    ensures ok ==> Commit(s, e) == Ok(s') && Tracks(disk, uploads - {e.path}, slots - {e.path}, s')
    ensures !ok ==> s' == s && Tracks(disk, uploads, slots, s)
    ensures !ok && !fault ==> Commit(s, e).Err?
  {
    hide Refines;
    RefinesKeys(disk.temps, slots, s.open);
    RefinesAt(disk.temps, slots, s.open, e.path);
    s' := s;
    var writer := uploads[e.path].writer;
    ghost var temps, id := disk.temps, slots[e.path].tmpFile.value;
    assert InSlot(disk, uploads[e.path], slots[e.path]);
    OthersDiffer(disk, uploads, slots, s, e.path);
    ok, fault := writer.Commit(e.mode);
    if ok {
      RefinesCommit(temps, slots, s.open, disk.temps, e.path, id);
      s' := Commit(s, e).value;
    }
  }

  /** No other upload of the table uses the same writer. */
  lemma {:induction false} OthersDiffer(disk: Disk, uploads: Uploads, slots: map<string, Slot>, s: Session, r: string)
    requires Tracks(disk, uploads, slots, s) && r in uploads
    ensures forall q :: q in uploads && q != r ==> uploads[q].writer != uploads[r].writer
  {
    forall q | q in uploads && q != r ensures uploads[q].writer != uploads[r].writer {
      assert InSlot(disk, uploads[q], slots[q]) && InSlot(disk, uploads[r], slots[r]);
      assert slots[q].tmpFile != slots[r].tmpFile;
    }
  }

  /** The writers in use afterwards are those in use before, or new. */
  ghost predicate WritersWithin(uploads: Uploads, known: set<ChunkWriter>, new_: set<ChunkWriter>) {
    forall r :: r in uploads ==> uploads[r].writer in known || uploads[r].writer in new_
  }

  lemma {:induction false} AppendValid(s: Session, e: FileEntry)
    requires Valid(s) && e.path in s.open && Append(s, e).Ok?
    ensures Valid(Append(s, e).value)
  {}

  /** writeChunk: find or open the upload, check offset and mode, stage the bytes. */
  method WriteChunk(disk: Disk, e: FileEntry, uploads: Uploads, ghost slots: map<string, Slot>, ghost s: Session)
    returns (ok: bool, uploads': Uploads, ghost slots': map<string, Slot>, ghost s': Session,
             ghost created: set<ChunkWriter>, ghost fault: bool)
    requires Tracks(disk, uploads, slots, s) && Valid(s) && !e.deleted
    modifies disk`fs, disk`temps, disk`nextTemp
    ensures Tracks(disk, uploads', slots', s')
    ensures ok ==> Start(s, e).Ok? && e.path in Start(s, e).value.open && Append(Start(s, e).value, e) == Ok(s')
    ensures ok ==> e.path in uploads' && Valid(s')
    ensures Interrupted(s, e, s') && s'.fs.files == s.fs.files
    ensures !ok && !fault ==>
      Start(s, e).Err? || (e.path in Start(s, e).value.open && Append(Start(s, e).value, e).Err?)
    ensures fresh(created) && WritersWithin(uploads', Writers(uploads), created)
  {
    hide Refines, Valid, Interrupted;
    RefinesKeys(disk.temps, slots, s.open);
    NothingDone(s, e);
    ok, uploads', slots', s', created, fault := false, uploads, slots, s, {}, false;
    if e.path !in uploads {
      if e.chunkOffset != 0 { return; }
      var w, slot, s1, failed := OpenUpload(disk, e, uploads, slots, s);
      s', fault := s1, failed;
      if w.None? { return; }
      created := {w.value};
      uploads', slots' := uploads[e.path := PartialUpload(w.value, 0, e.mode)], slots[e.path := slot];
    }
    StartValid(s, e);
    assert Start(s, e) == Ok(s');
    ghost var started := s';
    var appended, up, slot2, s2, part, failed2 := AppendUpload(disk, e, uploads', slots', s');
    ok, uploads', slots', s', fault := appended, uploads'[e.path := up], slots'[e.path := slot2], s2, failed2;
    StartedAndStaged(s, e, started, if ok then e.content else part, s'.open[e.path].next);
    if ok { AppendValid(started, e); }
  }

  /** One entry of a batch: a chunk, a deletion or a plain write. Without a fault it is refused exactly
      when the stream machine refuses it; a refused or failed one leaves no more than Interrupted says. */
  method HandleChunk(disk: Disk, e: FileEntry, uploads: Uploads, ghost slots: map<string, Slot>, ghost s: Session)
    returns (ok: bool, uploads': Uploads, ghost slots': map<string, Slot>, ghost s': Session,
             ghost created: set<ChunkWriter>, ghost fault: bool)
    requires Tracks(disk, uploads, slots, s) && Valid(s) && e.chunked
    modifies disk`fs, disk`temps, disk`nextTemp, Writers(uploads)
    ensures Tracks(disk, uploads', slots', s')
    ensures ok ==> Step(s, e) == Ok(s')
    ensures !ok ==> Interrupted(s, e, s') && s'.fs.files == s.fs.files
    ensures !ok && !fault ==> Step(s, e).Err?
    ensures fresh(created) && WritersWithin(uploads', Writers(uploads), created)
  {
    hide Refines, Valid, Start, Append, Commit, Interrupted;
    NothingDone(s, e);
    ok, uploads', slots', s', created, fault := false, uploads, slots, s, {}, false;
    if e.deleted { return; }
    ok, uploads', slots', s', created, fault := WriteChunk(disk, e, uploads, slots, s);
    if ok && e.finalChunk {
      assert uploads'[e.path].writer in Writers(uploads) || uploads'[e.path].writer in created;
      ghost var s2 := s';
      ok, s', fault := CommitUpload(disk, e, uploads', slots', s2);
      if ok { uploads', slots' := uploads' - {e.path}, slots' - {e.path}; }
    }
  }

  lemma {:induction false} PlainIs(s: Session, e: FileEntry)
    requires !e.chunked
    ensures e.path in s.open || TargetKey(e.path).None? ==> Step(s, e).Err?
    ensures e.path !in s.open && TargetKey(e.path).Some? && e.deleted ==> var key := TargetKey(e.path).value;
      if CanRemove(s.fs, Busy(s.open), key) then Step(s, e) == Ok(s.(fs := Remove(s.fs, key))) else Step(s, e).Err?
    ensures e.path !in s.open && TargetKey(e.path).Some? && !e.deleted ==> var key := TargetKey(e.path).value;
      if CanPut(s.fs, key) then Step(s, e) == Ok(s.(fs := Put(s.fs, key, File(e.content, Perm(e.mode)))))
      else Step(s, e).Err?
  {
    hide TargetKey, CanRemove;
  }

  /** `litter`: a temporary file of a failed write stayed. */
  method HandlePlain(disk: Disk, e: FileEntry, uploads: Uploads, ghost slots: map<string, Slot>, ghost s: Session)
    returns (ok: bool, ghost s': Session, ghost fault: bool, ghost litter: bool)
    requires Tracks(disk, uploads, slots, s) && !e.chunked && Valid(s)
    modifies disk`fs
    ensures Tracks(disk, uploads, slots, s') && s'.open == s.open
    ensures ok ==> Step(s, e) == Ok(s')
    ensures !ok ==> Interrupted(s, e, s')
    ensures litter <==> !ok && NewFiles(s.fs, s'.fs) != map[]
    ensures !ok && !fault ==> Step(s, e).Err?
  {
    hide Refines, Interrupted, Valid, WellFormed, TargetKey, Attempted, CanRemove, Rooted, Paths.IsArchivePath, Step,
         Put, Remove, NewFiles, CanPut, Targets, Busy;
    PlainIs(s, e);
    RefinesKeys(disk.temps, slots, s.open);
    SameBusy(disk.temps, slots, s.open);
    NothingDone(s, e);
    NothingNew(s.fs);
    ok, s', fault, litter := false, s, false, false;
    if e.path in uploads { return; }
    if e.deleted {
      ok, fault := disk.DeleteFile(e.path);
    } else {
      ok, fault, litter := disk.WriteFile(e.path, e.content, e.mode);
      if !ok && TargetKey(e.path).Some? { OnlyAttempted(s, e, disk.fs); }
    }
    s' := s.(fs := disk.fs);
  }
}
