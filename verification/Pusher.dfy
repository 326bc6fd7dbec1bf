/** The sending side of an upload: packing a difference list, reading the files again, and emitting
    the stream of wire batches. */
module Pusher {
  import opened Integers
  import opened Model
  import opened Namespacing
  import opened Packager
  import opened Wire

  /** `prefix` is the archive prefix of the root; the local tree is keyed by root-relative path. */
  datatype PushConfig = PushConfig(username: string, ruleType: string, prefix: string)

  type LocalFiles = map<string, Bytes>

  predicate ValidPushConfig(cfg: PushConfig) {
    if cfg.ruleType == "user" then cfg.username != "_machine"
    else cfg.ruleType == "machine" && cfg.username == "_machine"
  }

  predicate Large(d: FileDiff) { Oversized(d, MAX_BATCH_CONTENT_BYTES) }

  predicate IsLargeFileBatch(files: seq<FileDiff>) {
    |files| == 1 && files[0].action != Delete && files[0].file.size > MAX_BATCH_CONTENT_BYTES
  }

  function LocalContent(prefix: string, d: FileDiff, disk: LocalFiles): Option<Bytes> {
    match SourcePath(prefix, d.file.path)
    case Ok(rel) => Lookup(disk, rel)
    case Err(_) => None
  }

  /** The first `size` bytes, padded when the file has become shorter than it was scanned. */
  function Sized(data: Bytes, size: nat): (r: Bytes)
    ensures |r| == size
    ensures |data| >= size ==> r == data[..size]
    ensures forall i :: 0 <= i < size && i < |data| ==> r[i] == data[i]
  {
    if |data| >= size then data[..size] else data + seq(size - |data|, _ => 0)
  }

  /** The change a difference stands for, given what the file holds when it is sent. */
  function ChangeFor(prefix: string, d: FileDiff, disk: LocalFiles): Change {
    var data := LocalContent(prefix, d, disk).Some?;
    var content := if data then LocalContent(prefix, d, disk).value else [];
    Change(d.file.path, d.file.mode,
           if d.action == Delete then Gone
           else if Large(d) then Chunked(Sized(content, d.file.size))
           else Whole(content))
  }

  function ChangesFor(prefix: string, ds: seq<FileDiff>, disk: LocalFiles): (cs: seq<Change>)
    ensures |cs| == |ds| && forall i :: 0 <= i < |cs| ==> cs[i] == ChangeFor(prefix, ds[i], disk)
  {
    seq(|ds|, i requires 0 <= i < |ds| => ChangeFor(prefix, ds[i], disk))
  }

  /** The file can still be read, and has not shrunk if it is to be chunked. */
  predicate Readable(prefix: string, d: FileDiff, disk: LocalFiles) {
    d.action == Delete ||
    (LocalContent(prefix, d, disk).Some? && (Large(d) ==> |LocalContent(prefix, d, disk).value| >= d.file.size))
  }

  ghost predicate AllReadable(prefix: string, ds: seq<FileDiff>, disk: LocalFiles) {
    forall i :: 0 <= i < |ds| ==> Readable(prefix, ds[i], disk)
  }

  /** The scanned size is still the size of the file. */
  ghost predicate SizesHold(prefix: string, ds: seq<FileDiff>, disk: LocalFiles) {
    forall i :: 0 <= i < |ds| && ds[i].action != Delete ==>
      LocalContent(prefix, ds[i], disk).Some? && |LocalContent(prefix, ds[i], disk).value| == ds[i].file.size
  }

  function Flatten(batches: seq<Batch>): seq<FileEntry>
    decreases |batches|
  {
    if batches == [] then [] else Flatten(batches[..|batches| - 1]) + batches[|batches| - 1].files
  }

  lemma {:induction false} FlattenSnoc(batches: seq<Batch>, b: Batch)
    ensures Flatten(batches + [b]) == Flatten(batches) + b.files
  {
    assert (batches + [b])[..|batches|] == batches;
  }

  lemma {:induction false} FlattenAppend(a: seq<Batch>, b: seq<Batch>)
    ensures Flatten(a + b) == Flatten(a) + Flatten(b)
    decreases |b|
  {
    if b == [] {
      assert a + b == a;
    } else {
      var c := b[..|b| - 1];
      assert (a + b)[..|a + b| - 1] == a + c;
      FlattenAppend(a, c);
    }
  }

  lemma {:induction false} WireAppend(a: seq<Change>, b: seq<Change>)
    ensures WireOf(a + b) == WireOf(a) + WireOf(b)
    decreases |b|
  {
    hide EntriesOf;
    if b == [] {
      assert a + b == a;
    } else {
      var c, last := b[..|b| - 1], b[|b| - 1];
      WireAppend(a, c);
      WireSnoc(a + c, last);
      WireSnoc(c, last);
      assert a + b == (a + c) + [last] && b == c + [last];
    }
  }

  lemma {:induction false} WireOne(c: Change)
    ensures WireOf([c]) == EntriesOf(c)
  {
    WireSnoc([], c);
    assert [] + [c] == [c];
  }

  function Payload(files: seq<FileEntry>): nat
    decreases |files|
  {
    if files == [] then 0 else Payload(files[..|files| - 1]) + |files[|files| - 1].content|
  }

  lemma {:induction false} PayloadSnoc(files: seq<FileEntry>, e: FileEntry)
    ensures Payload(files + [e]) == Payload(files) + |e.content|
  {
    assert (files + [e])[..|files|] == files;
  }

  /** Every batch names the stream's user and rule type. */
  ghost predicate Stamped(batches: seq<Batch>, cfg: PushConfig) {
    forall i :: 0 <= i < |batches| ==> batches[i].username == cfg.username && batches[i].ruleType == cfg.ruleType
  }

  ghost predicate PayloadsWithin(batches: seq<Batch>, limit: nat) {
    forall i :: 0 <= i < |batches| ==> Payload(batches[i].files) <= limit
  }

  /** The chunks still to be sent for an oversized file. */
  function ChunksLeft(d: FileDiff, data: Bytes, offset: nat): seq<FileEntry>
    requires d.file.size >= 0
  {
    ChunksFrom(d.file.path, Sized(data, d.file.size), d.file.mode, CHUNK_CONTENT_BYTES, offset)
  }

  lemma {:induction false} NextChunk(d: FileDiff, data: Bytes, offset: nat, n: nat)
    requires offset < d.file.size && n == Min(CHUNK_CONTENT_BYTES, d.file.size - offset) && offset + n <= |data|
    ensures ChunksLeft(d, data, offset) ==
      [FileEntry(d.file.path, data[offset..offset + n], d.file.mode, false, true, offset, offset + n == d.file.size)]
      + ChunksLeft(d, data, offset + n)
  {
    assert data[offset..offset + n] == Sized(data, d.file.size)[offset..offset + n];
  }

  lemma {:induction false} SendOne(sent: seq<Batch>, cfg: PushConfig, entry: FileEntry, limit: nat)
    requires Stamped(sent, cfg) && PayloadsWithin(sent, limit) && |entry.content| <= limit
    ensures var out := sent + [Batch(cfg.username, cfg.ruleType, [entry])];
      Stamped(out, cfg) && PayloadsWithin(out, limit) && Flatten(out) == Flatten(sent) + [entry]
  {
    var pb := Batch(cfg.username, cfg.ruleType, [entry]);
    FlattenSnoc(sent, pb);
    PayloadSnoc([], entry);
    assert [] + [entry] == [entry];
  }

  lemma {:induction false} ChunkedChange(prefix: string, d: FileDiff, disk: LocalFiles)
    requires Large(d) && LocalContent(prefix, d, disk).Some?
    ensures EntriesOf(ChangeFor(prefix, d, disk)) == ChunksLeft(d, LocalContent(prefix, d, disk).value, 0)
    ensures |ChunksLeft(d, LocalContent(prefix, d, disk).value, 0)| == CeilDiv(d.file.size, CHUNK_CONTENT_BYTES)
  {
    var content := Sized(LocalContent(prefix, d, disk).value, d.file.size);
    ChunkShape(d.file.path, content, d.file.mode, CHUNK_CONTENT_BYTES, 0);
  }

  /** The read loop over one file: chunk after chunk until the scanned size is reached. A read that
      comes up short or an unacknowledged batch stops it. */
  method SendChunks(cfg: PushConfig, d: FileDiff, data: Bytes) returns (sent: seq<Batch>, ok: bool, ghost fault: bool)
    requires d.file.size >= 0
    ensures !ok && !fault ==> |data| < d.file.size
    ensures Flatten(sent) <= ChunksLeft(d, data, 0)
    ensures ok ==> |data| >= d.file.size && Flatten(sent) == ChunksLeft(d, data, 0) && |sent| == |Flatten(sent)|
    ensures Stamped(sent, cfg) && PayloadsWithin(sent, CHUNK_CONTENT_BYTES)
  {
    hide *;
    sent, ok, fault := [], true, false;
    SentNothing(cfg, CHUNK_CONTENT_BYTES);
    var offset: nat := 0;
    while offset < d.file.size && ok
      invariant offset <= d.file.size && offset <= |data|
      invariant ChunksLeft(d, data, 0) == Flatten(sent) + ChunksLeft(d, data, offset)
      invariant |Flatten(sent)| == |sent|
      invariant Stamped(sent, cfg) && PayloadsWithin(sent, CHUNK_CONTENT_BYTES)
      invariant ok || fault || |data| < d.file.size
      decreases ok, d.file.size - offset
    {
      var want := Min(CHUNK_CONTENT_BYTES, d.file.size - offset);
      var n := Min(want, |data| - offset);
      MinIs(CHUNK_CONTENT_BYTES, d.file.size - offset);
      MinIs(want, |data| - offset);
      if n == 0 || (n < want && offset + n != d.file.size) {
        ok := false;
      } else {
        var final := offset + n == d.file.size;
        var entry := FileEntry(d.file.path, data[offset..offset + n], d.file.mode, false, true, offset, final);
        NextChunk(d, data, offset, n);
        SendOne(sent, cfg, entry, CHUNK_CONTENT_BYTES);
        sent := sent + [Batch(cfg.username, cfg.ruleType, [entry])];
        offset := offset + n;
        ok := *;
        fault := !ok;
      }
    }
    NoChunksLeft(d, data, offset);
  }

  lemma {:induction false} MinIs(a: int, b: int)
    ensures Min(a, b) == if a < b then a else b
    ensures CHUNK_CONTENT_BYTES > 0
  {}

  lemma {:induction false} NoChunksLeft(d: FileDiff, data: Bytes, offset: nat)
    requires d.file.size >= 0
    ensures offset >= d.file.size ==> ChunksLeft(d, data, offset) == []
  {}

  /** An oversized file in chunks. Without a fault it fails exactly when the file cannot be read, or has
      become shorter than it was scanned. */
  method SendChunkedFile(cfg: PushConfig, d: FileDiff, disk: LocalFiles)
    returns (sent: seq<Batch>, ok: bool, ghost fault: bool)
    requires Large(d)
    ensures Flatten(sent) <= EntriesOf(ChangeFor(cfg.prefix, d, disk))
    ensures ok ==> Readable(cfg.prefix, d, disk) && Flatten(sent) == EntriesOf(ChangeFor(cfg.prefix, d, disk))
    ensures ok ==> |sent| == CeilDiv(d.file.size, CHUNK_CONTENT_BYTES)
    ensures !ok && !fault ==> !Readable(cfg.prefix, d, disk)
    ensures Stamped(sent, cfg) && PayloadsWithin(sent, CHUNK_CONTENT_BYTES)
  {
    var local := SourcePath(cfg.prefix, d.file.path);
    if local.Err? || local.value !in disk { return [], false, false; }
    ChunkedChange(cfg.prefix, d, disk);
    sent, ok, fault := SendChunks(cfg, d, disk[local.value]);
  }

  lemma {:induction false} EntryOfDiff(prefix: string, d: FileDiff, disk: LocalFiles)
    requires !Large(d) && Readable(prefix, d, disk)
    ensures EntriesOf(ChangeFor(prefix, d, disk)) ==
      [FileEntry(d.file.path, if d.action == Delete then [] else LocalContent(prefix, d, disk).value, d.file.mode,
                 d.action == Delete, false, 0, false)]
  {}

  /** The entries of a shared batch after its first n files. */
  ghost predicate Gathered(cfg: PushConfig, files: seq<FileDiff>, n: nat, disk: LocalFiles, entries: seq<FileEntry>)
    requires n <= |files|
  {
    && entries == WireOf(ChangesFor(cfg.prefix, files[..n], disk))
    && AllReadable(cfg.prefix, files[..n], disk)
    && (SizesHold(cfg.prefix, files, disk) ==> Payload(entries) == Total(files[..n]))
  }

  lemma {:induction false} Gather(cfg: PushConfig, files: seq<FileDiff>, n: nat, disk: LocalFiles,
                                  entries: seq<FileEntry>, entry: FileEntry)
    requires n < |files| && Gathered(cfg, files, n, disk, entries)
    requires !Large(files[n]) && Readable(cfg.prefix, files[n], disk)
    requires EntriesOf(ChangeFor(cfg.prefix, files[n], disk)) == [entry]
    requires entry.content == if files[n].action == Delete then [] else LocalContent(cfg.prefix, files[n], disk).value
    ensures Gathered(cfg, files, n + 1, disk, entries + [entry])
  {
    hide WireOf, EntriesOf, ChangeFor, Payload, Total, SizesHold, LocalContent, Large, Readable;
    ChangesSnoc(cfg.prefix, files, n, disk);
    WireSnoc(ChangesFor(cfg.prefix, files[..n], disk), ChangeFor(cfg.prefix, files[n], disk));
    if SizesHold(cfg.prefix, files, disk) { GatherSize(cfg.prefix, files, n, disk, entries, entry); }
    assert files[..n + 1] == files[..n] + [files[n]];
  }

  /** A file whose size still holds adds exactly its scanned bytes to the payload. */
  lemma {:induction false} GatherSize(prefix: string, files: seq<FileDiff>, n: nat, disk: LocalFiles,
                                      entries: seq<FileEntry>, entry: FileEntry)
    requires n < |files| && Readable(prefix, files[n], disk) && SizesHold(prefix, files, disk)
    requires entry.content == if files[n].action == Delete then [] else LocalContent(prefix, files[n], disk).value
    ensures Payload(entries + [entry]) == Payload(entries) + FileBytes(files[n])
    ensures Total(files[..n + 1]) == Total(files[..n]) + FileBytes(files[n])
  {
    hide LocalContent, Payload;
    PayloadSnoc(entries, entry);
    assert files[..n + 1][..n] == files[..n];
  }

  /** A shared batch: every file is read before the batch is sent at all. */
  method ReadEntries(cfg: PushConfig, files: seq<FileDiff>, disk: LocalFiles) returns (r: Option<seq<FileEntry>>)
    requires forall i :: 0 <= i < |files| ==> !Large(files[i])
    ensures r.Some? ==> Gathered(cfg, files, |files|, disk, r.value)
    ensures r.None? ==> !AllReadable(cfg.prefix, files, disk)
  {
    var entries: seq<FileEntry> := [];
    for n := 0 to |files|
      invariant Gathered(cfg, files, n, disk, entries)
    {
      var d := files[n];
      var entry := FileEntry(d.file.path, [], d.file.mode, d.action == Delete, false, 0, false);
      if d.action != Delete {
        var local := SourcePath(cfg.prefix, d.file.path);
        if local.Err? || local.value !in disk {
          assert !Readable(cfg.prefix, files[n], disk);
          return None;
        }
        entry := entry.(content := disk[local.value]);
      }
      EntryOfDiff(cfg.prefix, d, disk);
      Gather(cfg, files, n, disk, entries, entry);
      entries := entries + [entry];
    }
    return Some(entries);
  }

  lemma {:induction false} SentNothing(cfg: PushConfig, limit: nat)
    ensures Flatten([]) == [] && Stamped([], cfg) && PayloadsWithin([], limit)
  {}

  /** The one wire batch of a shared batch that was read in full. */
  lemma {:induction false} SentShared(cfg: PushConfig, files: seq<FileDiff>, disk: LocalFiles, entries: seq<FileEntry>)
    requires Gathered(cfg, files, |files|, disk, entries)
    ensures var sent := [Batch(cfg.username, cfg.ruleType, entries)];
      && Flatten(sent) == WireOf(ChangesFor(cfg.prefix, files, disk))
      && AllReadable(cfg.prefix, files, disk)
      && Stamped(sent, cfg)
      && (SizesHold(cfg.prefix, files, disk) ==> PayloadsWithin(sent, Max0(Total(files))))
  {
    hide WireOf, ChangeFor, LocalContent, Readable;
    var pb := Batch(cfg.username, cfg.ruleType, entries);
    assert files[..|files|] == files;
    FlattenSnoc([], pb);
    assert [] + [pb] == [pb];
  }

  method SendBatch(cfg: PushConfig, files: seq<FileDiff>, disk: LocalFiles)
    returns (sent: seq<Batch>, ok: bool, ghost fault: bool)
    requires forall i :: 0 <= i < |files| ==> !Large(files[i])
    ensures Flatten(sent) == [] || Flatten(sent) == WireOf(ChangesFor(cfg.prefix, files, disk))
    ensures ok ==> AllReadable(cfg.prefix, files, disk) && Flatten(sent) == WireOf(ChangesFor(cfg.prefix, files, disk))
    ensures !ok && !fault ==> !AllReadable(cfg.prefix, files, disk)
    ensures Stamped(sent, cfg)
    ensures SizesHold(cfg.prefix, files, disk) ==> PayloadsWithin(sent, Max0(Total(files)))
  {
    hide *;
    var entries := ReadEntries(cfg, files, disk);
    sent, ok, fault := [], false, false;
    SentNothing(cfg, Max0(Total(files)));
    if entries.Some? {
      SentShared(cfg, files, disk, entries.value);
      sent := [Batch(cfg.username, cfg.ruleType, entries.value)];
      ok := *;
      fault := !ok;
    }
  }

  function Max0(n: int): nat { if n < 0 then 0 else n }

  lemma {:induction false} ChangesSnoc(prefix: string, files: seq<FileDiff>, n: nat, disk: LocalFiles)
    requires n < |files|
    ensures ChangesFor(prefix, files[..n + 1], disk) ==
      ChangesFor(prefix, files[..n], disk) + [ChangeFor(prefix, files[n], disk)]
  {}

  lemma {:induction false} ChangesAppend(prefix: string, a: seq<FileDiff>, b: seq<FileDiff>, disk: LocalFiles)
    ensures ChangesFor(prefix, a + b, disk) == ChangesFor(prefix, a, disk) + ChangesFor(prefix, b, disk)
  {}

  /** What one packed batch puts on the stream. */
  lemma {:induction false} BatchOnWire(prefix: string, before: seq<FileDiff>, files: seq<FileDiff>, disk: LocalFiles)
    ensures WireOf(ChangesFor(prefix, before + files, disk)) ==
      WireOf(ChangesFor(prefix, before, disk)) + WireOf(ChangesFor(prefix, files, disk))
  {
    ChangesAppend(prefix, before, files, disk);
    WireAppend(ChangesFor(prefix, before, disk), ChangesFor(prefix, files, disk));
  }

  /** The batches the sender chunks are exactly those the packer emitted for an oversized file; in
      every other batch no file is oversized and the contents fit. */
  lemma {:induction false} LargeBatchAgrees(files: seq<FileDiff>, limit: int)
    requires Admissible(files, limit, MAX_BATCH_CONTENT_BYTES)
    ensures IsLargeFileBatch(files) <==> exists i :: 0 <= i < |files| && Large(files[i])
    ensures !IsLargeFileBatch(files) ==> Total(files) <= MAX_BATCH_CONTENT_BYTES
  {
    if IsLargeFileBatch(files) { assert Large(files[0]); }
  }

  ghost function Before(cut: seq<seq<FileDiff>>, n: nat): seq<FileDiff>
    requires n <= |cut|
  {
    Concat(cut[..n])
  }

  lemma {:induction false} BeforeStep(cut: seq<seq<FileDiff>>, n: nat)
    requires n < |cut|
    ensures Before(cut, n + 1) == Before(cut, n) + cut[n]
  {
    assert cut[..n + 1][..n] == cut[..n];
  }

  lemma {:induction false} BeforeIsPrefix(cut: seq<seq<FileDiff>>, n: nat)
    requires n <= |cut|
    ensures Before(cut, n) <= Concat(cut)
    decreases |cut| - n
  {
    if n == |cut| {
      assert cut[..n] == cut;
    } else {
      BeforeStep(cut, n);
      BeforeIsPrefix(cut, n + 1);
    }
  }

  lemma {:induction false} WirePrefixOfPrefix(prefix: string, part: seq<FileDiff>, ds: seq<FileDiff>, disk: LocalFiles)
    requires part <= ds
    ensures WireOf(ChangesFor(prefix, part, disk)) <= WireOf(ChangesFor(prefix, ds, disk))
  {
    BatchOnWire(prefix, part, ds[|part|..], disk);
    assert part + ds[|part|..] == ds;
  }

  lemma {:induction false} PayloadsWithinMono(sent: seq<Batch>, a: nat, b: nat)
    requires PayloadsWithin(sent, a) && a <= b
    ensures PayloadsWithin(sent, b)
  {}

  /** Sending one packed batch, chunked or whole. */
  method SendPacked(cfg: PushConfig, files: seq<FileDiff>, disk: LocalFiles, ghost limit: int)
    returns (sent: seq<Batch>, ok: bool, ghost fault: bool)
    requires Admissible(files, limit, MAX_BATCH_CONTENT_BYTES)
    ensures Flatten(sent) <= WireOf(ChangesFor(cfg.prefix, files, disk))
    ensures ok ==> AllReadable(cfg.prefix, files, disk) && Flatten(sent) == WireOf(ChangesFor(cfg.prefix, files, disk))
    ensures !ok && !fault ==> !AllReadable(cfg.prefix, files, disk)
    ensures Stamped(sent, cfg)
    ensures SizesHold(cfg.prefix, files, disk) ==> PayloadsWithin(sent, MAX_BATCH_CONTENT_BYTES)
  {
    LargeBatchAgrees(files, limit);
    if IsLargeFileBatch(files) {
      var d := files[0];
      WireOne(ChangeFor(cfg.prefix, d, disk));
      assert ChangesFor(cfg.prefix, files, disk) == [ChangeFor(cfg.prefix, d, disk)];
      sent, ok, fault := SendChunkedFile(cfg, d, disk);
      PayloadsWithinMono(sent, CHUNK_CONTENT_BYTES, MAX_BATCH_CONTENT_BYTES);
    } else {
      sent, ok, fault := SendBatch(cfg, files, disk);
      if SizesHold(cfg.prefix, files, disk) {
        PayloadsWithinMono(sent, Max0(Total(files)), MAX_BATCH_CONTENT_BYTES);
      }
    }
  }

  /** The stream after some of the packed batches, and what it may become with a part of the next. */
  ghost predicate SentSome(cfg: PushConfig, diffs: seq<FileDiff>, part: seq<FileDiff>, disk: LocalFiles,
                           sent: seq<Batch>) {
    && part <= diffs
    && Flatten(sent) == WireOf(ChangesFor(cfg.prefix, part, disk))
    && AllReadable(cfg.prefix, part, disk)
    && Stamped(sent, cfg)
    && (SizesHold(cfg.prefix, diffs, disk) ==> PayloadsWithin(sent, MAX_BATCH_CONTENT_BYTES))
  }

  lemma {:induction false} Joined(cfg: PushConfig, a: seq<Batch>, b: seq<Batch>, limit: nat)
    ensures Stamped(a, cfg) && Stamped(b, cfg) ==> Stamped(a + b, cfg)
    ensures PayloadsWithin(a, limit) && PayloadsWithin(b, limit) ==> PayloadsWithin(a + b, limit)
  {}

  lemma {:induction false} ReadableJoined(prefix: string, a: seq<FileDiff>, b: seq<FileDiff>, disk: LocalFiles)
    requires AllReadable(prefix, a, disk) && AllReadable(prefix, b, disk)
    ensures AllReadable(prefix, a + b, disk)
  {}

  lemma {:induction false} SendMore(cfg: PushConfig, diffs: seq<FileDiff>, part: seq<FileDiff>, files: seq<FileDiff>,
                                    disk: LocalFiles, sent: seq<Batch>, more: seq<Batch>, done: bool)
    requires SentSome(cfg, diffs, part, disk, sent) && part + files <= diffs
    requires Flatten(more) <= WireOf(ChangesFor(cfg.prefix, files, disk)) && Stamped(more, cfg)
    requires done ==>
      AllReadable(cfg.prefix, files, disk) && Flatten(more) == WireOf(ChangesFor(cfg.prefix, files, disk))
    requires SizesHold(cfg.prefix, files, disk) ==> PayloadsWithin(more, MAX_BATCH_CONTENT_BYTES)
    ensures Flatten(sent + more) <= WireOf(ChangesFor(cfg.prefix, diffs, disk))
    ensures Stamped(sent + more, cfg)
    ensures SizesHold(cfg.prefix, diffs, disk) ==> PayloadsWithin(sent + more, MAX_BATCH_CONTENT_BYTES)
    ensures done ==> SentSome(cfg, diffs, part + files, disk, sent + more)
  {
    hide WireOf, Flatten, AllReadable, Stamped, PayloadsWithin, SizesHold;
    BatchOnWire(cfg.prefix, part, files, disk);
    SizesHoldPart(cfg.prefix, diffs, |part|, files, disk);
    WirePrefixOfPrefix(cfg.prefix, part + files, diffs, disk);
    FlattenAppend(sent, more);
    Joined(cfg, sent, more, MAX_BATCH_CONTENT_BYTES);
    if done { ReadableJoined(cfg.prefix, part, files, disk); }
  }

  lemma {:induction false} UnreadablePart(prefix: string, part: seq<FileDiff>, files: seq<FileDiff>, ds: seq<FileDiff>,
                                          disk: LocalFiles)
    requires part + files <= ds && !AllReadable(prefix, files, disk)
    ensures !AllReadable(prefix, ds, disk)
  {
    hide Readable;
    var i :| 0 <= i < |files| && !Readable(prefix, files[i], disk);
    assert ds[|part| + i] == (part + files)[|part| + i] == files[i];
  }

  /** The sender: no stream is opened for an empty list; otherwise the entries sent are the wire form
      of a prefix of the changes, and of all of them when it reaches the end. Unless the connection
      fails it gets there exactly if the configuration is valid and every file can still be read. */
  method PushBackup(cfg: PushConfig, diffs: seq<FileDiff>, disk: LocalFiles)
    returns (started: bool, sent: seq<Batch>, ok: bool, ghost fault: bool)
    ensures !started ==> sent == []
    ensures diffs == [] ==> !started && ok
    ensures diffs != [] && ok ==> started && ValidPushConfig(cfg)
    ensures Flatten(sent) <= WireOf(ChangesFor(cfg.prefix, diffs, disk))
    ensures ok ==> AllReadable(cfg.prefix, diffs, disk) && Flatten(sent) == WireOf(ChangesFor(cfg.prefix, diffs, disk))
    ensures !ok && !fault ==> !ValidPushConfig(cfg) || !AllReadable(cfg.prefix, diffs, disk)
    ensures Stamped(sent, cfg)
    ensures SizesHold(cfg.prefix, diffs, disk) ==> PayloadsWithin(sent, MAX_BATCH_CONTENT_BYTES)
  {
    hide AllReadable, Stamped, PayloadsWithin, SizesHold, WireOf, Readable, SentSome, ChangesFor, Flatten;
    started, sent, ok, fault := false, [], false, false;
    NothingSent(cfg, diffs, disk);
    SentIsPart(cfg, diffs, [], disk, []);
    if |diffs| == 0 {
      ok := true;
      return;
    }
    if !ValidPushConfig(cfg) { return; }
    var batches := PackBatchesWithinSize(diffs, DEFAULT_BATCH_SIZE, MAX_BATCH_CONTENT_BYTES);
    started := *;
    if !started { fault := true; return; }
    ghost var cut := FilesOf(batches);
    PackedIsCut(diffs, DEFAULT_BATCH_SIZE, MAX_BATCH_CONTENT_BYTES);
    for n := 0 to |batches|
      invariant SentSome(cfg, diffs, Before(cut, n), disk, sent)
    {
      var files := batches[n].files;
      assert files == cut[n];
      BeforeStep(cut, n);
      BeforeIsPrefix(cut, n + 1);
      var more, done;
      more, done, fault := SendPacked(cfg, files, disk, Limit(DEFAULT_BATCH_SIZE));
      SendMore(cfg, diffs, Before(cut, n), files, disk, sent, more, done);
      sent := sent + more;
      if !done {
        if !fault { UnreadablePart(cfg.prefix, Before(cut, n), files, diffs, disk); }
        return;
      }
    }
    assert cut[..|batches|] == cut;
    SentIsPart(cfg, diffs, diffs, disk, sent);
    ok := true;
  }

  lemma {:induction false} NothingSent(cfg: PushConfig, diffs: seq<FileDiff>, disk: LocalFiles)
    ensures SentSome(cfg, diffs, [], disk, [])
  {
    SentNothing(cfg, MAX_BATCH_CONTENT_BYTES);
  }

  lemma {:induction false} SentIsPart(cfg: PushConfig, diffs: seq<FileDiff>, part: seq<FileDiff>, disk: LocalFiles,
                                      sent: seq<Batch>)
    requires SentSome(cfg, diffs, part, disk, sent)
    ensures AllReadable(cfg.prefix, part, disk) && Flatten(sent) == WireOf(ChangesFor(cfg.prefix, part, disk))
    ensures Flatten(sent) <= WireOf(ChangesFor(cfg.prefix, diffs, disk))
    ensures Stamped(sent, cfg)
    ensures SizesHold(cfg.prefix, diffs, disk) ==> PayloadsWithin(sent, MAX_BATCH_CONTENT_BYTES)
  {
    hide WireOf, Flatten, AllReadable, Stamped, PayloadsWithin, SizesHold, ChangesFor;
    WirePrefixOfPrefix(cfg.prefix, part, diffs, disk);
  }

  lemma {:induction false} SizesHoldPart(prefix: string, ds: seq<FileDiff>, at: nat, part: seq<FileDiff>,
                                         disk: LocalFiles)
    requires at + |part| <= |ds| && ds[at..at + |part|] == part
    ensures SizesHold(prefix, ds, disk) ==> SizesHold(prefix, part, disk)
  {
    forall i | 0 <= i < |part| ensures part[i] == ds[at + i] {}
  }
}
