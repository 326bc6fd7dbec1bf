/** What a list of changes looks like on the wire, and what the server makes of it: chunking is
    invisible, and stopping anywhere is the same as applying a prefix of the changes. */
module Wire {
  import opened Integers
  import opened Model
  import opened Namespacing
  import opened FileSystem
  import opened Patches
  import opened StreamMachine
  import opened Leftovers

  const CHUNK_CONTENT_BYTES: nat := 4 * 1024 * 1024

  /** The chunks of `content` from offset `off` on, at most `size` bytes each; only the chunk that
      reaches the end is final. */
  function ChunksFrom(path: string, content: Bytes, mode: Mode, size: nat, off: nat): seq<FileEntry>
    requires size > 0
    decreases |content| - off
  {
    if off >= |content| then []
    else
      var end := Min(off + size, |content|);
      [FileEntry(path, content[off..end], mode, false, true, off, end == |content|)]
      + ChunksFrom(path, content, mode, size, end)
  }

  function CeilDiv(n: nat, d: nat): nat
    requires d > 0
  {
    (n + d - 1) / d
  }

  /** A file of n bytes becomes ceil(n / size) chunks, chunk i starts at i * size, every chunk fits,
      and only the last is final. */
  lemma {:induction false} ChunkShape(path: string, content: Bytes, mode: Mode, size: nat, off: nat)
    requires size > 0 && off <= |content|
    ensures var cs := ChunksFrom(path, content, mode, size, off);
      && |cs| == CeilDiv(|content| - off, size)
      && forall i :: 0 <= i < |cs| ==>
        && cs[i].chunkOffset == off + i * size
        && 0 < |cs[i].content| <= size
        && (cs[i].finalChunk <==> i == |cs| - 1)
        && (i < |cs| - 1 ==> |cs[i].content| == size)
    decreases |content| - off
  {
    if off < |content| {
      var end := Min(off + size, |content|);
      ChunkShape(path, content, mode, size, end);
      var cs, rest := ChunksFrom(path, content, mode, size, off), ChunksFrom(path, content, mode, size, end);
      CeilStep(|content| - off, size);
      if end < |content| {
        forall i | 0 <= i < |cs|
          ensures cs[i].chunkOffset == off + i * size && 0 < |cs[i].content| <= size
          ensures cs[i].finalChunk <==> i == |cs| - 1
          ensures i < |cs| - 1 ==> |cs[i].content| == size
        {
          if i > 0 { assert cs[i] == rest[i - 1]; MulStep(i, size); }
        }
      } else {
        assert rest == [];
      }
    } else {
      CeilZero(size);
    }
  }

  lemma {:induction false} MulStep(i: int, size: int)
    ensures size + (i - 1) * size == i * size
  {}

  lemma {:induction false} CeilZero(d: nat)
    requires d > 0
    ensures CeilDiv(0, d) == 0
  {}

  lemma {:induction false} DivUnique(a: int, d: int, q: int, r: int)
    requires d > 0 && a == d * q + r && 0 <= r < d
    ensures a / d == q
  {
    var p := a / d - q;
    assert d * p == r - a % d;
    assert p >= 1 ==> d * p >= d;
    assert p <= -1 ==> d * p <= -d;
  }

  lemma {:induction false} CeilStep(n: nat, d: nat)
    requires d > 0 && n > 0
    ensures CeilDiv(n, d) == 1 + CeilDiv(n - Min(d, n), d)
  {
    if n <= d {
      CeilZero(d);
      DivUnique(n + d - 1, d, 1, n - 1);
    } else {
      var q, r := (n - 1) / d, (n - 1) % d;
      assert d * (q + 1) == d * q + d;
      DivUnique(n + d - 1, d, q + 1, r);
    }
  }

  // ---- changes -------------------------------------------------------------------------------

  datatype Body = Gone | Whole(content: Bytes) | Chunked(content: Bytes)

  datatype Change = Change(path: string, mode: Mode, body: Body)

  function EntriesOf(c: Change): seq<FileEntry> {
    match c.body
    case Gone => [FileEntry(c.path, [], c.mode, true, false, 0, false)]
    case Whole(content) => [FileEntry(c.path, content, c.mode, false, false, 0, false)]
    case Chunked(content) => ChunksFrom(c.path, content, c.mode, CHUNK_CONTENT_BYTES, 0)
  }

  function WireOf(cs: seq<Change>): seq<FileEntry>
    decreases |cs|
  {
    if cs == [] then [] else WireOf(cs[..|cs| - 1]) + EntriesOf(cs[|cs| - 1])
  }

  lemma {:induction false} WireSnoc(cs: seq<Change>, c: Change)
    ensures WireOf(cs + [c]) == WireOf(cs) + EntriesOf(c)
  {
    assert (cs + [c])[..|cs|] == cs;
  }

  function FileEdit(c: Change): Edit<File> {
    Edit(c.path, if c.body.Gone? then None else Some(File(c.body.content, Perm(c.mode))))
  }

  function FileEdits(cs: seq<Change>): (es: seq<Edit<File>>)
    ensures |es| == |cs| && forall i :: 0 <= i < |es| ==> es[i] == FileEdit(cs[i])
  {
    seq(|cs|, i requires 0 <= i < |cs| => FileEdit(cs[i]))
  }

  lemma {:induction false} FileEditsTake(cs: seq<Change>, k: nat)
    requires k <= |cs|
    ensures FileEdits(cs)[..k] == FileEdits(cs[..k])
  {}

  /** One change applied to the file tree, when the tree allows it. */
  function ApplyOne(fs: FS, c: Change): Option<FS> {
    match c.body
    case Gone => if CanRemove(fs, {}, c.path) then Some(Remove(fs, c.path)) else None
    case _ => if CanPut(fs, c.path) then Some(Put(fs, c.path, FileEdit(c).value.value)) else None
  }

  function ApplyAll(fs: FS, cs: seq<Change>): Option<FS>
    decreases |cs|
  {
    if cs == [] then Some(fs)
    else match ApplyAll(fs, cs[..|cs| - 1])
      case None => None
      case Some(mid) => ApplyOne(mid, cs[|cs| - 1])
  }

  /** The changed path is one the server stores under its own name, and a chunked body is not empty. */
  predicate Sendable(c: Change) {
    TargetKey(c.path) == Some(c.path) && (c.body.Chunked? ==> c.body.content != [])
  }

  ghost predicate AllSendable(cs: seq<Change>) { forall i :: 0 <= i < |cs| ==> Sendable(cs[i]) }

  // ---- the server accepts chunk streams ------------------------------------------------------

  /** A session in the middle of receiving one chunked file. */
  ghost predicate Midway(s: Session, c: Change, off: nat) {
    && c.body.Chunked? && off <= |c.body.content|
    && s.open == map[c.path := Upload(c.path, c.body.content[..off], off, c.mode)]
  }

  lemma {:induction false} ChunkStep(s: Session, c: Change, off: nat, end: nat)
    requires Midway(s, c, off) && off < end <= |c.body.content|
    ensures var e := FileEntry(c.path, c.body.content[off..end], c.mode, false, true, off, end == |c.body.content|);
      Step(s, e) ==
        if end < |c.body.content| then
          Ok(Session(s.fs, map[c.path := Upload(c.path, c.body.content[..end], end, c.mode)]))
        else if c.path in s.fs.dirs then Err(TargetIsDirectory)
        else Ok(Session(Publish(s.fs, c.path, File(c.body.content, Perm(c.mode))), map[]))
  {
    var content := c.body.content;
    var e := FileEntry(c.path, content[off..end], c.mode, false, true, off, end == |content|);
    assert content[..off] + content[off..end] == content[..end];
    var up := Upload(c.path, content[..end], end, c.mode);
    assert s.open[c.path := up] == map[c.path := up];
    assert Append(s, e) == Ok(Session(s.fs, map[c.path := up]));
    if end == |content| {
      assert content[..end] == content;
      assert map[c.path := up] - {c.path} == map[];
    }
  }

  lemma {:induction false} ChunksRun(s: Session, c: Change, off: nat)
    requires Midway(s, c, off) && off < |c.body.content|
    ensures Run(s, ChunksFrom(c.path, c.body.content, c.mode, CHUNK_CONTENT_BYTES, off)) ==
      if c.path in s.fs.dirs then Err(TargetIsDirectory)
      else Ok(Session(Publish(s.fs, c.path, File(c.body.content, Perm(c.mode))), map[]))
    decreases |c.body.content| - off
  {
    var content := c.body.content;
    var end := Min(off + CHUNK_CONTENT_BYTES, |content|);
    var e := FileEntry(c.path, content[off..end], c.mode, false, true, off, end == |content|);
    var rest := ChunksFrom(c.path, content, c.mode, CHUNK_CONTENT_BYTES, end);
    ChunkStep(s, c, off, end);
    RunSingle(s, e);
    RunAppend(s, [e], rest);
    if end < |content| {
      ChunksRun(Session(s.fs, map[c.path := Upload(c.path, content[..end], end, c.mode)]), c, end);
    }
  }

  /** Any proper prefix of the chunks publishes nothing. */
  lemma {:induction false} ChunksPrefix(s: Session, c: Change, off: nat, j: nat)
    requires Midway(s, c, off) && off < |c.body.content|
    requires j < |ChunksFrom(c.path, c.body.content, c.mode, CHUNK_CONTENT_BYTES, off)|
    ensures var r := Run(s, ChunksFrom(c.path, c.body.content, c.mode, CHUNK_CONTENT_BYTES, off)[..j]);
      r.Ok? && r.value.fs == s.fs && r.value.open.Keys == {c.path}
    decreases |c.body.content| - off
  {
    var content := c.body.content;
    var end := Min(off + CHUNK_CONTENT_BYTES, |content|);
    var e := FileEntry(c.path, content[off..end], c.mode, false, true, off, end == |content|);
    var rest := ChunksFrom(c.path, content, c.mode, CHUNK_CONTENT_BYTES, end);
    var all := [e] + rest;
    if j > 0 {
      ChunkStep(s, c, off, end);
      RunSingle(s, e);
      assert all[..j] == [e] + rest[..j - 1];
      RunAppend(s, [e], rest[..j - 1]);
      assert end < |content|;
      ChunksPrefix(Session(s.fs, map[c.path := Upload(c.path, content[..end], end, c.mode)]), c, end, j - 1);
    }
  }

  /** The first chunk of a file opens its upload; the rest is as if it had been open already. */
  lemma {:induction false} FirstChunk(fs: FS, c: Change, es: seq<FileEntry>)
    requires Sendable(c) && c.body.Chunked? && !ParentIsFile(fs, c.path)
    requires es != [] && es[0].chunked && !es[0].deleted && es[0].path == c.path && es[0].chunkOffset == 0
    requires es[0].mode == c.mode
    ensures Run(Session(fs, map[]), es) ==
      Run(Session(MkParents(fs, c.path), map[c.path := Upload(c.path, [], 0, c.mode)]), es)
  {
    var s0 := Session(fs, map[]);
    var s1 := Session(MkParents(fs, c.path), map[c.path := Upload(c.path, [], 0, c.mode)]);
    assert Start(s0, es[0]) == Ok(s1) && Start(s1, es[0]) == Ok(s1);
    assert es == [es[0]] + es[1..];
    RunSingle(s0, es[0]);
    RunSingle(s1, es[0]);
    RunAppend(s0, [es[0]], es[1..]);
    RunAppend(s1, [es[0]], es[1..]);
  }

  /** Sender and receiver agree on one change: the server refuses its entries exactly when the tree
      does not allow the change, and otherwise ends with the change applied and nothing staged. */
  lemma {:induction false} ChangeRuns(fs: FS, c: Change)
    requires Sendable(c)
    ensures match ApplyOne(fs, c)
      case Some(out) => Run(Session(fs, map[]), EntriesOf(c)) == Ok(Session(out, map[]))
      case None => Run(Session(fs, map[]), EntriesOf(c)).Err?
  {
    var s := Session(fs, map[]);
    var es := EntriesOf(c);
    assert Busy(s.open) == {};
    if c.body.Chunked? {
      var content := c.body.content;
      assert content[..0] == [];
      if ParentIsFile(fs, c.path) {
        assert es == [es[0]] + es[1..];
        RunSingle(s, es[0]);
        RunAppend(s, [es[0]], es[1..]);
      } else {
        FirstChunk(fs, c, es);
        var s1 := Session(MkParents(fs, c.path), map[c.path := Upload(c.path, [], 0, c.mode)]);
        ChunksRun(s1, c, 0);
        assert !Ancestor(c.path, c.path);
      }
    } else {
      RunSingle(s, es[0]);
    }
  }

  /** A proper prefix of the entries of one change makes its parents and stages some bytes; the visible
      files are as they were. */
  lemma {:induction false} ChangePrefix(fs: FS, c: Change, j: nat)
    requires Sendable(c) && j < |EntriesOf(c)| && Run(Session(fs, map[]), EntriesOf(c)[..j]).Ok?
    ensures var s := Run(Session(fs, map[]), EntriesOf(c)[..j]).value;
      if j == 0 then s == Session(fs, map[])
      else c.body.Chunked? && s.fs == MkParents(fs, c.path) && s.open.Keys == {c.path}
  {
    var es := EntriesOf(c);
    if j > 0 {
      assert c.body.Chunked?;
      assert c.body.content[..0] == [];
      assert es[..j] == [es[0]] + es[..j][1..];
      RunSingle(Session(fs, map[]), es[0]);
      RunAppend(Session(fs, map[]), [es[0]], es[..j][1..]);
      FirstChunk(fs, c, es[..j]);
      ChunksPrefix(Session(MkParents(fs, c.path), map[c.path := Upload(c.path, [], 0, c.mode)]), c, 0, j);
    }
  }

  // ---- whole lists ---------------------------------------------------------------------------

  lemma {:induction false} WireRuns(fs: FS, cs: seq<Change>)
    requires AllSendable(cs)
    ensures match ApplyAll(fs, cs)
      case Some(out) => Run(Session(fs, map[]), WireOf(cs)) == Ok(Session(out, map[]))
      case None => Run(Session(fs, map[]), WireOf(cs)).Err?
    decreases |cs|
  {
    if cs != [] {
      var before, c := cs[..|cs| - 1], cs[|cs| - 1];
      WireRuns(fs, before);
      RunAppend(Session(fs, map[]), WireOf(before), EntriesOf(c));
      match ApplyAll(fs, before) {
        case Some(mid) => ChangeRuns(mid, c);
        case None =>
      }
    }
  }

  lemma {:induction false} ApplyAllFiles(fs: FS, cs: seq<Change>)
    requires ApplyAll(fs, cs).Some?
    ensures ApplyAll(fs, cs).value.files == Apply(fs.files, FileEdits(cs))
    decreases |cs|
  {
    if cs != [] {
      var before := cs[..|cs| - 1];
      ApplyAllFiles(fs, before);
      FileEditsTake(cs, |cs| - 1);
    }
  }

  lemma {:induction false} ApplyAllWellFormed(fs: FS, cs: seq<Change>)
    requires WellFormed(fs) && ApplyAll(fs, cs).Some?
    ensures WellFormed(ApplyAll(fs, cs).value)
    decreases |cs|
  {
    if cs != [] {
      var before, c := cs[..|cs| - 1], cs[|cs| - 1];
      ApplyAllWellFormed(fs, before);
      var mid := ApplyAll(fs, before).value;
      if c.body.Gone? { RemoveWellFormed(mid, {}, c.path); }
      else { PutWellFormed(mid, c.path, FileEdit(c).value.value); }
    }
  }

  // ---- a stream that stops -------------------------------------------------------------------

  lemma {:induction false} TakeLeft<T>(a: seq<T>, b: seq<T>, j: nat)
    requires j <= |a|
    ensures (a + b)[..j] == a[..j]
  {}

  lemma {:induction false} TakeRight<T>(a: seq<T>, b: seq<T>, i: nat)
    requires i <= |b|
    ensures (a + b)[..|a| + i] == a + b[..i]
    ensures i < |b| ==> (a + b)[|a| + i] == b[i]
  {}

  /** Position j of the wire form: after k whole changes and i entries of the next one. */
  ghost predicate Located(cs: seq<Change>, j: nat, k: nat, i: nat) {
    && j <= |WireOf(cs)| && k <= |cs| && (k == |cs| ==> i == 0 && j == |WireOf(cs)|)
    && (k < |cs| ==> i < |EntriesOf(cs[k])| && j < |WireOf(cs)| && WireOf(cs)[j] == EntriesOf(cs[k])[i])
    && WireOf(cs)[..j] == WireOf(cs[..k]) + if k < |cs| then EntriesOf(cs[k])[..i] else []
  }

  lemma {:induction false} LocatedEarlier(before: seq<Change>, c: Change, j: nat, k: nat, i: nat)
    requires Located(before, j, k, i) && k < |before|
    ensures Located(before + [c], j, k, i)
  {
    hide WireOf, EntriesOf;
    var cs := before + [c];
    WireSnoc(before, c);
    assert cs[..k] == before[..k] && cs[k] == before[k];
    TakeLeft(WireOf(before), EntriesOf(c), j);
  }

  lemma {:induction false} LocatedInLast(before: seq<Change>, c: Change, i: nat)
    requires i < |EntriesOf(c)|
    ensures Located(before + [c], |WireOf(before)| + i, |before|, i)
  {
    hide WireOf, EntriesOf;
    var cs := before + [c];
    WireSnoc(before, c);
    assert cs[..|before|] == before && cs[|before|] == c;
    TakeRight(WireOf(before), EntriesOf(c), i);
  }

  lemma {:induction false} LocatedAtEnd(cs: seq<Change>)
    ensures Located(cs, |WireOf(cs)|, |cs|, 0)
  {
    hide WireOf;
    assert cs[..|cs|] == cs;
  }

  lemma {:induction false} NothingToWire()
    ensures WireOf([]) == []
  {}

  lemma {:induction false} Locate(cs: seq<Change>, j: nat) returns (k: nat, i: nat)
    requires j <= |WireOf(cs)|
    ensures Located(cs, j, k, i)
    decreases |cs|
  {
    hide *;
    NothingToWire();
    if j == |WireOf(cs)| {
      k, i := |cs|, 0;
      LocatedAtEnd(cs);
    } else {
      var before, c := cs[..|cs| - 1], cs[|cs| - 1];
      assert cs == before + [c];
      WireSnoc(before, c);
      if j < |WireOf(before)| {
        k, i := Locate(before, j);
        InsideIs(before, j, k, i);
        LocatedEarlier(before, c, j, k, i);
      } else {
        k, i := |before|, j - |WireOf(before)|;
        LocatedInLast(before, c, i);
      }
    }
  }

  lemma {:induction false} InsideIs(cs: seq<Change>, j: nat, k: nat, i: nat)
    requires Located(cs, j, k, i) && j < |WireOf(cs)|
    ensures k < |cs|
  {}

  /** The session at a position: the tree of the whole changes before it; inside a change, with the
      parents of its path and its upload. */
  lemma {:induction false} SessionAt(fs: FS, cs: seq<Change>, j: nat, k: nat, i: nat)
    requires AllSendable(cs) && Located(cs, j, k, i) && j <= |WireOf(cs)|
    requires Run(Session(fs, map[]), WireOf(cs)[..j]).Ok?
    ensures k <= |cs| && ApplyAll(fs, cs[..k]).Some?
    ensures var s, a := Run(Session(fs, map[]), WireOf(cs)[..j]).value, ApplyAll(fs, cs[..k]).value;
      if k == |cs| || i == 0 then s == Session(a, map[])
      else cs[k].body.Chunked? && s.fs == MkParents(a, cs[k].path) && s.open.Keys == {cs[k].path}
  {
    hide Run, ApplyAll, WireOf, EntriesOf, Sendable, MkParents;
    var part: seq<FileEntry> := if k < |cs| then EntriesOf(cs[k])[..i] else [];
    WireRuns(fs, cs[..k]);
    RunAppend(Session(fs, map[]), WireOf(cs[..k]), part);
    var a := ApplyAll(fs, cs[..k]).value;
    if k < |cs| { ChangePrefix(a, cs[k], i); } else { RunEmpty(Session(a, map[])); }
  }

  lemma {:induction false} RunEmpty(s: Session)
    ensures Run(s, []) == Ok(s)
  {}

  /** The tree g left by a stream that stopped: the first k changes were applied; of the next one there
      may be some parents of its path, and temporary files beside it that could not be removed. */
  ghost predicate Stops(fs: FS, cs: seq<Change>, k: nat, g: FS) {
    && k <= |cs| && ApplyAll(fs, cs[..k]).Some?
    && var a := ApplyAll(fs, cs[..k]).value;
       && WellFormed(g) && a.dirs <= g.dirs && Littered(a, g)
       && (k == |cs| || cs[k].body.Gone? ==> g == a)
       && (k < |cs| ==> g.dirs <= a.dirs + Ancestors(cs[k].path))
       && (k < |cs| ==> forall q :: q in NewFiles(a, g) ==> Beside(q, cs[k].path))
  }

  lemma {:induction false} EntriesName(c: Change, i: nat)
    requires i < |EntriesOf(c)|
    ensures EntriesOf(c)[i].path == c.path && (EntriesOf(c)[i].deleted <==> c.body.Gone?)
  {
    if c.body.Chunked? { ChunksName(c.path, c.body.content, c.mode, 0, i); }
  }

  lemma {:induction false} ChunksName(path: string, content: Bytes, mode: Mode, off: nat, i: nat)
    requires i < |ChunksFrom(path, content, mode, CHUNK_CONTENT_BYTES, off)|
    ensures var e := ChunksFrom(path, content, mode, CHUNK_CONTENT_BYTES, off)[i]; e.path == path && !e.deleted
    decreases i
  {
    if i > 0 { ChunksName(path, content, mode, Min(off + CHUNK_CONTENT_BYTES, |content|), i - 1); }
  }

  /** The residue of a stop at a boundary between changes, or at the very end. */
  lemma {:induction false} BoundaryStops(fs: FS, cs: seq<Change>, k: nat, next: Option<FileEntry>, g: FS)
    requires AllSendable(cs) && k <= |cs| && ApplyAll(fs, cs[..k]).Some?
    requires Residue(Session(ApplyAll(fs, cs[..k]).value, map[]), next, g)
    requires k == |cs| ==> next.None?
    requires k < |cs| && next.Some? ==> next.value.path == cs[k].path && (next.value.deleted <==> cs[k].body.Gone?)
    ensures Stops(fs, cs, k, g)
  {
    hide ApplyAll, WellFormed, Littered, Beside, TargetKey;
    var a := ApplyAll(fs, cs[..k]).value;
    if k < |cs| { assert Sendable(cs[k]); }
    assert NewFiles(a, g) != map[] ==> NewFiles(a, g).Keys != {};
    if next.None? || next.value.deleted {
      assert NewFiles(a, g).Keys == {};
      SameTreeIs(a, g);
    }
  }

  lemma {:induction false} SameTreeIs(a: FS, g: FS)
    requires Littered(a, g) && NewFiles(a, g) == map[] && g.dirs == a.dirs
    ensures g == a
  {
    LitteredFiles(a, g);
  }

  /** The residue of a stop inside a chunked change. */
  lemma {:induction false} InsideStops(fs: FS, cs: seq<Change>, k: nat, s: Session, next: Option<FileEntry>, g: FS)
    requires AllSendable(cs) && k < |cs| && ApplyAll(fs, cs[..k]).Some? && cs[k].body.Chunked?
    requires s.fs == MkParents(ApplyAll(fs, cs[..k]).value, cs[k].path) && s.open.Keys == {cs[k].path}
    requires Residue(s, next, g) && (next.Some? ==> next.value.path == cs[k].path)
    ensures Stops(fs, cs, k, g)
  {
    hide ApplyAll, WellFormed, Beside, TargetKey;
    var a := ApplyAll(fs, cs[..k]).value;
    assert Sendable(cs[k]);
    assert s.fs.files == a.files && s.fs.strays == a.strays;
    assert NewFiles(a, g) == NewFiles(s.fs, g);
    assert Littered(a, g);
  }

  /** Wherever a stream of the changes stops, what it leaves is a tree stopped after some of them. */
  lemma {:induction false} WireStops(fs: FS, cs: seq<Change>, es: seq<FileEntry>, accepted: nat, g: FS) returns (k: nat)
    requires AllSendable(cs) && es <= WireOf(cs) && accepted <= |es|
    requires Run(Session(fs, map[]), es[..accepted]).Ok?
    requires Residue(Run(Session(fs, map[]), es[..accepted]).value, NextEntry(es, accepted), g)
    ensures Stops(fs, cs, k, g)
  {
    hide Run, ApplyAll, WireOf, EntriesOf, Sendable, Stops, Residue, MkParents;
    assert es[..accepted] == WireOf(cs)[..accepted];
    var at, i := Locate(cs, accepted);
    k := at;
    SessionAt(fs, cs, accepted, k, i);
    var next := NextEntry(es, accepted);
    if k < |cs| {
      EntriesName(cs[k], i);
      assert next.Some? ==> next.value == EntriesOf(cs[k])[i];
    }
    var s := Run(Session(fs, map[]), es[..accepted]).value;
    if k == |cs| || i == 0 {
      BoundaryStops(fs, cs, k, next, g);
    } else {
      InsideStops(fs, cs, k, s, next, g);
    }
  }

  /** The temporary files that stayed. */
  function LeftBy(fs: FS, cs: seq<Change>, k: nat, g: FS): map<string, File> {
    if k <= |cs| && ApplyAll(fs, cs[..k]).Some? then NewFiles(ApplyAll(fs, cs[..k]).value, g) else map[]
  }

  /** The files of a stopped tree: those after k changes and what was left beside the next. */
  lemma {:induction false} StopsFiles(fs: FS, cs: seq<Change>, k: nat, g: FS)
    requires Stops(fs, cs, k, g)
    ensures k <= |cs| && ApplyAll(fs, cs[..k]).Some?
    ensures var left := LeftBy(fs, cs, k, g);
      && g.files == Apply(fs.files, FileEdits(cs)[..k]) + left
      && left.Keys !! Apply(fs.files, FileEdits(cs)[..k]).Keys
      && (k == |cs| ==> left == map[])
      && (k < |cs| ==> forall q :: q in left ==> Beside(q, cs[k].path))
  {
    hide ApplyAll, Apply, Beside;
    var a := ApplyAll(fs, cs[..k]).value;
    ApplyAllFiles(fs, cs[..k]);
    FileEditsTake(cs, k);
    LitteredFiles(a, g);
    if k == |cs| { SelfNew(a); }
  }

  lemma {:induction false} SelfNew(fs: FS)
    ensures NewFiles(fs, fs) == map[]
  {}

  lemma {:induction false} StopsAtEnd(fs: FS, cs: seq<Change>, g: FS)
    requires WellFormed(g) && ApplyAll(fs, cs) == Some(g)
    ensures Stops(fs, cs, |cs|, g)
  {
    hide ApplyAll;
    assert cs[..|cs|] == cs;
    assert NewFiles(g, g) == map[];
  }

  lemma {:induction false} StopsAtStart(fs: FS, cs: seq<Change>)
    requires WellFormed(fs)
    ensures Stops(fs, cs, 0, fs)
  {
    assert cs[..0] == [];
    assert NewFiles(fs, fs) == map[];
  }
}
