/** Any number of upload streams on one dataset at once. The handler does not exclude them: they share the
    tree and nothing else. Their operations on it interleave one by one, inside messages too, and each of
    them may fail, the removals of the clean-up included. */
module ConcurrentStreams {
  import opened Model
  import opened Namespacing
  import opened FileSystem
  import opened StreamMachine

  /** The shared tree, the open uploads of every stream that is running, and the streams that are past their
      last message. The temporary file of a whole-file write is an upload like any other. */
  datatype Shared = Shared(fs: FS, open: map<nat, map<string, Upload>>, closing: set<nat>)

  datatype Event =
    | Begin(id: nat)
    | MakeDirs(id: nat, dirs: set<string>)
    | Open(id: nat, entry: FileEntry)                        // create the temporary file
    | Append(id: nat, entry: FileEntry)                      // write one entry to it
    | AppendPart(id: nat, entry: FileEntry, part: Bytes)     // a write that failed half way
    | Rename(id: nat, entry: FileEntry)                      // put it into place
    | Unlink(id: nat, entry: FileEntry)
    | Close(id: nat)                                         // a message refused or failed, or the stream ends
    | Drop(id: nat, path: string)                            // the clean-up removes a temporary file
    | Stay(id: nat, path: string, name: string, mode: Mode)  // or fails to
    | End(id: nat)

  /** Where any stream has a temporary file. */
  function AllBusy(s: Shared): set<string> {
    set id, r | id in s.open && r in s.open[id] :: s.open[id][r].target
  }

  predicate Running(s: Shared, id: nat) { id in s.open && id !in s.closing }

  /** Stream id has an upload of r. */
  predicate Has(s: Shared, id: nat, r: string) { id in s.open && r in s.open[id] }

  function Set(s: Shared, id: nat, r: string, u: Upload): Shared
    requires id in s.open
  {
    s.(open := s.open[id := s.open[id][r := u]])
  }

  function Unset(s: Shared, id: nat, r: string): Shared
    requires id in s.open
  {
    s.(open := s.open[id := s.open[id] - {r}])
  }

  /** An entry may be written next: the checks of the handler on a chunk. */
  predicate Continues(u: Upload, e: FileEntry) {
    !e.deleted && (e.chunked ==> e.chunkOffset == u.next && e.mode == u.mode)
  }

  predicate CanMake(fs: FS, dirs: set<string>) {
    && dirs !! fs.files.Keys
    && forall d | d in dirs :: Ancestors(d) <= fs.dirs + dirs
  }

  function Happen(s: Shared, ev: Event): Option<Shared> {
    match ev
    case Begin(id) =>
      if id in s.open || id in s.closing then None else Some(s.(open := s.open[id := map[]]))
    case MakeDirs(id, dirs) =>
      if !Running(s, id) || !CanMake(s.fs, dirs) then None else Some(s.(fs := s.fs.(dirs := s.fs.dirs + dirs)))
    case Open(id, e) =>
      if !Running(s, id) || Has(s, id, e.path) || e.deleted || TargetKey(e.path).None? ||
         !(Ancestors(TargetKey(e.path).value) <= s.fs.dirs) then None
      else Some(Set(s, id, e.path, Upload(TargetKey(e.path).value, [], 0, e.mode)))
    case Append(id, e) =>
      if !Running(s, id) || !Has(s, id, e.path) || !Continues(s.open[id][e.path], e) then None
      else
        var u := s.open[id][e.path];
        Some(Set(s, id, e.path, u.(staged := u.staged + e.content, next := u.next + |e.content|)))
    case AppendPart(id, e, part) =>
      if !Running(s, id) || !Has(s, id, e.path) || !Continues(s.open[id][e.path], e) || !(part <= e.content) then None
      else
        var u := s.open[id][e.path];
        Some(Set(s, id, e.path, u.(staged := u.staged + part)).(closing := s.closing + {id}))
    case Rename(id, e) =>
      if !Running(s, id) || !Has(s, id, e.path) || s.open[id][e.path].target in s.fs.dirs then None
      else
        var u := s.open[id][e.path];
        Some(Unset(s, id, e.path).(fs := Publish(s.fs, u.target, File(u.staged, Perm(e.mode)))))
    case Unlink(id, e) =>
      if !Running(s, id) || Has(s, id, e.path) || TargetKey(e.path).None? ||
         !CanRemove(s.fs, AllBusy(s), TargetKey(e.path).value) then None
      else Some(s.(fs := Remove(s.fs, TargetKey(e.path).value)))
    case Close(id) =>
      if id in s.open then Some(s.(closing := s.closing + {id})) else None
    case Drop(id, r) =>
      if id !in s.closing || !Has(s, id, r) then None else Some(Unset(s, id, r))
    case Stay(id, r, name, mode) =>
      if id !in s.closing || !Has(s, id, r) || !Beside(name, s.open[id][r].target) || !Vacant(s.fs, name) then None
      else Some(Unset(s, id, r).(fs := Strand(s.fs, name, File(s.open[id][r].staged, mode))))
    case End(id) =>
      if id in s.closing && id in s.open && s.open[id] == map[] then
        Some(s.(open := s.open - {id}, closing := s.closing - {id}))
      else None
  }

  function RunAll(s: Shared, h: seq<Event>): Option<Shared>
    decreases |h|
  {
    if h == [] then Some(s)
    else match RunAll(s, h[..|h| - 1])
      case None => None
      case Some(t) => Happen(t, h[|h| - 1])
  }

  // ---- the tree stays a tree -----------------------------------------------------------------

  ghost predicate PlacedAt(s: Shared, id: nat, r: string) {
    Has(s, id, r) ==> var target := s.open[id][r].target; TargetKey(r) == Some(target) && Rooted(s.fs.dirs, target)
  }

  /** Every temporary file is in a directory that is there. */
  ghost predicate Placed(s: Shared) {
    WellFormed(s.fs) && forall id, r :: PlacedAt(s, id, r)
  }

  lemma {:induction false} BusyOf(s: Shared, id: nat, r: string)
    requires Has(s, id, r)
    ensures s.open[id][r].target in AllBusy(s)
  {}

  lemma {:induction false} MakeDirsWellFormed(fs: FS, dirs: set<string>)
    requires WellFormed(fs) && CanMake(fs, dirs)
    ensures WellFormed(fs.(dirs := fs.dirs + dirs))
  {
    forall d | d in dirs ensures Rooted(fs.dirs + dirs, d) {
      forall a | Ancestor(a, d) ensures a in fs.dirs + dirs { assert a in Ancestors(d); }
    }
  }

  lemma {:induction false} PublishWellFormed(fs: FS, p: string, f: File)
    requires WellFormed(fs) && Rooted(fs.dirs, p) && p !in fs.dirs
    ensures WellFormed(Publish(fs, p, f))
  {}

  /** The tree after one operation. */
  lemma {:induction false} TreeStays(s: Shared, ev: Event)
    requires Placed(s) && Happen(s, ev).Some?
    ensures WellFormed(Happen(s, ev).value.fs)
    ensures forall p :: p in AllBusy(s) && Rooted(s.fs.dirs, p) ==> Rooted(Happen(s, ev).value.fs.dirs, p)
  {
    hide TargetKey, Beside, Vacant, AllBusy, CanMake, CanRemove;
    match ev {
      case MakeDirs(id, dirs) => MakeDirsWellFormed(s.fs, dirs);
      case Rename(id, e) =>
        assert PlacedAt(s, id, e.path);
        var u := s.open[id][e.path];
        PublishWellFormed(s.fs, u.target, File(u.staged, Perm(e.mode)));
      case Unlink(id, e) => RemoveWellFormed(s.fs, AllBusy(s), TargetKey(e.path).value);
      case Stay(id, r, name, mode) =>
        assert PlacedAt(s, id, r);
        StrandWellFormed(s.fs, s.open[id][r].target, name, File(s.open[id][r].staged, mode));
      case _ =>
    }
  }

  lemma {:induction false} HappenPlaced(s: Shared, ev: Event)
    requires Placed(s) && Happen(s, ev).Some?
    ensures Placed(Happen(s, ev).value)
  {
    hide TargetKey, Beside, Vacant, AllBusy, CanMake, CanRemove, WellFormed, Rooted, Strand, Remove, Publish;
    TreeStays(s, ev);
    var t := Happen(s, ev).value;
    forall id, r ensures PlacedAt(t, id, r) {
      assert PlacedAt(s, id, r);
      if Has(s, id, r) { BusyOf(s, id, r); }
      if ev.Open? && id == ev.id && r == ev.entry.path { RootedIs(s.fs.dirs, TargetKey(r).value); }
    }
  }

  lemma {:induction false} RootedIs(dirs: set<string>, p: string)
    requires Ancestors(p) <= dirs
    ensures Rooted(dirs, p)
  {
    forall a | Ancestor(a, p) ensures a in dirs { assert a in Ancestors(p); }
  }

  lemma {:induction false} RunPlaced(s: Shared, h: seq<Event>)
    requires Placed(s) && RunAll(s, h).Some?
    ensures Placed(RunAll(s, h).value)
    decreases |h|
  {
    hide Happen, Placed;
    if h != [] {
      RunPlaced(s, h[..|h| - 1]);
      HappenPlaced(RunAll(s, h[..|h| - 1]).value, h[|h| - 1]);
    }
  }

  // ---- reference meaning ---------------------------------------------------------------------

  /** What stream id has written for r since it opened it: the entries in order, the last one cut short if
      its write failed. None: nothing is open. */
  function Written(h: seq<Event>, id: nat, r: string): Option<seq<FileEntry>>
    decreases |h|
  {
    if h == [] then None
    else
      var before, last := h[..|h| - 1], h[|h| - 1];
      if last.id != id then Written(before, id, r)
      else
        var was := Written(before, id, r);
        match last
        case Open(_, e) => if e.path == r then Some([]) else was
        case Append(_, e) => if e.path == r && was.Some? then Some(was.value + [e]) else was
        case AppendPart(_, e, part) =>
          if e.path == r && was.Some? then Some(was.value + [e.(content := part)]) else was
        case Rename(_, e) => if e.path == r then None else was
        case Drop(_, q) => if q == r then None else was
        case Stay(_, q, _, _) => if q == r then None else was
        case _ => was
  }

  /** The last thing stream id wrote for r, to a temporary file it still has, was cut short. */
  predicate Cut(h: seq<Event>, id: nat, r: string)
    decreases |h|
  {
    h != [] && (
      var was, last := Cut(h[..|h| - 1], id, r), h[|h| - 1];
      if last.id != id then was
      else match last
        case Open(_, e) => e.path != r && was
        case AppendPart(_, e, _) => e.path == r || was
        case Rename(_, e) => e.path != r && was
        case Drop(_, q) => q != r && was
        case Stay(_, q, _, _) => q != r && was
        case _ => was)
  }

  function BytesOf(w: Option<seq<FileEntry>>): Bytes { if w.Some? then Contents(w.value) else [] }

  /** What a reader should see at k: what was last published there by whichever stream, whole; nothing after
      a deletion; a temporary file under the name it stayed with. */
  function Seen(base: map<string, File>, h: seq<Event>, k: string): Option<File>
    decreases |h|
  {
    if h == [] then Lookup(base, k)
    else
      var before, last := h[..|h| - 1], h[|h| - 1];
      match last
      case Rename(id, e) =>
        if Names(e, k) then Some(File(BytesOf(Written(before, id, e.path)), Perm(e.mode))) else Seen(base, before, k)
      case Unlink(_, e) => if Names(e, k) then None else Seen(base, before, k)
      case Stay(id, r, name, mode) =>
        if name == k then Some(File(BytesOf(Written(before, id, r)), mode)) else Seen(base, before, k)
      case _ => Seen(base, before, k)
  }

  /** The temporary files that stayed and that nothing has published or deleted since. */
  function Strayed(base: set<string>, h: seq<Event>): set<string>
    decreases |h|
  {
    if h == [] then base
    else
      var before, last := Strayed(base, h[..|h| - 1]), h[|h| - 1];
      match last
      case Rename(_, e) => if TargetKey(e.path).Some? then before - {TargetKey(e.path).value} else before
      case Unlink(_, e) => if TargetKey(e.path).Some? then before - {TargetKey(e.path).value} else before
      case Stay(_, _, name, _) => before + {name}
      case _ => before
  }

  /** The entries follow one another from offset zero with one mode. */
  predicate Contiguous(es: seq<FileEntry>) {
    forall i | 0 <= i < |es| && es[i].chunked :: es[i].chunkOffset == |Contents(es[..i])|
  }

  /** The upload of r by stream id is what the stream has written; while the stream is running it expects the
      next offset. */
  ghost predicate KeepsAt(s: Shared, h: seq<Event>, id: nat, r: string) {
    && (Has(s, id, r) <==> Written(h, id, r).Some?)
    && (Cut(h, id, r) ==> Has(s, id, r) && id in s.closing)
    && (Has(s, id, r) ==>
          && s.open[id][r].staged == Contents(Written(h, id, r).value)
          && (id !in s.closing ==> s.open[id][r].next == |s.open[id][r].staged|)
          && Contiguous(Written(h, id, r).value))
  }

  ghost predicate Keeps(s: Shared, h: seq<Event>) {
    forall id, r :: KeepsAt(s, h, id, r)
  }

  lemma {:induction false} ContiguousSnoc(es: seq<FileEntry>, e: FileEntry)
    requires Contiguous(es) && (e.chunked ==> e.chunkOffset == |Contents(es)|)
    ensures Contiguous(es + [e])
  {
    var all := es + [e];
    forall i | 0 <= i < |all| && all[i].chunked ensures all[i].chunkOffset == |Contents(all[..i])| {
      assert all[..i] == es[..i];
      if i == |es| { assert es[..i] == es; }
    }
  }

  lemma {:induction false} NoneContiguous()
    ensures Contents([]) == [] && Contiguous([])
  {}

  /** The operation is not about the upload of r by stream id. */
  ghost predicate Elsewhere(ev: Event, id: nat, r: string) {
    ev.id != id ||
    ((ev.Open? || ev.Append? || ev.AppendPart? || ev.Rename? ==> ev.entry.path != r) &&
     (ev.Drop? || ev.Stay? ==> ev.path != r))
  }

  lemma {:induction false} OtherHistory(h: seq<Event>, ev: Event, id: nat, r: string)
    requires Elsewhere(ev, id, r)
    ensures Written(h + [ev], id, r) == Written(h, id, r) && Cut(h + [ev], id, r) == Cut(h, id, r)
  {
    assert (h + [ev])[..|h|] == h;
  }

  lemma {:induction false} OtherState(s: Shared, ev: Event, id: nat, r: string)
    requires Elsewhere(ev, id, r) && Happen(s, ev).Some?
    ensures var t := Happen(s, ev).value;
      && (Has(t, id, r) <==> Has(s, id, r))
      && (Has(s, id, r) ==> t.open[id][r] == s.open[id][r] && (id in s.closing ==> id in t.closing))
  {
    hide TargetKey, CanMake, CanRemove, AllBusy, Beside, Vacant, Strand, Remove, Publish, Continues;
  }

  /** An upload the operation does not touch. */
  lemma {:induction false} OtherKeeps(s: Shared, h: seq<Event>, ev: Event, id: nat, r: string)
    requires KeepsAt(s, h, id, r) && Happen(s, ev).Some? && Elsewhere(ev, id, r)
    ensures KeepsAt(Happen(s, ev).value, h + [ev], id, r)
  {
    hide Contents, Contiguous, Happen, Written, Cut, Elsewhere;
    OtherHistory(h, ev, id, r);
    OtherState(s, ev, id, r);
  }

  /** The upload the operation is about. */
  lemma {:induction false} OwnKeeps(s: Shared, h: seq<Event>, ev: Event, r: string)
    requires KeepsAt(s, h, ev.id, r) && Happen(s, ev).Some?
    requires ev.Open? || ev.Append? || ev.AppendPart? || ev.Rename? || ev.Drop? || ev.Stay?
    requires ev.Open? || ev.Append? || ev.AppendPart? || ev.Rename? ==> ev.entry.path == r
    requires ev.Drop? || ev.Stay? ==> ev.path == r
    ensures KeepsAt(Happen(s, ev).value, h + [ev], ev.id, r)
  {
    hide TargetKey, CanMake, CanRemove, AllBusy, Beside, Vacant, Strand, Remove, Publish, Contents, Contiguous;
    assert (h + [ev])[..|h|] == h;
    NoneContiguous();
    if ev.Append? {
      ContentsSnoc(Written(h, ev.id, r).value, ev.entry);
      ContiguousSnoc(Written(h, ev.id, r).value, ev.entry);
    } else if ev.AppendPart? {
      ContentsSnoc(Written(h, ev.id, r).value, ev.entry.(content := ev.part));
      ContiguousSnoc(Written(h, ev.id, r).value, ev.entry.(content := ev.part));
    }
  }

  lemma {:induction false} HappenKeeps(s: Shared, h: seq<Event>, ev: Event)
    requires Keeps(s, h) && Happen(s, ev).Some?
    ensures Keeps(Happen(s, ev).value, h + [ev])
  {
    hide KeepsAt, Happen;
    forall id, r ensures KeepsAt(Happen(s, ev).value, h + [ev], id, r) {
      assert KeepsAt(s, h, id, r);
      var named := ev.Open? || ev.Append? || ev.AppendPart? || ev.Rename?;
      if ev.id == id && ((named && ev.entry.path == r) || ((ev.Drop? || ev.Stay?) && ev.path == r)) {
        OwnKeeps(s, h, ev, r);
      } else {
        OtherKeeps(s, h, ev, id, r);
      }
    }
  }

  lemma {:induction false} HappenSeen(s: Shared, base: FS, h: seq<Event>, ev: Event, k: string)
    requires Placed(s) && Keeps(s, h) && Happen(s, ev).Some?
    requires Lookup(s.fs.files, k) == Seen(base.files, h, k) && s.fs.strays == Strayed(base.strays, h)
    ensures Lookup(Happen(s, ev).value.fs.files, k) == Seen(base.files, h + [ev], k)
    ensures Happen(s, ev).value.fs.strays == Strayed(base.strays, h + [ev])
  {
    hide Contents, Contiguous, TargetKey, CanMake, CanRemove, AllBusy, Beside, Vacant, Continues, WellFormed, Rooted,
         Written;
    assert (h + [ev])[..|h|] == h;
    if ev.Rename? {
      assert PlacedAt(s, ev.id, ev.entry.path) && KeepsAt(s, h, ev.id, ev.entry.path);
    } else if ev.Stay? {
      assert KeepsAt(s, h, ev.id, ev.path);
    }
  }

  lemma {:induction false} NothingYet(s: Shared)
    requires s.open == map[]
    ensures Keeps(s, [])
  {}

  /** Upload safety with any number of streams at once: whatever the interleaving of their operations and
      whichever of them fail, the visible files are exactly what was last published or deleted at each path,
      every published one whole, and the temporary files that stayed; and each temporary file in use holds
      exactly what its own stream has written, from offset zero without a gap. */
  lemma {:induction false} ConcurrentHistory(s: Shared, h: seq<Event>)
    requires Placed(s) && s.open == map[] && RunAll(s, h).Some?
    ensures Keeps(RunAll(s, h).value, h)
    ensures forall k :: Lookup(RunAll(s, h).value.fs.files, k) == Seen(s.fs.files, h, k)
    ensures RunAll(s, h).value.fs.strays == Strayed(s.fs.strays, h)
    decreases |h|
  {
    hide Happen, Placed, Keeps;
    if h == [] {
      NothingYet(s);
    } else {
      var before, ev := h[..|h| - 1], h[|h| - 1];
      ConcurrentHistory(s, before);
      RunPlaced(s, before);
      var mid := RunAll(s, before).value;
      assert before + [ev] == h;
      HappenKeeps(mid, before, ev);
      HappenSeen(mid, s.fs, before, ev, "");
      forall k ensures Lookup(RunAll(s, h).value.fs.files, k) == Seen(s.fs.files, h, k) {
        HappenSeen(mid, s.fs, before, ev, k);
      }
    }
  }

  /** What is renamed into place is always whole: the entries its stream wrote, from offset zero without a gap,
      and no write that was cut short. */
  lemma {:induction false} PublishedWhole(s: Shared, h: seq<Event>, i: nat)
    requires Placed(s) && s.open == map[] && RunAll(s, h).Some? && i < |h| && h[i].Rename?
    ensures var id, r := h[i].id, h[i].entry.path;
      && !Cut(h[..i], id, r)
      && Written(h[..i], id, r).Some? && Contiguous(Written(h[..i], id, r).value)
  {
    hide Written, Cut, Contiguous, Placed, TargetKey, Strand, Publish;
    assert h == h[..i] + h[i..] && h[i..] == [h[i]] + h[i + 1..];
    RunAppended(s, h[..i], h[i..]);
    RunAppended(RunAll(s, h[..i]).value, [h[i]], h[i + 1..]);
    OneEvent(RunAll(s, h[..i]).value, h[i]);
    ConcurrentHistory(s, h[..i]);
    hide RunAll;
    assert KeepsAt(RunAll(s, h[..i]).value, h[..i], h[i].id, h[i].entry.path);
  }

  // ---- what a snapshot shows -----------------------------------------------------------------

  /** Upload r of stream id has a temporary file with these bytes. */
  ghost predicate Staged(s: Shared, id: nat, r: string, content: Bytes) {
    Has(s, id, r) && s.open[id][r].staged == content
  }

  /** No stream but id has anything open. */
  ghost predicate OthersIdle(h: seq<Event>, id: nat) {
    forall other, r :: other != id ==> Written(h, other, r).None?
  }

  lemma {:induction false} StagedIff(t: Shared, h: seq<Event>, id: nat, other: nat, r: string, content: Bytes)
    requires KeepsAt(t, h, other, r) && id in t.open && t.open[id] == map[]
    ensures Staged(t, other, r, content) <==>
      other != id && Written(h, other, r).Some? && content == Contents(Written(h, other, r).value)
  {
    hide Contents, Contiguous, Written;
  }

  lemma {:induction false} BusyIff(t: Shared, h: seq<Event>, id: nat)
    requires Keeps(t, h) && id in t.open && t.open[id] == map[]
    ensures AllBusy(t) == {} <==> OthersIdle(h, id)
  {
    hide Contents, Contiguous, Written;
    if AllBusy(t) == {} {
      forall other, r | other != id ensures Written(h, other, r).None? {
        assert KeepsAt(t, h, other, r);
        if Has(t, other, r) { BusyOf(t, other, r); }
      }
    } else {
      var x :| x in AllBusy(t);
      var other, r :| other in t.open && r in t.open[other] && t.open[other][r].target == x;
      assert KeepsAt(t, h, other, r);
    }
  }

  /** A stream takes its snapshot when it has nothing open. The temporary files in use that it freezes are
      exactly those of the other streams, each with what that stream has written; the snapshot is free of
      temporary files exactly if no other stream has one open and none that stayed is left. */
  lemma {:induction false} SnapshotShowsOthers(s: Shared, h: seq<Event>, id: nat)
    requires Placed(s) && s.open == map[] && RunAll(s, h).Some?
    requires id in RunAll(s, h).value.open && RunAll(s, h).value.open[id] == map[]
    ensures var t := RunAll(s, h).value;
      && (forall other, r, content :: Staged(t, other, r, content) <==>
            other != id && Written(h, other, r).Some? && content == Contents(Written(h, other, r).value))
      && (AllBusy(t) == {} && t.fs.strays == {} <==> OthersIdle(h, id) && Strayed(s.fs.strays, h) == {})
  {
    hide RunAll, Placed, Written, Contents, Contiguous, Strayed, KeepsAt, Staged, OthersIdle, AllBusy;
    ConcurrentHistory(s, h);
    var t := RunAll(s, h).value;
    BusyIff(t, h, id);
    forall other, r, content
      ensures Staged(t, other, r, content) <==>
        other != id && Written(h, other, r).Some? && content == Contents(Written(h, other, r).value)
    {
      assert KeepsAt(t, h, other, r);
      StagedIff(t, h, id, other, r, content);
    }
  }

  // ---- building runs -------------------------------------------------------------------------

  lemma {:induction false} OneMore(s: Shared, h: seq<Event>, t: Shared, ev: Event, u: Shared) returns (more: seq<Event>)
    requires RunAll(s, h) == Some(t) && Happen(t, ev) == Some(u)
    ensures more == h + [ev] && RunAll(s, more) == Some(u)
  {
    more := h + [ev];
    assert more[..|h|] == h;
  }

  lemma {:induction false} NothingRun(s: Shared)
    ensures RunAll(s, []) == Some(s)
  {}

  /** The state after one stream has staged one chunk of p. */
  function OneChunk(p: string, x: Bytes, mode: Mode): Shared {
    Shared(MkParents(EMPTY_FS, p), map[1 := map[p := Upload(p, x, |x|, mode)]], {})
  }

  lemma {:induction false} FirstStages(p: string, x: Bytes, mode: Mode) returns (h: seq<Event>)
    requires TargetKey(p) == Some(p)
    ensures RunAll(Shared(EMPTY_FS, map[], {}), h) == Some(OneChunk(p, x, mode))
  {
    hide RunAll, TargetKey;
    var e := FileEntry(p, x, mode, false, true, 0, false);
    var s0 := Shared(EMPTY_FS, map[], {});
    NothingRun(s0);
    var s1 := Shared(EMPTY_FS, map[1 := map[]], {});
    var h1 := OneMore(s0, [], s0, Begin(1), s1);
    AncestorsClosed(p);
    var s2 := Shared(MkParents(EMPTY_FS, p), map[1 := map[]], {});
    var h2 := OneMore(s0, h1, s1, MakeDirs(1, Ancestors(p)), s2);
    var u0, u1 := Upload(p, [], 0, mode), Upload(p, x, |x|, mode);
    var none: map<string, Upload> := map[];
    assert none[p := u0] == map[p := u0] && map[1 := none][1 := map[p := u0]] == map[1 := map[p := u0]];
    var s3 := Shared(MkParents(EMPTY_FS, p), map[1 := map[p := u0]], {});
    var h3 := OneMore(s0, h2, s2, Open(1, e), s3);
    assert [] + x == x;
    assert map[p := u0][p := u1] == map[p := u1] && map[1 := map[p := u0]][1 := map[p := u1]] == map[1 := map[p := u1]];
    h := OneMore(s0, h3, s3, Append(1, e), OneChunk(p, x, mode));
  }

  lemma {:induction false} AncestorsClosed(p: string)
    ensures forall d :: d in Ancestors(p) ==> Ancestors(d) <= Ancestors(p)
  {
    forall d | d in Ancestors(p) ensures Ancestors(d) <= Ancestors(p) {
      forall a | a in Ancestors(d) ensures a in Ancestors(p) { AncestorTransitive(a, d, p); }
    }
  }

  // ---- messages taken whole ------------------------------------------------------------------

  function Own(s: Shared, id: nat): Session { Session(s.fs, if id in s.open then s.open[id] else map[]) }

  lemma {:induction false} RunAppended(s: Shared, a: seq<Event>, b: seq<Event>)
    ensures RunAll(s, a + b) == match RunAll(s, a) { case None => None case Some(t) => RunAll(t, b) }
    decreases |b|
  {
    hide Happen;
    if b == [] {
      assert a + b == a;
    } else {
      assert (a + b)[..|a + b| - 1] == a + b[..|b| - 1];
      RunAppended(s, a, b[..|b| - 1]);
    }
  }

  function Opening(id: nat, e: FileEntry): seq<Event>
    requires TargetKey(e.path).Some?
  {
    [MakeDirs(id, Ancestors(TargetKey(e.path).value)), Open(id, e)]
  }

  /** What the handler does for one accepted entry, as operations on the tree. */
  function OperationsOf(s: Session, id: nat, e: FileEntry): seq<Event> {
    if !e.chunked && e.deleted then [Unlink(id, e)]
    else
      (if e.path in s.open || TargetKey(e.path).None? then []
       else Opening(id, e))
      + [Append(id, e)] + if e.chunked && !e.finalChunk then [] else [Rename(id, e)]
  }

  lemma {:induction false} TwoEvents(s: Shared, a: Event, t: Shared, b: Event, u: Shared)
    requires Happen(s, a) == Some(t) && Happen(t, b) == Some(u)
    ensures RunAll(s, [a, b]) == Some(u)
  {
    hide Happen;
    OneEvent(s, a);
    assert [a, b][..1] == [a] && [a, b][1] == b;
  }

  lemma {:induction false} OneEvent(s: Shared, a: Event)
    ensures RunAll(s, [a]) == Happen(s, a)
  {
    hide Happen;
    assert [a][..0] == [];
  }

  /** Opening: the parents and the temporary file. */
  lemma {:induction false} OpensWhole(s: Shared, id: nat, e: FileEntry)
    requires Running(s, id) && !Has(s, id, e.path) && !e.deleted
    requires TargetKey(e.path).Some? && !ParentIsFile(s.fs, TargetKey(e.path).value)
    ensures var target := TargetKey(e.path).value;
      RunAll(s, [MakeDirs(id, Ancestors(target)), Open(id, e)]) ==
        Some(Set(s, id, e.path, Upload(target, [], 0, e.mode)).(fs := MkParents(s.fs, target)))
  {
    hide TargetKey, RunAll;
    var target := TargetKey(e.path).value;
    AncestorsClosed(target);
    var mid := s.(fs := MkParents(s.fs, target));
    TwoEvents(s, MakeDirs(id, Ancestors(target)), mid, Open(id, e),
              Set(mid, id, e.path, Upload(target, [], 0, e.mode)));
  }

  /** An entry that the stream machine accepts, with no other stream's file in the way of a deletion, is a run
      of those operations one after another, and they lead where the machine does. */
  lemma {:induction false} WholeMessage(s: Shared, id: nat, e: FileEntry)
    requires Placed(s) && Running(s, id) && Step(Own(s, id), e).Ok?
    requires !e.chunked && e.deleted ==> CanRemove(s.fs, AllBusy(s), TargetKey(e.path).value)
    ensures var t := Step(Own(s, id), e).value;
      RunAll(s, OperationsOf(Own(s, id), id, e)) == Some(Shared(t.fs, s.open[id := t.open], s.closing))
  {
    hide TargetKey, CanRemove, AllBusy, Placed, ParentIsFile, Ancestors;
    if !e.chunked && e.deleted {
      DeletesWhole(s, id, e);
    } else {
      StoresWhole(s, id, e);
    }
  }

  lemma {:induction false} DeletesWhole(s: Shared, id: nat, e: FileEntry)
    requires Running(s, id) && Step(Own(s, id), e).Ok? && !e.chunked && e.deleted
    requires CanRemove(s.fs, AllBusy(s), TargetKey(e.path).value)
    ensures var t := Step(Own(s, id), e).value;
      RunAll(s, [Unlink(id, e)]) == Some(Shared(t.fs, s.open[id := t.open], s.closing))
  {
    hide TargetKey, CanRemove, AllBusy, RunAll;
    OneEvent(s, Unlink(id, e));
    assert s.open[id := s.open[id]] == s.open;
  }

  /** The state once the entry has its upload. */
  function Opened(s: Shared, id: nat, e: FileEntry): Shared
    requires id in s.open && (Has(s, id, e.path) || TargetKey(e.path).Some?)
  {
    if Has(s, id, e.path) then s
    else
      var target := TargetKey(e.path).value;
      Set(s, id, e.path, Upload(target, [], 0, e.mode)).(fs := MkParents(s.fs, target))
  }

  lemma {:induction false} OpenedRun(s: Shared, id: nat, e: FileEntry)
    requires Running(s, id) && !e.deleted && (Has(s, id, e.path) || TargetKey(e.path).Some?)
    requires !Has(s, id, e.path) ==> !ParentIsFile(s.fs, TargetKey(e.path).value)
    ensures RunAll(s, if Has(s, id, e.path) then [] else Opening(id, e)) == Some(Opened(s, id, e))
    ensures Running(Opened(s, id, e), id) && Has(Opened(s, id, e), id, e.path)
  {
    hide TargetKey, RunAll, ParentIsFile, MkParents, Ancestors;
    if Has(s, id, e.path) { NothingRun(s); } else { OpensWhole(s, id, e); }
  }

  lemma {:induction false} StoresWhole(s: Shared, id: nat, e: FileEntry)
    requires Placed(s) && Running(s, id) && Step(Own(s, id), e).Ok? && (e.chunked || !e.deleted)
    ensures var t := Step(Own(s, id), e).value;
      RunAll(s, OperationsOf(Own(s, id), id, e)) == Some(Shared(t.fs, s.open[id := t.open], s.closing))
  {
    hide TargetKey, ParentIsFile, Ancestors, RunAll, Happen, Step, OperationsOf, Opened, AllBusy;
    StoredStep(s, id, e);
    OpenedRun(s, id, e);
    var first := if Has(s, id, e.path) then [] else Opening(id, e);
    var mid := Opened(s, id, e);
    var last := if e.chunked && !e.finalChunk then [Append(id, e)] else [Append(id, e), Rename(id, e)];
    OperationsAre(s, id, e, first, last);
    RunAppended(s, first, last);
    AppendsWhole(s, id, e);
  }

  lemma {:induction false} OperationsAre(s: Shared, id: nat, e: FileEntry, first: seq<Event>, last: seq<Event>)
    requires Running(s, id) && (e.chunked || !e.deleted) && (Has(s, id, e.path) || TargetKey(e.path).Some?)
    requires first == if Has(s, id, e.path) then [] else Opening(id, e)
    requires last == if e.chunked && !e.finalChunk then [Append(id, e)] else [Append(id, e), Rename(id, e)]
    ensures OperationsOf(Own(s, id), id, e) == first + last
  {
    hide TargetKey, Ancestors;
  }

  /** What acceptance of an entry that stores something says. */
  lemma {:induction false} StoredStep(s: Shared, id: nat, e: FileEntry)
    requires Placed(s) && Running(s, id) && Step(Own(s, id), e).Ok? && (e.chunked || !e.deleted)
    ensures !e.deleted && (Has(s, id, e.path) || TargetKey(e.path).Some?)
    ensures !Has(s, id, e.path) ==> !ParentIsFile(s.fs, TargetKey(e.path).value)
    ensures var mid := Opened(s, id, e);
      && id in mid.open && e.path in mid.open[id] && Continues(mid.open[id][e.path], e)
      && (!e.chunked || e.finalChunk ==> mid.open[id][e.path].target !in mid.fs.dirs)
  {
    hide TargetKey, ParentIsFile;
    if !e.chunked { NotAncestorOfItself(TargetKey(e.path).value); }
  }

  lemma {:induction false} AppendsWhole(s: Shared, id: nat, e: FileEntry)
    requires Placed(s) && Running(s, id) && Step(Own(s, id), e).Ok? && (e.chunked || !e.deleted)
    ensures Has(s, id, e.path) || TargetKey(e.path).Some?
    ensures var t := Step(Own(s, id), e).value;
      var last := if e.chunked && !e.finalChunk then [Append(id, e)] else [Append(id, e), Rename(id, e)];
      RunAll(Opened(s, id, e), last) == Some(Shared(t.fs, s.open[id := t.open], s.closing))
  {
    hide TargetKey, ParentIsFile, Ancestors, RunAll, AllBusy, Placed, MkParents;
    StoredStep(s, id, e);
    var mid := Opened(s, id, e);
    var u := mid.open[id][e.path];
    var v := u.(staged := u.staged + e.content, next := u.next + |e.content|);
    var longer := Set(mid, id, e.path, v);
    assert Happen(mid, Append(id, e)) == Some(longer);
    SetTwice(s, id, e.path, u, v);
    if e.chunked && !e.finalChunk {
      OneEvent(mid, Append(id, e));
    } else {
      var done := Happen(longer, Rename(id, e)).value;
      TwoEvents(mid, Append(id, e), longer, Rename(id, e), done);
      assert [] + e.content == e.content;
    }
  }

  lemma {:induction false} SetTwice(s: Shared, id: nat, r: string, u: Upload, v: Upload)
    requires id in s.open
    ensures s.open[id][r := u][r := v] == s.open[id][r := v]
    ensures s.open[id := s.open[id][r := u]][id := s.open[id][r := v]] == s.open[id := s.open[id][r := v]]
    ensures s.open[id][r := v] - {r} == s.open[id] - {r}
    ensures r !in s.open[id] ==> s.open[id] - {r} == s.open[id]
    ensures s.open[id := s.open[id][r := v]][id := s.open[id] - {r}] == s.open[id := s.open[id] - {r}]
  {}

  lemma {:induction false} SessionPlaced(s: Session, id: nat)
    requires Valid(s)
    ensures Placed(Shared(s.fs, map[id := s.open], {})) && AllBusy(Shared(s.fs, map[id := s.open], {})) == Busy(s.open)
  {
    hide TargetKey, WellFormed, Rooted;
    var shared := Shared(s.fs, map[id := s.open], {});
    forall i, r ensures PlacedAt(shared, i, r) {}
    forall r | r in s.open ensures s.open[r].target in AllBusy(shared) { BusyOf(shared, id, r); }
  }

  /** One entry of the only stream. */
  lemma {:induction false} SingleMessage(t: Session, id: nat, e: FileEntry)
    requires Valid(t) && Step(t, e).Ok?
    ensures RunAll(Shared(t.fs, map[id := t.open], {}), OperationsOf(t, id, e)) ==
      Some(Shared(Step(t, e).value.fs, map[id := Step(t, e).value.open], {}))
  {
    hide *;
    var s := Shared(t.fs, map[id := t.open], {});
    SessionPlaced(t, id);
    OnlyOne(s, t, id, Step(t, e).value.open);
    if !e.chunked && e.deleted { DeleteAccepted(t, e); }
    WholeMessage(s, id, e);
  }

  lemma {:induction false} OnlyOne(s: Shared, t: Session, id: nat, open: map<string, Upload>)
    requires s == Shared(t.fs, map[id := t.open], {})
    ensures Running(s, id) && Own(s, id) == t && s.open[id := open] == map[id := open] && s.closing == {}
  {}

  lemma {:induction false} DeleteAccepted(t: Session, e: FileEntry)
    requires Step(t, e).Ok? && !e.chunked && e.deleted
    ensures TargetKey(e.path).Some? && CanRemove(t.fs, Busy(t.open), TargetKey(e.path).value)
  {
    hide TargetKey, CanRemove, Busy;
  }

  /** What a single stream does in the stream machine it can do here, operation by operation. */
  lemma {:induction false} SingleStream(fs: FS, id: nat, es: seq<FileEntry>) returns (h: seq<Event>)
    requires WellFormed(fs) && Run(Session(fs, map[]), es).Ok?
    ensures var t := Run(Session(fs, map[]), es).value;
      RunAll(Shared(fs, map[], {}), h) == Some(Shared(t.fs, map[id := t.open], {}))
    decreases |es|
  {
    var s0 := Shared(fs, map[], {});
    if es == [] {
      h := [Begin(id)];
      OneEvent(s0, Begin(id));
    } else {
      FreshSession(fs);
      hide Step, RunAll, OperationsOf, Valid;
      var before, e := es[..|es| - 1], es[|es| - 1];
      var first := SingleStream(fs, id, before);
      RunValid(Session(fs, map[]), before);
      var t := Run(Session(fs, map[]), before).value;
      SingleMessage(t, id, e);
      h := first + OperationsOf(t, id, e);
      RunAppended(s0, first, OperationsOf(t, id, e));
    }
  }

  lemma {:induction false} FreshSession(fs: FS)
    requires WellFormed(fs)
    ensures Valid(Session(fs, map[]))
  {}

  // ---- it happens ----------------------------------------------------------------------------

  /** Another stream stores q whole while the first has a chunk of p staged. */
  lemma {:induction false} SecondStores(p: string, x: Bytes, q: string, y: Bytes, mode: Mode) returns (h: seq<Event>)
    requires TargetKey(p) == Some(p) && TargetKey(q) == Some(q) && q !in Ancestors(p)
    ensures var fs := Put(MkParents(EMPTY_FS, p), q, File(y, Perm(mode)));
      RunAll(Shared(EMPTY_FS, map[], {}), h) == Some(Shared(fs, OneChunk(p, x, mode).open[2 := map[]], {}))
  {
    var s0, s := Shared(EMPTY_FS, map[], {}), OneChunk(p, x, mode);
    var first := FirstStages(p, x, mode);
    EmptyPlaced();
    hide RunAll, TargetKey, MkParents, Placed;
    var t := Shared(s.fs, s.open[2 := map[]], {});
    var begun := OneMore(s0, first, s, Begin(2), t);
    RunPlaced(s0, begun);
    var e := FileEntry(q, y, mode, false, false, 0, false);
    ParentsOnly(p, q);
    assert Step(Own(t, 2), e) == Ok(Session(Put(t.fs, q, File(y, Perm(mode))), map[]));
    WholeMessage(t, 2, e);
    h := begun + OperationsOf(Own(t, 2), 2, e);
    RunAppended(s0, begun, OperationsOf(Own(t, 2), 2, e));
    assert t.open[2 := map[]] == t.open;
  }

  lemma {:induction false} EmptyPlaced()
    ensures Placed(Shared(EMPTY_FS, map[], {}))
  {}

  lemma {:induction false} ParentsOnly(p: string, q: string)
    requires q !in Ancestors(p)
    ensures var fs := MkParents(EMPTY_FS, p); !ParentIsFile(fs, q) && q !in fs.dirs
  {}

  /** So it happens: the second stream has nothing open and takes its snapshot, which freezes the unfinished
      file of the first. */
  lemma {:induction false} FrozenStaging(p: string, x: Bytes, q: string, y: Bytes, mode: Mode) returns (h: seq<Event>)
    requires TargetKey(p) == Some(p) && TargetKey(q) == Some(q) && q !in Ancestors(p)
    ensures var r := RunAll(Shared(EMPTY_FS, map[], {}), h);
      && r.Some? && 2 in r.value.open && r.value.open[2] == map[]
      && Lookup(r.value.fs.files, q) == Some(File(y, Perm(mode)))
      && Staged(r.value, 1, p, x) && AllBusy(r.value) != {}
  {
    hide RunAll, TargetKey, MkParents;
    h := SecondStores(p, x, q, y, mode);
    BusyOf(RunAll(Shared(EMPTY_FS, map[], {}), h).value, 1, p);
  }
}
