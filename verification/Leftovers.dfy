/** What a stream that did not end well leaves on a dataset besides the entries that were accepted:
    some parents of the entry it failed in, and temporary files whose removal failed. */
module Leftovers {
  import opened Model
  import opened Namespacing
  import opened FileSystem
  import opened StreamMachine

  // ---- one session, stopped and cleaned up ---------------------------------------------------

  /** The first `accepted` entries were accepted, and the next one may have failed half way. */
  ghost predicate StoppedIn(s: Session, es: seq<FileEntry>, accepted: nat, t: Session) {
    && accepted <= |es| && Run(s, es[..accepted]).Ok?
    && var base := Run(s, es[..accepted]).value;
       t == base || (accepted < |es| && Interrupted(base, es[accepted], t))
  }

  /** The uploads in `left` could not be removed: each became a file beside its target, holding exactly
      what it had staged. Nothing else changed. */
  ghost predicate LeftOver(s: Session, left: map<string, string>, fs: FS) {
    && WellFormed(fs) && fs.dirs == s.fs.dirs && Littered(s.fs, fs)
    && left.Keys <= s.open.Keys
    && (forall r :: r in left ==>
          && Beside(left[r], s.open[r].target)
          && left[r] in NewFiles(s.fs, fs) && NewFiles(s.fs, fs)[left[r]].content == s.open[r].staged)
    && NewFiles(s.fs, fs).Keys == left.Values
    && (forall q, r :: q in left && r in left && q != r ==> left[q] != left[r])
  }

  lemma {:induction false} NoneLeft(s: Session)
    requires WellFormed(s.fs)
    ensures LeftOver(s, map[], s.fs)
  {
    hide Beside;
    assert NewFiles(s.fs, s.fs) == map[];
  }

  lemma {:induction false} ValuesMore(left: map<string, string>, r: string, name: string)
    requires r !in left
    ensures left[r := name].Values == left.Values + {name}
  {
    var more := left[r := name];
    forall v | v in left.Values + {name} ensures v in more.Values {
      if v == name {
        assert more[r] == v;
      } else {
        var t :| t in left && left[t] == v;
        assert more[t] == v;
      }
    }
  }

  lemma {:induction false} StrandedFiles(a: FS, b: FS, name: string, f: File)
    requires Littered(a, b) && name !in b.files
    ensures Littered(a, Strand(b, name, f)) && NewFiles(a, Strand(b, name, f)) == NewFiles(a, b)[name := f]
  {
    assert name !in a.files;
  }

  lemma {:induction false} NewAreFiles(a: FS, b: FS)
    ensures NewFiles(a, b).Keys <= b.files.Keys
  {}

  /** One more upload given up. */
  lemma {:induction false} OneMoreLeft(s: Session, left: map<string, string>, fs: FS, r: string, name: string, f: File)
    requires LeftOver(s, left, fs) && r in s.open && r !in left
    requires Rooted(fs.dirs, s.open[r].target) && Beside(name, s.open[r].target) && Vacant(fs, name)
    requires f.content == s.open[r].staged
    ensures LeftOver(s, left[r := name], Strand(fs, name, f))
  {
    hide Beside, WellFormed, Littered, NewFiles, Rooted;
    StrandWellFormed(fs, s.open[r].target, name, f);
    StrandedFiles(s.fs, fs, name, f);
    NewAreFiles(s.fs, fs);
    ValuesMore(left, r, name);
    assert name !in NewFiles(s.fs, fs).Keys;
    forall q | q in left ensures left[q] != name { assert left[q] in left.Values; }
  }

  // ---- the tree in the end -------------------------------------------------------------------

  /** The entry after the accepted ones, if there is one. */
  function NextEntry(es: seq<FileEntry>, accepted: nat): Option<FileEntry> {
    if accepted < |es| then Some(es[accepted]) else None
  }

  /** The entry after the accepted ones stores something at path r. */
  predicate Stores(next: Option<FileEntry>, r: string) {
    next.Some? && next.value.path == r && !next.value.deleted
  }

  /** What it can have added there. */
  function MoreOf(next: Option<FileEntry>, r: string): Bytes {
    if Stores(next, r) then next.value.content else []
  }

  /** A temporary file of raw path r: beside its target, with what was staged of it, at most the bytes
      of the entry that failed added, or with some of those alone. */
  ghost predicate RemnantOf(base: Session, next: Option<FileEntry>, r: string, name: string, f: File) {
    && TargetKey(r).Some? && Beside(name, TargetKey(r).value)
    && (r in base.open || Stores(next, r))
    && (f.content <= StagedOf(base, r) + MoreOf(next, r) || f.content <= MoreOf(next, r))
  }

  ghost predicate Remnant(base: Session, next: Option<FileEntry>, name: string, f: File) {
    exists r :: RemnantOf(base, next, r, name, f)
  }

  /** The tree after a stream: that of the accepted entries, some parents of the next one, and
      remnants. */
  ghost predicate Residue(base: Session, next: Option<FileEntry>, fs: FS) {
    && WellFormed(fs) && base.fs.dirs <= fs.dirs && Littered(base.fs, fs)
    && (next.None? || next.value.deleted || TargetKey(next.value.path).None? ==> fs.dirs == base.fs.dirs)
    && (next.Some? && TargetKey(next.value.path).Some? ==>
          fs.dirs <= base.fs.dirs + Ancestors(TargetKey(next.value.path).value))
    && forall q :: q in NewFiles(base.fs, fs) ==> Remnant(base, next, q, NewFiles(base.fs, fs)[q])
  }

  lemma {:induction false} NewFilesJoin(a: FS, b: FS, c: FS)
    requires Littered(a, b) && Littered(b, c)
    ensures Littered(a, c) && NewFiles(a, c) == NewFiles(a, b) + NewFiles(b, c)
  {}

  /** What an upload that could not be removed left is a remnant. */
  lemma {:induction false} LeftIsRemnant(base: Session, es: seq<FileEntry>, accepted: nat, t: Session, r: string,
                                         name: string, f: File)
    requires Valid(base) && accepted <= |es|
    requires t == base || (accepted < |es| && Interrupted(base, es[accepted], t))
    requires r in t.open && Beside(name, t.open[r].target) && f.content == t.open[r].staged
    ensures Remnant(base, NextEntry(es, accepted), name, f)
  {
    hide Beside, TargetKey, WellFormed, Littered;
    var next := NextEntry(es, accepted);
    if t != base && r != es[accepted].path { assert Lookup(t.open, r) == Lookup(base.open, r); }
    assert RemnantOf(base, next, r, name, f);
  }

  lemma {:induction false} NothingNewIn(fs: FS)
    ensures NewFiles(fs, fs) == map[]
  {}

  lemma {:induction false} PlainIsRemnant(base: Session, es: seq<FileEntry>, accepted: nat, t: Session, q: string)
    requires accepted < |es| && Interrupted(base, es[accepted], t) && q in NewFiles(base.fs, t.fs)
    ensures Remnant(base, NextEntry(es, accepted), q, NewFiles(base.fs, t.fs)[q])
  {
    hide Beside, TargetKey, WellFormed;
    var e := es[accepted];
    NothingNewIn(base.fs);
    assert !e.deleted && TargetKey(e.path).Some?;
    assert RemnantOf(base, NextEntry(es, accepted), e.path, q, NewFiles(base.fs, t.fs)[q]);
  }

  lemma {:induction false} InterruptedTree(base: Session, e: FileEntry, t: Session)
    requires Interrupted(base, e, t)
    ensures Littered(base.fs, t.fs) && base.fs.dirs <= t.fs.dirs
    ensures TargetKey(e.path).None? || e.deleted ==> t.fs.dirs == base.fs.dirs
    ensures TargetKey(e.path).Some? ==> t.fs.dirs <= base.fs.dirs + Ancestors(TargetKey(e.path).value)
  {}

  lemma {:induction false} SameTree(fs: FS)
    ensures Littered(fs, fs) && NewFiles(fs, fs) == map[]
  {}

  /** However a stream stops: after the clean-up its tree is that of the accepted entries with the
      residue of one entry and of the uploads that were given up. */
  lemma {:induction false} StoppedResidue(s: Session, es: seq<FileEntry>, accepted: nat, t: Session,
                                          left: map<string, string>, fs: FS)
    requires Valid(s) && StoppedIn(s, es, accepted, t) && LeftOver(t, left, fs)
    ensures Residue(Run(s, es[..accepted]).value, NextEntry(es, accepted), fs)
    ensures var base := Run(s, es[..accepted]).value;
      NewFiles(base.fs, fs) == map[] <==> NewFiles(base.fs, t.fs) == map[] && left == map[]
  {
    hide Run, Beside, TargetKey, WellFormed, Littered, NewFiles, Interrupted, Remnant, Valid;
    var base := Run(s, es[..accepted]).value;
    RunValid(s, es[..accepted]);
    SameTree(base.fs);
    if t != base { InterruptedTree(base, es[accepted], t); }
    NewFilesJoin(base.fs, t.fs, fs);
    var next := NextEntry(es, accepted);
    forall q | q in NewFiles(base.fs, fs) ensures Remnant(base, next, q, NewFiles(base.fs, fs)[q]) {
      if q in NewFiles(t.fs, fs) {
        assert q in left.Values;
        var r :| r in left && left[r] == q;
        LeftIsRemnant(base, es, accepted, t, r, q, NewFiles(base.fs, fs)[q]);
      } else {
        PlainIsRemnant(base, es, accepted, t, q);
      }
    }
    if left != map[] {
      var r :| r in left;
      assert left[r] in NewFiles(base.fs, fs);
    } else {
      assert left.Values == {};
      assert NewFiles(t.fs, fs) == map[];
    }
  }

  lemma {:induction false} NothingLeft(s: Session, fs: FS)
    requires LeftOver(s, map[], fs)
    ensures fs == s.fs
  {
    hide Beside, WellFormed;
    LitteredFiles(s.fs, fs);
    assert NewFiles(s.fs, fs).Keys == {};
    assert NewFiles(s.fs, fs) == map[];
  }
}
