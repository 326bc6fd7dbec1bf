/** A mounted dataset as a tree of regular files and directories, addressed by clean paths
    relative to the mount point. Directories are kept because the operations the server uses
    (create parents, rename a temporary file into place, remove) fail on them. */
module FileSystem {
  import opened Model
  import opened Paths

  /** `strays` says which of the files are temporary files whose removal failed. They are files like any
      other; the tag only remembers where they came from. */
  datatype FS = FS(files: map<string, File>, dirs: set<string>, strays: set<string>)

  const EMPTY_FS: FS := FS(map[], {}, {})

  /** `a` is a proper ancestor directory of `p`. */
  predicate Ancestor(a: string, p: string) {
    |a| < |p| && p[|a|] == '/' && p[..|a|] == a
  }

  function Ancestors(p: string): (s: set<string>)
    ensures forall a :: a in s <==> Ancestor(a, p)
  {
    var s := set i | 0 <= i < |p| && p[i] == '/' :: p[..i];
    assert forall a :: Ancestor(a, p) ==> a == p[..|a|] && p[|a|] == '/';
    s
  }

  lemma {:induction false} AncestorTransitive(a: string, b: string, c: string)
    requires Ancestor(a, b) && Ancestor(b, c)
    ensures Ancestor(a, c)
  {
    assert c[..|b|][..|a|] == c[..|a|];
    assert b == c[..|b|];
  }

  ghost predicate Rooted(dirs: set<string>, p: string) {
    forall a :: Ancestor(a, p) ==> a in dirs
  }

  ghost predicate WellFormed(fs: FS) {
    && fs.files.Keys !! fs.dirs && fs.strays <= fs.files.Keys
    && (forall p :: p in fs.files ==> Rooted(fs.dirs, p))
    && (forall p :: p in fs.dirs ==> Rooted(fs.dirs, p))
  }

  lemma {:induction false} NotAncestorOfItself(p: string)
    ensures p !in Ancestors(p)
  {}

  /** os.MkdirAll(filepath.Dir(p)) fails when a parent is a regular file. */
  predicate ParentIsFile(fs: FS, p: string) {
    exists a | a in Ancestors(p) :: a in fs.files
  }

  function MkParents(fs: FS, p: string): FS {
    fs.(dirs := fs.dirs + Ancestors(p))
  }

  /** Parents can be made, and the final rename does not land on a directory. */
  predicate CanPut(fs: FS, p: string) {
    !ParentIsFile(fs, p) && p !in fs.dirs
  }

  /** A rename onto p. What was there, a stray included, is replaced. */
  function Publish(fs: FS, p: string, f: File): FS {
    fs.(files := fs.files[p := f], strays := fs.strays - {p})
  }

  function Put(fs: FS, p: string, f: File): FS { Publish(MkParents(fs, p), p, f) }

  /** `busy` are the targets of open staging files; each sits in the directory of its target. */
  predicate IsEmptyDir(fs: FS, busy: set<string>, p: string) {
    && (forall q | q in fs.files :: !Ancestor(p, q))
    && (forall q | q in fs.dirs :: !Ancestor(p, q))
    && (forall q | q in busy :: !Ancestor(p, q))
  }

  /** os.Remove with "does not exist" ignored: files and empty directories go, a non-empty
      directory or a path through a regular file is an error. */
  predicate CanRemove(fs: FS, busy: set<string>, p: string) {
    p in fs.files || (if p in fs.dirs then IsEmptyDir(fs, busy, p) else !ParentIsFile(fs, p))
  }

  function Remove(fs: FS, p: string): FS {
    FS(fs.files - {p}, fs.dirs - {p}, fs.strays - {p})
  }

  lemma {:induction false} MkParentsWellFormed(fs: FS, p: string)
    requires WellFormed(fs) && !ParentIsFile(fs, p)
    ensures WellFormed(MkParents(fs, p))
    ensures Rooted(MkParents(fs, p).dirs, p)
  {
    var out := MkParents(fs, p);
    forall q | q in out.dirs ensures Rooted(out.dirs, q) {
      forall a | Ancestor(a, q) ensures a in out.dirs {
        if q in Ancestors(p) { AncestorTransitive(a, q, p); }
      }
    }
  }

  lemma {:induction false} PutWellFormed(fs: FS, p: string, f: File)
    requires WellFormed(fs) && CanPut(fs, p)
    ensures WellFormed(Put(fs, p, f))
  {
    MkParentsWellFormed(fs, p);
    assert !Ancestor(p, p);
  }

  lemma {:induction false} RemoveWellFormed(fs: FS, busy: set<string>, p: string)
    requires WellFormed(fs) && CanRemove(fs, busy, p)
    ensures WellFormed(Remove(fs, p))
    ensures forall q :: q in busy && Rooted(fs.dirs, q) ==> Rooted(Remove(fs, p).dirs, q)
  {}

  /** A file can be put exactly where the tree with it is a tree again. */
  lemma {:induction false} CanPutIff(fs: FS, p: string, f: File)
    requires WellFormed(fs)
    ensures CanPut(fs, p) <==> WellFormed(Put(fs, p, f))
  {
    if CanPut(fs, p) {
      PutWellFormed(fs, p, f);
    } else {
      var put := Put(fs, p, f);
      var a :| (a == p && p in fs.dirs) || (a in Ancestors(p) && a in fs.files);
      assert a in put.files.Keys && a in put.dirs;
    }
  }

  /** What is there can be removed exactly if the tree without it is a tree again and nothing in use is left
      without its directory; what is not there is removed already, unless a file is above it. */
  lemma {:induction false} CanRemoveIff(fs: FS, busy: set<string>, p: string)
    requires WellFormed(fs) && forall q :: q in busy ==> Rooted(fs.dirs, q)
    ensures p in fs.files || p in fs.dirs ==>
      (CanRemove(fs, busy, p) <==>
         WellFormed(Remove(fs, p)) && forall q :: q in busy ==> Rooted(Remove(fs, p).dirs, q))
    ensures p !in fs.files && p !in fs.dirs ==>
      Remove(fs, p) == fs && (CanRemove(fs, busy, p) <==> forall a :: Ancestor(a, p) ==> a !in fs.files)
  {
    if p in fs.files || p in fs.dirs {
      var out := Remove(fs, p);
      if CanRemove(fs, busy, p) {
        RemoveWellFormed(fs, busy, p);
      } else {
        var q :| Ancestor(p, q) && (q in fs.files || q in fs.dirs || q in busy);
        assert !Rooted(out.dirs, q) && q != p;
      }
    } else {
      assert fs.strays <= fs.files.Keys;
      assert forall a :: a in Ancestors(p) <==> Ancestor(a, p);
      assert Remove(fs, p) == fs by {
        assert fs.files - {p} == fs.files && fs.dirs - {p} == fs.dirs && fs.strays - {p} == fs.strays;
      }
    }
  }

  // ---- what a failed operation leaves behind -------------------------------------------------

  /** Some of the parents of p were made, and nothing else happened. */
  ghost predicate MadeFor(before: FS, after: FS, p: string) {
    && after.files == before.files && after.strays == before.strays
    && before.dirs <= after.dirs <= before.dirs + Ancestors(p)
    && WellFormed(after)
  }

  /** The state of making the parents of p: those before position n are there. */
  ghost predicate Made(before: FS, fs: FS, p: string, n: nat) {
    MadeFor(before, fs, p) && n <= |p| && forall i :: 0 <= i < n && p[i] == '/' ==> p[..i] in fs.dirs
  }

  lemma {:induction false} MadeStart(fs: FS, p: string)
    requires WellFormed(fs)
    ensures Made(fs, fs, p, 0)
  {}

  lemma {:induction false} MadeOne(before: FS, fs: FS, p: string, n: nat)
    requires Made(before, fs, p, n) && n < |p| && p[n] == '/' && !ParentIsFile(before, p)
    ensures Made(before, fs.(dirs := fs.dirs + {p[..n]}), p, n + 1)
  {
    var d := p[..n];
    assert Ancestor(d, p) && d in Ancestors(p);
    forall a | Ancestor(a, d) ensures a in fs.dirs { assert p[..|a|] == a && p[|a|] == '/'; }
  }

  lemma {:induction false} MadeSame(before: FS, fs: FS, p: string, n: nat)
    requires Made(before, fs, p, n) && n < |p| && (p[n] == '/' ==> p[..n] in fs.dirs)
    ensures Made(before, fs, p, n + 1)
  {}

  lemma {:induction false} MadeIs(before: FS, fs: FS, p: string, n: nat)
    requires Made(before, fs, p, n)
    ensures MadeFor(before, fs, p) && WellFormed(fs)
  {}

  lemma {:induction false} MadeAll(before: FS, fs: FS, p: string)
    requires Made(before, fs, p, |p|)
    ensures fs == MkParents(before, p)
  {
    forall a | a in Ancestors(p) ensures a in fs.dirs { assert Ancestor(a, p) && p[..|a|] == a; }
  }

  /** A name in the same directory as p. */
  predicate Beside(name: string, p: string) { IsArchivePath(name) && Ancestors(name) == Ancestors(p) }

  /** A name os.CreateTemp may pick. */
  predicate Vacant(fs: FS, name: string) { name !in fs.files && name !in fs.dirs }

  /** A temporary file that could not be removed is from then on a file of the dataset. */
  function Strand(fs: FS, name: string, f: File): FS {
    fs.(files := fs.files[name := f], strays := fs.strays + {name})
  }

  lemma {:induction false} StrandWellFormed(fs: FS, p: string, name: string, f: File)
    requires WellFormed(fs) && Rooted(fs.dirs, p) && Beside(name, p) && Vacant(fs, name)
    ensures WellFormed(Strand(fs, name, f))
  {
    hide IsArchivePath;
    assert forall a :: Ancestor(a, name) ==> a in Ancestors(name);
    assert forall a :: a in Ancestors(p) ==> Ancestor(a, p);
  }

  /** The files that are in the second tree only. */
  function NewFiles(before: FS, after: FS): map<string, File> {
    map p | p in after.files && p !in before.files :: after.files[p]
  }

  /** Every file is as it was, and whatever is new is a stray. */
  ghost predicate Littered(before: FS, after: FS) {
    && (forall p :: p in before.files ==> p in after.files && after.files[p] == before.files[p])
    && after.strays == before.strays + NewFiles(before, after).Keys
  }

  lemma {:induction false} LitteredFiles(before: FS, after: FS)
    requires Littered(before, after)
    ensures after.files == before.files + NewFiles(before, after)
    ensures before.files.Keys !! NewFiles(before, after).Keys
  {}

  /** What a whole-file write that failed may leave: some parents of p, and its temporary file. */
  ghost predicate Attempted(before: FS, after: FS, p: string, content: Bytes) {
    && WellFormed(after)
    && before.dirs <= after.dirs <= before.dirs + Ancestors(p)
    && Littered(before, after)
    && forall q :: q in NewFiles(before, after) ==> Beside(q, p) && NewFiles(before, after)[q].content <= content
  }

  lemma {:induction false} MadeIsAttempted(before: FS, after: FS, p: string, content: Bytes)
    requires MadeFor(before, after, p)
    ensures Attempted(before, after, p, content) && NewFiles(before, after) == map[]
  {}

  lemma {:induction false} StrandIsAttempted(before: FS, mid: FS, p: string, name: string, f: File, content: Bytes)
    requires MadeFor(before, mid, p) && Rooted(mid.dirs, p) && Beside(name, p) && Vacant(mid, name)
    requires f.content <= content
    ensures Attempted(before, Strand(mid, name, f), p, content)
    ensures name in NewFiles(before, Strand(mid, name, f))
  {
    hide Beside;
    BesideIs(name, p);
    StrandWellFormed(mid, p, name, f);
    assert NewFiles(before, Strand(mid, name, f)) == map[name := f];
  }

  lemma {:induction false} BesideIs(name: string, p: string)
    requires Beside(name, p)
    ensures IsArchivePath(name) && Ancestors(name) == Ancestors(p)
  {}

  /** Names for temporary files can always be found: one longer than every path there is. */
  lemma {:induction false} LengthBound(paths: set<string>) returns (n: nat)
    ensures forall p :: p in paths ==> |p| <= n
    decreases |paths|
  {
    if paths == {} {
      n := 0;
    } else {
      var p :| p in paths;
      var m := LengthBound(paths - {p});
      n := m + |p|;
    }
  }

  lemma {:induction false} SameDirectory(dir: string, x: string, y: string)
    requires NoSep(x) && NoSep(y)
    ensures Ancestors(dir + x) == Ancestors(dir + y)
  {
    forall a | Ancestor(a, dir + x) ensures Ancestor(a, dir + y) { StaysInDirectory(dir, x, y, a); }
    forall a | Ancestor(a, dir + y) ensures Ancestor(a, dir + x) { StaysInDirectory(dir, y, x, a); }
  }

  lemma {:induction false} StaysInDirectory(dir: string, x: string, y: string, a: string)
    requires NoSep(x) && Ancestor(a, dir + x)
    ensures Ancestor(a, dir + y)
  {
    assert forall i :: |dir| <= i < |dir + x| ==> (dir + x)[i] == x[i - |dir|];
    assert (dir + x)[..|a|] == dir[..|a|] == (dir + y)[..|a|];
  }

  function Zeros(n: nat): (s: string)
    ensures |s| == n && NoSep(s)
  {
    seq(n, _ => '0')
  }

  /** The directory part of a component list, with its closing separator. */
  function DirPart(cs: seq<string>): string
    requires cs != []
  {
    if |cs| == 1 then "" else Join(cs[..|cs| - 1]) + "/"
  }

  lemma {:induction false} JoinDir(cs: seq<string>, base: string)
    requires cs != []
    ensures Join(cs[..|cs| - 1] + [base]) == DirPart(cs) + base
  {
    if |cs| > 1 {
      JoinAppend(cs[..|cs| - 1], [base]);
    } else {
      assert cs[..|cs| - 1] + [base] == [base];
    }
  }

  /** There is always a free name beside a path. */
  lemma {:induction false} VacantExists(fs: FS, p: string) returns (name: string)
    requires IsArchivePath(p)
    ensures Beside(name, p) && Vacant(fs, name)
  {
    hide IsArchivePath, Ancestors, Components;
    ArchiveComponents(p);
    var cs := Components(p);
    var n := LengthBound(fs.files.Keys + fs.dirs);
    var base := "x" + Zeros(n);
    var names := cs[..|cs| - 1] + [base];
    name := Join(names);
    assert base[0] == 'x';
    ArchiveFromComponents(names);
    JoinDir(cs, base);
    JoinDir(cs, cs[|cs| - 1]);
    assert cs[..|cs| - 1] + [cs[|cs| - 1]] == cs;
    SameDirectory(DirPart(cs), base, cs[|cs| - 1]);
    assert |name| > n;
    assert name !in fs.files.Keys + fs.dirs;
  }

  /** No path of the set is an ancestor of another: what the files of a directory tree satisfy. */
  ghost predicate PrefixFree(paths: set<string>) {
    forall p, q :: p in paths && q in paths ==> !Ancestor(p, q)
  }

  lemma {:induction false} WellFormedPrefixFree(fs: FS)
    requires WellFormed(fs)
    ensures PrefixFree(fs.files.Keys)
  {}
}
