/** When a difference can be stored at all: the exact conditions under which the server's tree lets
    every change through, on a first attempt and on a retry after a partial one. */
module TreeConflicts {
  import opened Model
  import opened FileSystem
  import opened Wire

  ghost predicate DistinctChanges(cs: seq<Change>) {
    forall i, j :: 0 <= i < j < |cs| ==> cs[i].path != cs[j].path
  }

  ghost predicate GoneAt(cs: seq<Change>, m: nat, p: string)
    requires m <= |cs|
  {
    exists i :: 0 <= i < m && cs[i].body.Gone? && cs[i].path == p
  }

  /** A difference as it meets a tree: first the paths that were stored before (removed, or stored
      again where they still are), then the new ones. Stored paths were files of one tree together,
      so none of them is inside another, and the same holds for the new ones. */
  ghost predicate Shape(fs: FS, cs: seq<Change>, m: nat) {
    && m <= |cs| && DistinctChanges(cs)
    && (forall i :: 0 <= i < m && !cs[i].body.Gone? ==> cs[i].path in fs.files)
    && (forall i :: 0 <= i < m ==> Rooted(fs.dirs, cs[i].path))
    && (forall i, j :: 0 <= i < m && 0 <= j < m ==> !Ancestor(cs[i].path, cs[j].path))
    && (forall i :: m <= i < |cs| ==> !cs[i].body.Gone?)
    && (forall i, j :: m <= i < |cs| && m <= j < |cs| ==> !Ancestor(cs[i].path, cs[j].path))
  }

  /** A path to be removed is not a directory that holds anything. */
  ghost predicate Removable(fs: FS, p: string) {
    p !in fs.dirs || IsEmptyDir(fs, {}, p)
  }

  /** A new path is not a directory, and no file stands where one of its parent directories must be,
      except one that the same difference removes. */
  ghost predicate Addable(fs: FS, cs: seq<Change>, m: nat, p: string)
    requires m <= |cs|
  {
    p !in fs.dirs && forall a :: Ancestor(a, p) && a in fs.files ==> GoneAt(cs, m, a)
  }

  ghost predicate Fits(fs: FS, cs: seq<Change>, m: nat, n: nat)
    requires m <= |cs| && n <= |cs|
  {
    && (forall i :: 0 <= i < n && i < m && cs[i].body.Gone? ==> Removable(fs, cs[i].path))
    && (forall i :: m <= i < n ==> Addable(fs, cs, m, cs[i].path))
  }

  /** The tree after the first n changes. */
  ghost predicate Reaches(fs: FS, cs: seq<Change>, m: nat, n: nat, g: FS)
    requires m <= |cs| && n <= |cs|
  {
    && WellFormed(g)
    && (forall p :: p in g.files <==> StillFile(fs, cs, n, p))
    && (forall d :: d in g.dirs ==> d in fs.dirs || exists i :: m <= i < n && Ancestor(d, cs[i].path))
    && (forall d :: d in fs.dirs && d !in g.dirs ==> GoneAt(cs, if n < m then n else m, d))
  }

  /** p is a file after the first n changes: stored by one of them, or there before and not removed. */
  ghost predicate StillFile(fs: FS, cs: seq<Change>, n: nat, p: string)
    requires n <= |cs|
  {
    || (exists i :: 0 <= i < n && cs[i].path == p && !cs[i].body.Gone?)
    || (p in fs.files && forall i :: 0 <= i < n ==> cs[i].path != p)
  }

  lemma {:induction false} StillFileStep(fs: FS, cs: seq<Change>, n: nat, p: string)
    requires n < |cs| && DistinctChanges(cs)
    ensures StillFile(fs, cs, n + 1, p) <==> if cs[n].path == p then !cs[n].body.Gone? else StillFile(fs, cs, n, p)
  {
    if cs[n].path == p {
      assert forall i :: 0 <= i < n ==> cs[i].path != p;
    } else {
      if StillFile(fs, cs, n, p) && !(p in fs.files && forall i :: 0 <= i < n ==> cs[i].path != p) {
        var i :| 0 <= i < n && cs[i].path == p && !cs[i].body.Gone?;
        assert 0 <= i < n + 1;
      }
    }
  }

  // ---- the changes of stored paths -----------------------------------------------------------

  /** Whether a removal goes through depends only on the tree the list started from. */
  lemma {:induction false} RemovalIff(fs: FS, cs: seq<Change>, m: nat, n: nat, g: FS)
    requires WellFormed(fs) && Shape(fs, cs, m) && n < m && cs[n].body.Gone? && Reaches(fs, cs, m, n, g)
    ensures CanRemove(g, {}, cs[n].path) <==> Removable(fs, cs[n].path)
  {
    var p := cs[n].path;
    assert forall i :: 0 <= i < n ==> cs[i].path != p;
    assert !GoneAt(cs, n, p);
    SameBelow(fs, cs, m, n, g);
    if p in fs.dirs {
      assert p in g.dirs && p !in g.files;
    } else if p in fs.files {
      assert StillFile(fs, cs, n, p);
    } else {
      assert !StillFile(fs, cs, n, p);
      NoFileAbove(fs, cs, m, n, g);
      assert p !in g.dirs;
    }
  }

  /** Nothing appears or disappears below a stored path while stored paths are being changed. */
  lemma {:induction false} SameBelow(fs: FS, cs: seq<Change>, m: nat, n: nat, g: FS)
    requires WellFormed(fs) && Shape(fs, cs, m) && n < m && Reaches(fs, cs, m, n, g)
    ensures IsEmptyDir(g, {}, cs[n].path) <==> IsEmptyDir(fs, {}, cs[n].path)
  {
    var p := cs[n].path;
    forall q | Ancestor(p, q) ensures q in g.files <==> q in fs.files {
      forall i | 0 <= i < n ensures cs[i].path != q { assert !Ancestor(cs[n].path, cs[i].path); }
    }
    forall q | Ancestor(p, q) ensures !GoneAt(cs, n, q) {
      forall i | 0 <= i < n ensures cs[i].path != q { assert !Ancestor(cs[n].path, cs[i].path); }
    }
    assert forall q :: Ancestor(p, q) ==> (q in g.dirs <==> q in fs.dirs);
  }

  /** The directories above a stored path stay directories, so no file can block its removal. */
  lemma {:induction false} NoFileAbove(fs: FS, cs: seq<Change>, m: nat, n: nat, g: FS)
    requires WellFormed(fs) && Shape(fs, cs, m) && n < m && Reaches(fs, cs, m, n, g)
    ensures !ParentIsFile(g, cs[n].path)
  {
    var p := cs[n].path;
    forall a | a in Ancestors(p) ensures a !in g.files {
      assert Ancestor(a, p) && a in fs.dirs;
      forall i | 0 <= i < n ensures cs[i].path != a { assert !Ancestor(cs[i].path, cs[n].path); }
      assert !StillFile(fs, cs, n, a);
    }
  }

  /** A stored path that is stored again is still a file, so it can always be stored again. */
  lemma {:induction false} OverwriteWorks(fs: FS, cs: seq<Change>, m: nat, n: nat, g: FS)
    requires WellFormed(fs) && Shape(fs, cs, m) && n < m && !cs[n].body.Gone? && Reaches(fs, cs, m, n, g)
    ensures CanPut(g, cs[n].path) && Ancestors(cs[n].path) <= g.dirs
  {
    var p := cs[n].path;
    assert forall i :: 0 <= i < n ==> cs[i].path != p;
    assert StillFile(fs, cs, n, p);
    assert p in g.files;
    NoFileAbove(fs, cs, m, n, g);
    assert Rooted(g.dirs, p);
  }

  // ---- the new paths -------------------------------------------------------------------------

  lemma {:induction false} AddIff(fs: FS, cs: seq<Change>, m: nat, n: nat, g: FS)
    requires WellFormed(fs) && Shape(fs, cs, m) && m <= n < |cs| && Reaches(fs, cs, m, n, g)
    ensures CanPut(g, cs[n].path) <==> Addable(fs, cs, m, cs[n].path)
  {
    var p := cs[n].path;
    assert forall i :: 0 <= i < m ==> cs[i].path != p;
    assert p in g.dirs <==> p in fs.dirs;
    forall a | Ancestor(a, p) ensures a in g.files <==> a in fs.files && !GoneAt(cs, m, a) {
      AncestorFile(fs, cs, m, n, a);
    }
    assert forall a :: a in Ancestors(p) <==> Ancestor(a, p);
  }

  /** Above a new path a file is one that was there before and is not removed. */
  lemma {:induction false} AncestorFile(fs: FS, cs: seq<Change>, m: nat, n: nat, a: string)
    requires Shape(fs, cs, m) && m <= n < |cs| && Ancestor(a, cs[n].path)
    ensures StillFile(fs, cs, n, a) <==> a in fs.files && !GoneAt(cs, m, a)
  {
    forall i | m <= i < n ensures cs[i].path != a { assert !Ancestor(cs[i].path, cs[n].path); }
    if GoneAt(cs, m, a) {
      var i :| 0 <= i < m && cs[i].body.Gone? && cs[i].path == a;
      assert forall j :: 0 <= j < n && cs[j].path == a ==> j == i;
    } else if exists i :: 0 <= i < m && cs[i].path == a {
      var i :| 0 <= i < m && cs[i].path == a;
      assert !cs[i].body.Gone?;
    }
  }

  // ---- one step, and the whole list ----------------------------------------------------------

  lemma {:induction false} ApplyOneReaches(fs: FS, cs: seq<Change>, m: nat, n: nat, g: FS)
    requires WellFormed(fs) && Shape(fs, cs, m) && n < |cs| && Reaches(fs, cs, m, n, g)
    requires ApplyOne(g, cs[n]).Some?
    ensures Reaches(fs, cs, m, n + 1, ApplyOne(g, cs[n]).value)
  {
    var out := ApplyOne(g, cs[n]).value;
    forall p ensures p in out.files <==> StillFile(fs, cs, n + 1, p) { StillFileStep(fs, cs, n, p); }
    if cs[n].body.Gone? {
      RemoveWellFormed(g, {}, cs[n].path);
      GoneDirs(fs, cs, m, n, g, out);
    } else {
      PutWellFormed(g, cs[n].path, FileEdit(cs[n]).value.value);
      if n < m { OverwriteWorks(fs, cs, m, n, g); }
      PutDirs(fs, cs, m, n, g, out);
    }
  }

  ghost predicate DirsReached(fs: FS, cs: seq<Change>, m: nat, n: nat, g: FS)
    requires m <= |cs| && n <= |cs|
  {
    && (forall d :: d in g.dirs ==> d in fs.dirs || exists i :: m <= i < n && Ancestor(d, cs[i].path))
    && (forall d :: d in fs.dirs && d !in g.dirs ==> GoneAt(cs, if n < m then n else m, d))
  }

  lemma {:induction false} GoneMore(cs: seq<Change>, n: nat, k: nat, d: string)
    requires n <= k <= |cs| && GoneAt(cs, n, d)
    ensures GoneAt(cs, k, d)
  {}

  lemma {:induction false} GoneDirs(fs: FS, cs: seq<Change>, m: nat, n: nat, g: FS, out: FS)
    requires Shape(fs, cs, m) && n < |cs| && DirsReached(fs, cs, m, n, g)
    requires cs[n].body.Gone? && out.dirs == g.dirs - {cs[n].path}
    ensures DirsReached(fs, cs, m, n + 1, out)
  {
    assert n < m;
    assert forall d :: d in out.dirs ==> d in fs.dirs;
    forall d | d in fs.dirs && d !in out.dirs ensures GoneAt(cs, n + 1, d) {
      if d == cs[n].path { assert cs[n].body.Gone?; } else { GoneMore(cs, n, n + 1, d); }
    }
  }

  lemma {:induction false} PutDirs(fs: FS, cs: seq<Change>, m: nat, n: nat, g: FS, out: FS)
    requires Shape(fs, cs, m) && n < |cs| && DirsReached(fs, cs, m, n, g)
    requires out.dirs == g.dirs + Ancestors(cs[n].path) && (n < m ==> Ancestors(cs[n].path) <= g.dirs)
    ensures DirsReached(fs, cs, m, n + 1, out)
  {
    forall d | d in out.dirs ensures d in fs.dirs || exists i :: m <= i < n + 1 && Ancestor(d, cs[i].path) {
      if d in g.dirs {
        if d !in fs.dirs {
          var i :| m <= i < n && Ancestor(d, cs[i].path);
          assert m <= i < n + 1;
        }
      } else {
        assert Ancestor(d, cs[n].path);
      }
    }
    forall d | d in fs.dirs && d !in out.dirs ensures GoneAt(cs, if n + 1 < m then n + 1 else m, d) {
      GoneMore(cs, if n < m then n else m, if n + 1 < m then n + 1 else m, d);
    }
  }

  lemma {:induction false} ReachesStart(fs: FS, cs: seq<Change>, m: nat)
    requires WellFormed(fs) && m <= |cs|
    ensures Reaches(fs, cs, m, 0, fs)
  {}

  /** Change n goes through exactly when it fits the tree the list started from. */
  lemma {:induction false} StepIff(fs: FS, cs: seq<Change>, m: nat, n: nat, g: FS)
    requires WellFormed(fs) && Shape(fs, cs, m) && n < |cs| && Reaches(fs, cs, m, n, g)
    ensures ApplyOne(g, cs[n]).Some? <==>
      if n < m then cs[n].body.Gone? ==> Removable(fs, cs[n].path) else Addable(fs, cs, m, cs[n].path)
  {
    if n < m {
      if cs[n].body.Gone? { RemovalIff(fs, cs, m, n, g); } else { OverwriteWorks(fs, cs, m, n, g); }
    } else {
      AddIff(fs, cs, m, n, g);
    }
  }

  lemma {:induction false} FitsStep(fs: FS, cs: seq<Change>, m: nat, n: nat)
    requires m <= |cs| && n < |cs|
    ensures Fits(fs, cs, m, n + 1) <==> (Fits(fs, cs, m, n) &&
      if n < m then cs[n].body.Gone? ==> Removable(fs, cs[n].path) else Addable(fs, cs, m, cs[n].path))
  {}

  lemma {:induction false} PrefixIff(fs: FS, cs: seq<Change>, m: nat, n: nat)
    requires WellFormed(fs) && Shape(fs, cs, m) && n <= |cs|
    ensures ApplyAll(fs, cs[..n]).Some? <==> Fits(fs, cs, m, n)
    ensures ApplyAll(fs, cs[..n]).Some? ==> Reaches(fs, cs, m, n, ApplyAll(fs, cs[..n]).value)
    decreases n
  {
    if n == 0 {
      assert cs[..0] == [];
      ReachesStart(fs, cs, m);
    } else {
      PrefixIff(fs, cs, m, n - 1);
      assert cs[..n][..n - 1] == cs[..n - 1];
      PrefixStep(fs, cs, m, n - 1);
    }
  }

  lemma {:induction false} PrefixStep(fs: FS, cs: seq<Change>, m: nat, n: nat)
    requires WellFormed(fs) && Shape(fs, cs, m) && m <= |cs| && n < |cs|
    requires ApplyAll(fs, cs[..n]).Some? <==> Fits(fs, cs, m, n)
    requires ApplyAll(fs, cs[..n]).Some? ==> Reaches(fs, cs, m, n, ApplyAll(fs, cs[..n]).value)
    ensures ApplyAll(fs, cs[..n + 1]).Some? <==> Fits(fs, cs, m, n + 1)
    ensures ApplyAll(fs, cs[..n + 1]).Some? ==> Reaches(fs, cs, m, n + 1, ApplyAll(fs, cs[..n + 1]).value)
  {
    hide Reaches, Shape, Fits, WellFormed, ApplyOne, Removable, Addable;
    assert cs[..n + 1][..n] == cs[..n];
    FitsStep(fs, cs, m, n);
    if ApplyAll(fs, cs[..n]).Some? {
      var g := ApplyAll(fs, cs[..n]).value;
      StepIff(fs, cs, m, n, g);
      if ApplyOne(g, cs[n]).Some? { ApplyOneReaches(fs, cs, m, n, g); }
    }
  }

  /** A difference can be stored exactly when every removed path is no directory with content and
      every new path is no directory and meets no remaining file on its way. */
  lemma {:induction false} StorableIff(fs: FS, cs: seq<Change>, m: nat)
    requires WellFormed(fs) && Shape(fs, cs, m)
    ensures ApplyAll(fs, cs).Some? <==>
      && (forall i :: 0 <= i < m && cs[i].body.Gone? ==> Removable(fs, cs[i].path))
      && (forall i :: m <= i < |cs| ==> Addable(fs, cs, m, cs[i].path))
  {
    PrefixIff(fs, cs, m, |cs|);
    assert cs[..|cs|] == cs;
  }

  // ---- retries -------------------------------------------------------------------------------

  /** The recomputed list: the same changes, each half in an order of its own. */
  ghost predicate SamePlan(a: seq<Change>, m: nat, b: seq<Change>, n: nat)
    requires m <= |a| && n <= |b|
  {
    && DistinctChanges(b)
    && (forall c :: c in a[..m] <==> c in b[..n])
    && (forall c :: c in a[m..] <==> c in b[n..])
  }

  lemma {:induction false} StoredIn(a: seq<Change>, m: nat, b: seq<Change>, n: nat, j: nat) returns (i: nat)
    requires m <= |a| && n <= |b| && SamePlan(a, m, b, n) && j < n
    ensures i < m && a[i] == b[j]
  {
    assert b[..n][j] == b[j] && b[j] in a[..m];
    i :| 0 <= i < m && a[..m][i] == b[j];
  }

  lemma {:induction false} AddedIn(a: seq<Change>, m: nat, b: seq<Change>, n: nat, j: nat) returns (i: nat)
    requires m <= |a| && n <= |b| && SamePlan(a, m, b, n) && n <= j < |b|
    ensures m <= i < |a| && a[i] == b[j]
  {
    assert b[n..][j - n] == b[j] && b[j] in a[m..];
    var t: nat :| t < |a[m..]| && a[m..][t] == b[j];
    i := m + t;
  }

  lemma {:induction false} PlanReversed(a: seq<Change>, m: nat, b: seq<Change>, n: nat)
    requires m <= |a| && n <= |b| && SamePlan(a, m, b, n) && DistinctChanges(a)
    ensures SamePlan(b, n, a, m)
  {}

  lemma {:induction false} SameGone(a: seq<Change>, m: nat, b: seq<Change>, n: nat, p: string)
    requires m <= |a| && n <= |b| && SamePlan(a, m, b, n) && GoneAt(b, n, p)
    ensures GoneAt(a, m, p)
  {
    var j :| 0 <= j < n && b[j].body.Gone? && b[j].path == p;
    var i := StoredIn(a, m, b, n, j);
  }

  /** A stored path that is not removed is still a file after any part of the list. */
  lemma {:induction false} KeptFile(fs: FS, cs: seq<Change>, m: nat, k: nat, g: FS, i: nat)
    requires Shape(fs, cs, m) && k <= |cs| && Reaches(fs, cs, m, k, g)
    requires i < |cs| && !cs[i].body.Gone? && cs[i].path in fs.files
    ensures cs[i].path in g.files
  {
    var p := cs[i].path;
    assert forall j :: 0 <= j < |cs| && cs[j].path == p ==> j == i;
    if k <= i { assert forall j :: 0 <= j < k ==> cs[j].path != p; }
    assert StillFile(fs, cs, k, p);
  }

  lemma {:induction false} KeptRoots(fs: FS, cs: seq<Change>, m: nat, k: nat, g: FS, i: nat)
    requires Shape(fs, cs, m) && k <= |cs| && Reaches(fs, cs, m, k, g) && i < m
    ensures Rooted(g.dirs, cs[i].path)
  {
    forall a | Ancestor(a, cs[i].path) ensures a in g.dirs {
      forall j | 0 <= j < m ensures cs[j].path != a { assert !Ancestor(cs[j].path, cs[i].path); }
      assert !GoneAt(cs, if k < m then k else m, a);
    }
  }

  /** Whatever part of an attempt went through, the recomputed list still has the shape of a difference
      against the tree that part left. */
  lemma {:induction false} RetryShape(fs: FS, cs: seq<Change>, m: nat, k: nat, g: FS, again: seq<Change>, n: nat)
    requires Shape(fs, cs, m) && m <= |cs| && k <= |cs| && Reaches(fs, cs, m, k, g)
    requires n <= |again| && SamePlan(cs, m, again, n)
    ensures Shape(g, again, n)
  {
    hide Reaches, Rooted;
    forall j | 0 <= j < n
      ensures !again[j].body.Gone? ==> again[j].path in g.files
      ensures Rooted(g.dirs, again[j].path)
    {
      var i := StoredIn(cs, m, again, n, j);
      if !cs[i].body.Gone? { KeptFile(fs, cs, m, k, g, i); }
      KeptRoots(fs, cs, m, k, g, i);
    }
    forall j, l | 0 <= j < n && 0 <= l < n ensures !Ancestor(again[j].path, again[l].path) {
      var i := StoredIn(cs, m, again, n, j);
      var t := StoredIn(cs, m, again, n, l);
    }
    forall j | n <= j < |again| ensures !again[j].body.Gone? {
      var i := AddedIn(cs, m, again, n, j);
    }
    forall j, l | n <= j < |again| && n <= l < |again| ensures !Ancestor(again[j].path, again[l].path) {
      var i := AddedIn(cs, m, again, n, j);
      var t := AddedIn(cs, m, again, n, l);
    }
  }

  /** More files and directories do not spoil the shape. */
  lemma {:induction false} ShapeGrows(a: FS, cs: seq<Change>, m: nat, g: FS)
    requires Shape(a, cs, m) && a.files.Keys <= g.files.Keys && a.dirs <= g.dirs
    ensures Shape(g, cs, m)
  {}

  /** What part of an attempt left: the tree of the first k changes, which still has its files and
      directories in the one that was found. */
  lemma {:induction false} StoppedTree(fs: FS, cs: seq<Change>, m: nat, k: nat, g: FS)
    requires WellFormed(fs) && Shape(fs, cs, m) && m <= |cs| && Stops(fs, cs, k, g)
    ensures k <= |cs| && ApplyAll(fs, cs[..k]).Some? && WellFormed(g) && Fits(fs, cs, m, k)
    ensures var a := ApplyAll(fs, cs[..k]).value;
      && Reaches(fs, cs, m, k, a) && a.files.Keys <= g.files.Keys && a.dirs <= g.dirs
      && g.files.Keys == a.files.Keys + LeftBy(fs, cs, k, g).Keys
      && (k < |cs| ==> g.dirs <= a.dirs + Ancestors(cs[k].path))
      && (k == |cs| || cs[k].body.Gone? ==> g == a)
  {
    hide Shape, Reaches, ApplyAll, Fits, Beside;
    PrefixIff(fs, cs, m, k);
    LitteredFiles(ApplyAll(fs, cs[..k]).value, g);
  }

  lemma {:induction false} StoppedShape(fs: FS, cs: seq<Change>, m: nat, k: nat, g: FS, again: seq<Change>, n: nat)
    requires WellFormed(fs) && Shape(fs, cs, m) && m <= |cs| && Stops(fs, cs, k, g)
    requires n <= |again| && SamePlan(cs, m, again, n)
    ensures WellFormed(g) && Shape(g, again, n)
  {
    hide *;
    StoppedTree(fs, cs, m, k, g);
    var a := ApplyAll(fs, cs[..k]).value;
    RetryShape(fs, cs, m, k, a, again, n);
    ShapeGrows(a, again, n, g);
  }

  /** The directories that a stopped attempt made for the change it stopped in. */
  function MadeBy(fs: FS, cs: seq<Change>, k: nat, g: FS): set<string> {
    if k <= |cs| && ApplyAll(fs, cs[..k]).Some? then g.dirs - ApplyAll(fs, cs[..k]).value.dirs else {}
  }

  /** A path the list removes is occupied: something new was published below it, or a directory was made
      or a temporary file stayed there for the change the attempt stopped in. */
  ghost predicate Occupied(fs: FS, cs: seq<Change>, m: nat, k: nat, g: FS, d: string)
    requires m <= |cs| && k <= |cs|
  {
    || (exists i :: m <= i < k && Ancestor(d, cs[i].path))
    || (exists e :: e in MadeBy(fs, cs, k, g) && Ancestor(d, e))
    || (exists q :: q in LeftBy(fs, cs, k, g) && Ancestor(d, q))
  }

  lemma {:induction false} HoldsSomething(g: FS, d: string, q: string)
    requires WellFormed(g) && Ancestor(d, q) && (q in g.files || q in g.dirs)
    ensures d in g.dirs && !IsEmptyDir(g, {}, d) && !Removable(g, d)
  {}

  lemma {:induction false} StoredByThen(fs: FS, cs: seq<Change>, m: nat, k: nat, a: FS, i: nat)
    requires m <= |cs| && k <= |cs| && Reaches(fs, cs, m, k, a) && i < k && !cs[i].body.Gone?
    ensures cs[i].path in a.files
  {
    assert StillFile(fs, cs, k, cs[i].path);
  }

  lemma {:induction false} OccupiedBlocks(fs: FS, cs: seq<Change>, m: nat, k: nat, g: FS, d: string)
    requires WellFormed(fs) && Shape(fs, cs, m) && m <= |cs| && k <= |cs| && Stops(fs, cs, k, g)
    requires Occupied(fs, cs, m, k, g, d)
    ensures !Removable(g, d)
  {
    hide Shape, Reaches, Stops, ApplyAll, IsEmptyDir, Removable, WellFormed, Fits, NewFiles;
    StoppedTree(fs, cs, m, k, g);
    var a := ApplyAll(fs, cs[..k]).value;
    if i :| m <= i < k && Ancestor(d, cs[i].path) {
      AddsAreFiles(fs, cs, m, i);
      StoredByThen(fs, cs, m, k, a, i);
      HoldsSomething(g, d, cs[i].path);
    } else if e :| e in MadeBy(fs, cs, k, g) && Ancestor(d, e) {
      HoldsSomething(g, d, e);
    } else {
      var q :| q in LeftBy(fs, cs, k, g) && Ancestor(d, q);
      HoldsSomething(g, d, q);
    }
  }

  /** Below a path that could be removed nothing is found but what the attempt itself put there. */
  lemma {:induction false} BelowRemoved(fs: FS, cs: seq<Change>, m: nat, k: nat, a: FS, d: string, q: string)
    requires WellFormed(fs) && Shape(fs, cs, m) && m <= |cs| && k <= |cs| && Reaches(fs, cs, m, k, a)
    requires Removable(fs, d) && GoneAt(cs, m, d) && Ancestor(d, q) && (q in a.files || q in a.dirs)
    ensures exists i :: m <= i < k && Ancestor(d, cs[i].path)
  {
    var j :| 0 <= j < m && cs[j].body.Gone? && cs[j].path == d;
    forall i | 0 <= i < m ensures !Ancestor(d, cs[i].path) { assert !Ancestor(cs[j].path, cs[i].path); }
    if q in a.files {
      assert StillFile(fs, cs, k, q);
      assert q !in fs.files;
      var i :| 0 <= i < k && cs[i].path == q && !cs[i].body.Gone?;
    } else {
      assert q !in fs.dirs;
      var i :| m <= i < k && Ancestor(q, cs[i].path);
      AncestorTransitive(d, q, cs[i].path);
    }
  }

  /** After part of an attempt a path that could be removed is in the way exactly if its place is occupied. */
  lemma {:induction false} RemovableAfter(fs: FS, cs: seq<Change>, m: nat, k: nat, g: FS, d: string)
    requires WellFormed(fs) && Shape(fs, cs, m) && m <= |cs| && k <= |cs| && Stops(fs, cs, k, g)
    requires Removable(fs, d) && GoneAt(cs, m, d)
    ensures Removable(g, d) <==> !Occupied(fs, cs, m, k, g, d)
  {
    hide Shape, Reaches, Stops, ApplyAll, WellFormed, Fits, GoneAt, NewFiles;
    if Occupied(fs, cs, m, k, g, d) { OccupiedBlocks(fs, cs, m, k, g, d); }
    StoppedTree(fs, cs, m, k, g);
    var a := ApplyAll(fs, cs[..k]).value;
    forall q | Ancestor(d, q) && (q in g.files || q in g.dirs) ensures Occupied(fs, cs, m, k, g, d) {
      if q in a.files || q in a.dirs { BelowRemoved(fs, cs, m, k, a, d, q); }
    }
  }

  /** The stored and the new files of the local tree are files of one tree. */
  ghost predicate OneTree(cs: seq<Change>) {
    forall i, j :: 0 <= i < |cs| && 0 <= j < |cs| && !cs[i].body.Gone? && !cs[j].body.Gone? ==>
      !Ancestor(cs[i].path, cs[j].path)
  }

  /** A temporary file that stayed is in the way of p, and the list does not remove it. */
  ghost predicate Shadowed(fs: FS, cs: seq<Change>, m: nat, k: nat, g: FS, p: string)
    requires m <= |cs|
  {
    exists q :: q in LeftBy(fs, cs, k, g) && Ancestor(q, p) && !GoneAt(cs, m, q)
  }

  /** After the first k changes a new path that fitted before finds above it no file but removed ones. */
  lemma {:induction false} AboveNew(fs: FS, cs: seq<Change>, m: nat, k: nat, a: FS, p: string, q: string)
    requires m <= |cs| && k <= |cs| && Reaches(fs, cs, m, k, a) && Addable(fs, cs, m, p)
    requires forall i :: m <= i < |cs| ==> !cs[i].body.Gone?
    requires forall i :: 0 <= i < |cs| && !cs[i].body.Gone? ==> !Ancestor(p, cs[i].path) && !Ancestor(cs[i].path, p)
    ensures Ancestor(q, p) && q in a.files ==> GoneAt(cs, m, q)
    ensures p !in a.dirs
  {
    if Ancestor(q, p) && q in a.files { assert StillFile(fs, cs, k, q); }
  }

  lemma {:induction false} NewNotGone(fs: FS, cs: seq<Change>, m: nat)
    requires Shape(fs, cs, m)
    ensures forall i :: m <= i < |cs| ==> !cs[i].body.Gone?
  {}

  lemma {:induction false} NotMade(cs: seq<Change>, k: nat, p: string)
    requires k < |cs| && !cs[k].body.Gone?
    requires forall i :: 0 <= i < |cs| && !cs[i].body.Gone? ==> !Ancestor(p, cs[i].path) && !Ancestor(cs[i].path, p)
    ensures p !in Ancestors(cs[k].path)
  {}

  /** A new path that fitted the first time still fits, unless a temporary file stands above it. */
  lemma {:induction false} AddableAfter(fs: FS, cs: seq<Change>, m: nat, k: nat, g: FS, again: seq<Change>, n: nat,
                                        p: string)
    requires WellFormed(fs) && Shape(fs, cs, m) && m <= |cs| && k <= |cs| && Stops(fs, cs, k, g)
    requires n <= |again| && SamePlan(cs, m, again, n) && Addable(fs, cs, m, p)
    requires forall i :: 0 <= i < |cs| && !cs[i].body.Gone? ==> !Ancestor(p, cs[i].path) && !Ancestor(cs[i].path, p)
    ensures Addable(g, again, n, p) <==> !Shadowed(fs, cs, m, k, g, p)
  {
    hide Reaches, Shape, Stops, ApplyAll, WellFormed, Fits, GoneAt, SamePlan, NewFiles;
    StoppedTree(fs, cs, m, k, g);
    var a := ApplyAll(fs, cs[..k]).value;
    NewNotGone(fs, cs, m);
    AboveNew(fs, cs, m, k, a, p, "");
    if k < |cs| && !cs[k].body.Gone? { NotMade(cs, k, p); }
    assert p !in g.dirs;
    SameRemoved(fs, cs, m, again, n);
    forall q | Ancestor(q, p) && q in a.files ensures GoneAt(cs, m, q) { AboveNew(fs, cs, m, k, a, p, q); }
    forall q | Shadowed(fs, cs, m, k, g, p) && q in LeftBy(fs, cs, k, g) && Ancestor(q, p) && !GoneAt(cs, m, q)
      ensures !Addable(g, again, n, p)
    {
      assert q in g.files && !GoneAt(again, n, q);
    }
  }

  lemma {:induction false} SameRemoved(fs: FS, cs: seq<Change>, m: nat, again: seq<Change>, n: nat)
    requires Shape(fs, cs, m) && m <= |cs| && n <= |again| && SamePlan(cs, m, again, n)
    ensures forall q :: GoneAt(cs, m, q) <==> GoneAt(again, n, q)
  {
    hide GoneAt, SamePlan;
    PlanReversed(cs, m, again, n);
    forall q ensures GoneAt(cs, m, q) <==> GoneAt(again, n, q) {
      if GoneAt(cs, m, q) { SameGone(again, n, cs, m, q); }
      if GoneAt(again, n, q) { SameGone(cs, m, again, n, q); }
    }
  }

  /** Nothing the stopped attempt left is in the way of its list. */
  ghost predicate Passable(fs: FS, cs: seq<Change>, m: nat, k: nat, g: FS)
    requires m <= |cs| && k <= |cs|
  {
    && (forall d :: GoneAt(cs, m, d) ==> !Occupied(fs, cs, m, k, g, d))
    && (forall j :: m <= j < |cs| ==> !Shadowed(fs, cs, m, k, g, cs[j].path))
  }

  /** A retry after an attempt at a storable list was stopped anywhere goes through exactly if nothing that
      attempt left is in its way: nothing it published, made or forgot below a path the list removes, and
      no temporary file above a new path. */
  lemma {:induction false} RetryIff(fs: FS, cs: seq<Change>, m: nat, k: nat, g: FS, again: seq<Change>, n: nat)
    requires WellFormed(fs) && Shape(fs, cs, m) && m <= |cs| && k <= |cs| && Stops(fs, cs, k, g)
    requires n <= |again| && SamePlan(cs, m, again, n) && OneTree(cs)
    requires ApplyAll(fs, cs).Some?
    ensures ApplyAll(g, again).Some? <==> Passable(fs, cs, m, k, g)
  {
    hide Reaches, Shape, Addable, Removable, ApplyAll, WellFormed, Stops, Occupied, Shadowed, SamePlan, LeftBy, MadeBy;
    StoppedShape(fs, cs, m, k, g, again, n);
    StorableIff(fs, cs, m);
    StorableIff(g, again, n);
    SameRemoved(fs, cs, m, again, n);
    forall j | n <= j < |again|
      ensures Addable(g, again, n, again[j].path) <==> !Shadowed(fs, cs, m, k, g, again[j].path)
      ensures exists i :: m <= i < |cs| && cs[i].path == again[j].path
    {
      var i := AddedIn(cs, m, again, n, j);
      AddsAreFiles(fs, cs, m, i);
      AddableAfter(fs, cs, m, k, g, again, n, cs[i].path);
    }
    forall i | m <= i < |cs| ensures exists j :: n <= j < |again| && again[j].path == cs[i].path {
      PlanBack(fs, cs, m, again, n);
      var j := AddedIn(again, n, cs, m, i);
    }
    forall d | GoneAt(cs, m, d) ensures Removable(g, d) <==> !Occupied(fs, cs, m, k, g, d) {
      RemovableAfter(fs, cs, m, k, g, d);
    }
    forall d | GoneAt(again, n, d) ensures exists j :: 0 <= j < n && again[j].body.Gone? && again[j].path == d {}
    forall j | 0 <= j < n && again[j].body.Gone? ensures GoneAt(again, n, again[j].path) {}
  }

  lemma {:induction false} PlanBack(fs: FS, a: seq<Change>, m: nat, b: seq<Change>, n: nat)
    requires m <= |a| && n <= |b| && SamePlan(a, m, b, n) && Shape(fs, a, m)
    ensures SamePlan(b, n, a, m)
  {}

  lemma {:induction false} AddsAreFiles(fs: FS, cs: seq<Change>, m: nat, i: nat)
    requires Shape(fs, cs, m) && m <= i < |cs|
    ensures !cs[i].body.Gone?
  {}

  // ---- a refusal is permanent ----------------------------------------------------------------

  /** A path that the list removes and that cannot be removed stays one, because no part of the list
      gets past it. */
  lemma {:induction false} RemovalStaysRefused(fs: FS, cs: seq<Change>, m: nat, k: nat, g: FS, j: nat)
    requires WellFormed(fs) && Shape(fs, cs, m) && m <= |cs| && Stops(fs, cs, k, g)
    requires j < m && cs[j].body.Gone? && !Removable(fs, cs[j].path)
    ensures !Removable(g, cs[j].path)
  {
    hide ApplyAll, Stops, LeftBy, NewFiles;
    StoppedTree(fs, cs, m, k, g);
    var a, d := ApplyAll(fs, cs[..k]).value, cs[j].path;
    assert j >= k;
    assert !GoneAt(cs, k, d);
    assert d in a.dirs;
    var q :| Ancestor(d, q) && (q in fs.files || q in fs.dirs);
    forall i | 0 <= i < m ensures cs[i].path != q { assert !Ancestor(cs[j].path, cs[i].path); }
    if q in fs.files {
      assert StillFile(fs, cs, k, q);
    } else {
      assert !GoneAt(cs, k, q);
    }
    HoldsSomething(g, d, q);
  }

  /** A new path that does not fit never will: what stands in its way is nothing the list removes. */
  lemma {:induction false} AdditionStaysRefused(fs: FS, cs: seq<Change>, m: nat, k: nat, g: FS, j: nat)
    requires WellFormed(fs) && Shape(fs, cs, m) && m <= |cs| && Stops(fs, cs, k, g)
    requires m <= j < |cs| && !Addable(fs, cs, m, cs[j].path)
    ensures !Addable(g, cs, m, cs[j].path)
  {
    hide ApplyAll, Stops, LeftBy, NewFiles, Fits;
    StoppedTree(fs, cs, m, k, g);
    var a, p := ApplyAll(fs, cs[..k]).value, cs[j].path;
    if p in fs.dirs {
      forall i | 0 <= i < m ensures cs[i].path != p {}
      assert !GoneAt(cs, if k < m then k else m, p);
      assert p in a.dirs;
    } else {
      var q :| Ancestor(q, p) && q in fs.files && !GoneAt(cs, m, q);
      if i :| 0 <= i < k && cs[i].path == q {
        assert !cs[i].body.Gone?;
      }
      assert StillFile(fs, cs, k, q);
      assert q in g.files;
    }
  }

  lemma {:induction false} RefusedSameOrder(fs: FS, cs: seq<Change>, m: nat, k: nat, g: FS)
    requires WellFormed(fs) && Shape(fs, cs, m) && m <= |cs| && Stops(fs, cs, k, g) && ApplyAll(fs, cs).None?
    requires WellFormed(g) && Shape(g, cs, m)
    ensures ApplyAll(g, cs).None?
  {
    hide Reaches, Shape, Addable, Removable, ApplyAll, WellFormed, Stops;
    StorableIff(fs, cs, m);
    StorableIff(g, cs, m);
    if j :| 0 <= j < m && cs[j].body.Gone? && !Removable(fs, cs[j].path) {
      RemovalStaysRefused(fs, cs, m, k, g, j);
    } else {
      var j :| m <= j < |cs| && !Addable(fs, cs, m, cs[j].path);
      AdditionStaysRefused(fs, cs, m, k, g, j);
    }
  }

  /** The order of a list does not matter to the tree that refuses it. */
  lemma {:induction false} RefusedAnyOrder(fs: FS, cs: seq<Change>, m: nat, again: seq<Change>, n: nat)
    requires WellFormed(fs) && Shape(fs, cs, m) && m <= |cs| && n <= |again| && SamePlan(cs, m, again, n)
    ensures Shape(fs, again, n) && SamePlan(again, n, cs, m)
    ensures ApplyAll(fs, cs).None? ==> ApplyAll(fs, again).None?
  {
    hide Reaches, Shape, Addable, Removable, ApplyAll, WellFormed, SamePlan, GoneAt;
    ReachesStart(fs, cs, m);
    RetryShape(fs, cs, m, 0, fs, again, n);
    PlanBack(fs, cs, m, again, n);
    StorableIff(fs, cs, m);
    StorableIff(fs, again, n);
    SameRemoved(fs, cs, m, again, n);
    if i :| 0 <= i < m && cs[i].body.Gone? && !Removable(fs, cs[i].path) {
      var j := StoredIn(again, n, cs, m, i);
    } else if i :| m <= i < |cs| && !Addable(fs, cs, m, cs[i].path) {
      var j := AddedIn(again, n, cs, m, i);
      SameAddable(fs, cs, m, again, n, cs[i].path);
    }
  }

  lemma {:induction false} SameAddable(fs: FS, cs: seq<Change>, m: nat, again: seq<Change>, n: nat, p: string)
    requires m <= |cs| && n <= |again| && forall q :: GoneAt(cs, m, q) <==> GoneAt(again, n, q)
    ensures Addable(fs, cs, m, p) <==> Addable(fs, again, n, p)
  {
    hide GoneAt;
  }

  /** An attempt at the list in some order, stopped after `done` changes, and the tree it left. */
  datatype Attempt = Attempt(changes: seq<Change>, stored: nat, done: nat, after: FS)

  /** The tree after a run of attempts, each started from what the one before left. */
  function TreeAfter(fs: FS, tries: seq<Attempt>): FS {
    if tries == [] then fs else tries[|tries| - 1].after
  }

  ghost predicate OneTry(fs: FS, cs: seq<Change>, m: nat, t: Attempt)
    requires m <= |cs|
  {
    t.stored <= |t.changes| && SamePlan(cs, m, t.changes, t.stored) && Stops(fs, t.changes, t.done, t.after)
  }

  ghost predicate Tried(fs: FS, cs: seq<Change>, m: nat, tries: seq<Attempt>)
    requires m <= |cs|
  {
    forall i :: 0 <= i < |tries| ==> OneTry(TreeAfter(fs, tries[..i]), cs, m, tries[i])
  }

  /** One attempt at a refused list leaves a tree that refuses it. */
  lemma {:induction false} TryStaysRefused(fs: FS, cs: seq<Change>, m: nat, t: Attempt)
    requires WellFormed(fs) && Shape(fs, cs, m) && m <= |cs| && OneTry(fs, cs, m, t)
    ensures WellFormed(t.after) && Shape(t.after, cs, m)
    ensures ApplyAll(fs, cs).None? ==> ApplyAll(t.after, cs).None?
  {
    hide Shape, SamePlan, WellFormed, ApplyAll, Stops;
    RefusedAnyOrder(fs, cs, m, t.changes, t.stored);
    PlanSelf(fs, t.changes, t.stored);
    StoppedShape(fs, t.changes, t.stored, t.done, t.after, t.changes, t.stored);
    StoppedShape(fs, t.changes, t.stored, t.done, t.after, cs, m);
    if ApplyAll(fs, cs).None? {
      RefusedSameOrder(fs, t.changes, t.stored, t.done, t.after);
      RefusedAnyOrder(t.after, t.changes, t.stored, cs, m);
    }
  }

  lemma {:induction false} PlanSelf(fs: FS, cs: seq<Change>, m: nat)
    requires Shape(fs, cs, m)
    ensures m <= |cs| && SamePlan(cs, m, cs, m)
  {}

  /** A list that is refused once is refused for good: whatever order the attempts send it in and
      wherever each of them stops, the next one is refused too. */
  lemma {:induction false} RefusedForever(fs: FS, cs: seq<Change>, m: nat, tries: seq<Attempt>)
    requires WellFormed(fs) && Shape(fs, cs, m) && m <= |cs| && Tried(fs, cs, m, tries)
    ensures WellFormed(TreeAfter(fs, tries)) && Shape(TreeAfter(fs, tries), cs, m)
    ensures ApplyAll(fs, cs).None? ==> ApplyAll(TreeAfter(fs, tries), cs).None?
    decreases |tries|
  {
    hide Shape, WellFormed, ApplyAll, OneTry;
    if tries != [] {
      var before, t := tries[..|tries| - 1], tries[|tries| - 1];
      forall i | 0 <= i < |before| ensures OneTry(TreeAfter(fs, before[..i]), cs, m, before[i]) {
        assert tries[..i] == before[..i] && tries[i] == before[i];
      }
      RefusedForever(fs, cs, m, before);
      assert OneTry(TreeAfter(fs, tries[..|tries| - 1]), cs, m, t);
      TryStaysRefused(TreeAfter(fs, before), cs, m, t);
    }
  }

  /** A path that the list removes and whose place a stopped attempt occupied is never stored again. */
  lemma {:induction false} OccupiedForever(fs: FS, cs: seq<Change>, m: nat, k: nat, g: FS, d: string,
                                           tries: seq<Attempt>)
    requires WellFormed(fs) && Shape(fs, cs, m) && m <= |cs| && k <= |cs| && Stops(fs, cs, k, g)
    requires GoneAt(cs, m, d) && Occupied(fs, cs, m, k, g, d) && Tried(g, cs, m, tries)
    ensures ApplyAll(TreeAfter(g, tries), cs).None?
  {
    hide Shape, WellFormed, ApplyAll, Stops, Occupied, Removable, Tried;
    PlanSelf(fs, cs, m);
    StoppedShape(fs, cs, m, k, g, cs, m);
    OccupiedBlocks(fs, cs, m, k, g, d);
    StorableIff(g, cs, m);
    RefusedForever(g, cs, m, tries);
  }

  /** Nothing that attempt i of a run left is in the way. */
  ghost predicate LeavesWay(fs: FS, tries: seq<Attempt>, i: nat)
    requires i < |tries|
  {
    var t := tries[i];
    t.stored <= |t.changes| && t.done <= |t.changes| &&
    Passable(TreeAfter(fs, tries[..i]), t.changes, t.stored, t.done, t.after)
  }

  lemma {:induction false} FoundIn(a: seq<Change>, m: nat, b: seq<Change>, n: nat, j: nat) returns (i: nat)
    requires m <= |a| && n <= |b| && SamePlan(a, m, b, n) && j < |b|
    ensures i < |a| && a[i] == b[j]
  {
    if j < n { i := StoredIn(a, m, b, n, j); } else { i := AddedIn(a, m, b, n, j); }
  }

  lemma {:induction false} PlanOneTree(a: seq<Change>, m: nat, b: seq<Change>, n: nat)
    requires m <= |a| && n <= |b| && SamePlan(a, m, b, n) && OneTree(a)
    ensures OneTree(b)
  {
    forall i, j | 0 <= i < |b| && 0 <= j < |b| && !b[i].body.Gone? && !b[j].body.Gone?
      ensures !Ancestor(b[i].path, b[j].path)
    {
      var k := FoundIn(a, m, b, n, i);
      var l := FoundIn(a, m, b, n, j);
    }
  }

  /** One more stopped attempt: the list goes through afterwards exactly if it did before and nothing that
      attempt left is in the way. */
  lemma {:induction false} OneMoreTry(fs: FS, cs: seq<Change>, m: nat, t: Attempt)
    requires WellFormed(fs) && Shape(fs, cs, m) && m <= |cs| && OneTree(cs) && OneTry(fs, cs, m, t)
    ensures t.done <= |t.changes|
    ensures ApplyAll(t.after, cs).Some? <==>
      ApplyAll(fs, cs).Some? && Passable(fs, t.changes, t.stored, t.done, t.after)
  {
    hide Shape, SamePlan, WellFormed, ApplyAll, OneTree, Passable;
    StopsWithin(fs, t.changes, t.done, t.after);
    RefusedAnyOrder(fs, cs, m, t.changes, t.stored);
    RefusedAnyOrder(fs, t.changes, t.stored, cs, m);
    if ApplyAll(fs, cs).Some? {
      PlanOneTree(cs, m, t.changes, t.stored);
      RetryIff(fs, t.changes, t.stored, t.done, t.after, cs, m);
    } else {
      TryStaysRefused(fs, cs, m, t);
    }
  }

  lemma {:induction false} StopsWithin(fs: FS, cs: seq<Change>, k: nat, g: FS)
    requires Stops(fs, cs, k, g)
    ensures k <= |cs|
  {}

  /** After any number of stopped attempts at a storable list it goes through exactly if nothing that any of
      them left is in the way. */
  lemma {:induction false} RetriesIff(fs: FS, cs: seq<Change>, m: nat, tries: seq<Attempt>)
    requires WellFormed(fs) && Shape(fs, cs, m) && m <= |cs| && OneTree(cs) && Tried(fs, cs, m, tries)
    requires ApplyAll(fs, cs).Some?
    ensures ApplyAll(TreeAfter(fs, tries), cs).Some? <==> forall i :: 0 <= i < |tries| ==> LeavesWay(fs, tries, i)
    decreases |tries|
  {
    hide Shape, WellFormed, ApplyAll, OneTry, OneTree, Passable;
    if tries != [] {
      var before, n := tries[..|tries| - 1], |tries| - 1;
      LeavesWayBefore(fs, cs, m, tries, before);
      hide LeavesWay;
      RetriesIff(fs, cs, m, before);
      RefusedForever(fs, cs, m, before);
      OneMoreTry(TreeAfter(fs, before), cs, m, tries[n]);
      LeavesWayIs(fs, cs, m, tries, n);
    }
  }

  lemma {:induction false} LeavesWayBefore(fs: FS, cs: seq<Change>, m: nat, tries: seq<Attempt>, before: seq<Attempt>)
    requires m <= |cs| && tries != [] && before == tries[..|tries| - 1] && Tried(fs, cs, m, tries)
    ensures Tried(fs, cs, m, before) && OneTry(TreeAfter(fs, before), cs, m, tries[|tries| - 1])
    ensures forall i :: 0 <= i < |before| ==> (LeavesWay(fs, before, i) <==> LeavesWay(fs, tries, i))
  {
    hide OneTry, Passable;
    forall i | 0 <= i < |before|
      ensures OneTry(TreeAfter(fs, before[..i]), cs, m, before[i])
      ensures LeavesWay(fs, before, i) <==> LeavesWay(fs, tries, i)
    {
      assert tries[..i] == before[..i] && tries[i] == before[i];
    }
  }

  lemma {:induction false} LeavesWayIs(fs: FS, cs: seq<Change>, m: nat, tries: seq<Attempt>, n: nat)
    requires m <= |cs| && n < |tries| && OneTry(TreeAfter(fs, tries[..n]), cs, m, tries[n])
    ensures tries[n].stored <= |tries[n].changes| && tries[n].done <= |tries[n].changes|
    ensures LeavesWay(fs, tries, n) <==>
      Passable(TreeAfter(fs, tries[..n]), tries[n].changes, tries[n].stored, tries[n].done, tries[n].after)
  {
    hide Passable, OneTry;
    TryIs(TreeAfter(fs, tries[..n]), cs, m, tries[n]);
  }

  lemma {:induction false} TryIs(fs: FS, cs: seq<Change>, m: nat, t: Attempt)
    requires m <= |cs| && OneTry(fs, cs, m, t)
    ensures t.stored <= |t.changes| && t.done <= |t.changes|
  {
    hide SamePlan;
  }
}
