/** Archive paths: how a file below a source root is named on the server, how the agent finds it
    again, and which names the server and the restore target accept. */
module Namespacing {
  import opened Model
  import opened Paths

  // ---- pkg/scanner/namespace.go ------------------------------------------------------------

  function Absolute(cwd: string, p: string): string {
    if IsAbs(p) then Clean(p) else JoinPath(cwd, p)
  }

  function ArchiveRootPrefix(cwd: string, rootPath: string): string {
    var cleanRoot := Clean(Absolute(cwd, rootPath));
    var prefix := if HasPrefix(cleanRoot, "/") then cleanRoot[1..] else cleanRoot;
    if prefix == "" then "_root" else prefix
  }

  predicate ValidRelative(p: string) {
    var rel := Clean(p);
    !(rel == "." || IsAbs(rel) || Climbs(rel))
  }

  function ArchivePath(prefix: string, rel: string): string { JoinPath(prefix, Clean(rel)) }

  datatype Namespaced = Namespaced(prefix: string, files: seq<FileInfo>)

  method NamespaceFiles(cwd: string, rootPath: string, files: seq<FileInfo>) returns (r: Result<Namespaced, string>)
    ensures r.Ok? <==> forall i :: 0 <= i < |files| ==> ValidRelative(files[i].path)
    ensures r.Ok? ==> r.value.prefix == ArchiveRootPrefix(cwd, rootPath) && |r.value.files| == |files|
    ensures r.Ok? ==> forall i :: 0 <= i < |files| ==>
      r.value.files[i] == files[i].(path := ArchivePath(r.value.prefix, files[i].path))
  {
    hide Clean, JoinPath, ArchiveRootPrefix;
    var rootPrefix := ArchiveRootPrefix(cwd, rootPath);
    var namespaced := [];
    for i := 0 to |files|
      invariant |namespaced| == i
      invariant forall j :: 0 <= j < i ==> ValidRelative(files[j].path)
      invariant forall j :: 0 <= j < i ==> namespaced[j] == files[j].(path := ArchivePath(rootPrefix, files[j].path))
    {
      var relPath := Clean(files[i].path);
      if relPath == "." || IsAbs(relPath) || relPath == ".." || HasPrefix(relPath, "../") {
        return Err(files[i].path);
      }
      namespaced := namespaced + [files[i].(path := JoinPath(rootPrefix, relPath))];
    }
    return Ok(Namespaced(rootPrefix, namespaced));
  }

  // ---- pkg/scanner/diff.go -----------------------------------------------------------------

  predicate PathInRoot(path: string, root: string) {
    var cleanPath, cleanRoot := Clean(path), Clean(root);
    cleanPath != cleanRoot && HasPrefix(cleanPath, cleanRoot + "/")
  }

  // ---- internal/agent/transport/pusher.go --------------------------------------------------

  function SourcePath(prefix: string, archivePath: string): Result<string, string> {
    var cleanPath := Clean(archivePath);
    if prefix == "" then Ok(cleanPath)
    else
      var cleanPrefix := Clean(prefix);
      if cleanPath == cleanPrefix || !HasPrefix(cleanPath, cleanPrefix + "/") then Err(archivePath)
      else Ok(cleanPath[|cleanPrefix| + 1..])
  }

  // ---- internal/server/receiver/receiver.go ------------------------------------------------

  function TargetPath(baseDir: string, relPath: string): Result<string, string> {
    var cleanPath := Clean(relPath);
    if relPath == "" || cleanPath == "." || IsAbs(relPath) || Climbs(cleanPath) then Err(relPath)
    else
      var target := JoinPath(baseDir, cleanPath);
      if HasPrefix(target, baseDir + "/") then Ok(target) else Err(relPath)
  }

  /** The dataset-relative name a raw wire path stands for, when the server accepts it. */
  function TargetKey(relPath: string): Option<string> {
    var cleanPath := Clean(relPath);
    if relPath == "" || cleanPath == "." || IsAbs(relPath) || Climbs(cleanPath) then None
    else Some(cleanPath)
  }

  // ---- internal/agent/orchestrator/orchestrator.go -----------------------------------------

  function CommonPrefix(a: seq<string>, b: seq<string>): (n: nat)
    ensures n <= |a| && n <= |b| && a[..n] == b[..n]
    ensures n < |a| && n < |b| ==> a[n] != b[n]
  {
    if a == [] || b == [] || a[0] != b[0] then 0 else 1 + CommonPrefix(a[1..], b[1..])
  }

  // filepath.Rel
  function Rel(base: string, target: string): Result<string, string> {
    var b, t := Components(base), Components(target);
    var n := CommonPrefix(b, t);
    if IsAbs(base) != IsAbs(target) || (n < |b| && b[n] == "..") then Err(target)
    else Ok(Render(false, seq(|b| - n, _ => "..") + t[n..]))
  }

  predicate HasPathPrefix(path: string, prefix: string) {
    var rel := Rel(prefix, path);
    rel.Ok? && rel.value != "." && !IsAbs(rel.value) && !Climbs(rel.value)
  }

  function RestoreTargetPath(root: string, path: string): Result<string, string> {
    var cleanPath := Clean(path);
    var below := if IsAbs(cleanPath) then cleanPath[1..] else cleanPath;
    var target := JoinPath(root, below);
    if target != root && !HasPathPrefix(target, root) then Err(path) else Ok(target)
  }

  /** A directory the restore or the server may be rooted at. */
  predicate BaseDir(p: string) { IsAbs(p) && Clean(p) == p && p != "/" }

  // ---- what the guards accept --------------------------------------------------------------

  lemma {:induction false} BaseComponents(p: string)
    requires BaseDir(p)
    ensures Components(p) != [] && p == "/" + Join(Components(p)) && Normal(true, Components(p))
  {
    ComponentsNormal(p);
  }

  lemma {:induction false} ValidRelativeIff(p: string)
    ensures ValidRelative(p) <==> IsArchivePath(Clean(p))
    ensures ValidRelative(p) ==> Components(p) == Components(Clean(p)) && Downward(Components(p))
  {
    CleanFixed(p);
    if IsArchivePath(Clean(p)) { ArchiveComponents(Clean(p)); }
  }

  /** A relative path is an archive path once cleaned exactly if, part by part, it never leads above its
      start and ends below it. */
  lemma {:induction false} StaysInside(p: string)
    requires !IsAbs(p)
    ensures IsArchivePath(Clean(p)) <==> NeverAbove(Split(p)) && Level(Split(p)) > 0
  {
    hide Normalize, NeverAbove, Level;
    CleanFixed(p);
    LevelIs(Split(p));
    if IsArchivePath(Clean(p)) { ArchiveComponents(Clean(p)); }
    if Components(p) != [] && Downward(Components(p)) { ArchiveFromComponents(Components(p)); }
  }

  /** The server accepts exactly the relative raw paths that, part by part, never lead above the dataset and
      end below it: those whose cleaned form is an archive path. It stores the file strictly below the
      dataset directory; its second check never fires. */
  lemma {:induction false} TargetPathAccepts(baseDir: string, relPath: string)
    requires BaseDir(baseDir)
    ensures TargetPath(baseDir, relPath).Ok? <==> TargetKey(relPath).Some?
    ensures TargetKey(relPath).Some? <==> IsArchivePath(Clean(relPath)) && !IsAbs(relPath)
    ensures TargetKey(relPath).Some? <==>
      !IsAbs(relPath) && NeverAbove(Split(relPath)) && Level(Split(relPath)) > 0
    ensures TargetKey(relPath).Some? ==>
      TargetPath(baseDir, relPath) == Ok(baseDir + "/" + TargetKey(relPath).value)
  {
    hide Clean, JoinPath, Components, NeverAbove, Level;
    CleanFixed(relPath);
    CleanEmpty();
    if !IsAbs(relPath) { StaysInside(relPath); }
    if TargetKey(relPath).Some? {
      JoinBelowBase(baseDir, Clean(relPath));
    }
  }

  lemma {:induction false} CleanEmpty()
    ensures Clean("") == "."
  {
    SplitNoSep("");
    assert Normalize(false, [], [""]) == Normalize(false, [], [""][1..]);
  }

  lemma {:induction false} JoinBelowBase(baseDir: string, rel: string)
    requires BaseDir(baseDir) && IsArchivePath(rel)
    ensures JoinPath(baseDir, rel) == baseDir + "/" + rel
    ensures IsAbs(JoinPath(baseDir, rel)) && Components(JoinPath(baseDir, rel)) == Components(baseDir) + Components(rel)
  {
    ArchiveNotEmpty(rel);
    hide Components, Clean, JoinPath, IsArchivePath, Downward, Normal;
    ArchiveComponents(rel);
    BaseComponents(baseDir);
    JoinPathComponents(baseDir, rel);
    JoinAppend(Components(baseDir), Components(rel));
  }

  lemma {:induction false} ArchiveNotEmpty(p: string)
    requires IsArchivePath(p)
    ensures p != "" && !IsAbs(p)
  {
    CleanEmpty();
  }

  /** The components of a relative path from b to t: up for what they do not share, then down. */
  function Steps(b: seq<string>, t: seq<string>): seq<string> {
    var n := CommonPrefix(b, t);
    seq(|b| - n, _ => "..") + t[n..]
  }

  lemma {:induction false} StepsNormal(b: seq<string>, t: seq<string>)
    requires Normal(true, b) && Normal(true, t)
    ensures Normal(false, Steps(b, t))
    ensures Steps(b, t) != [] && Steps(b, t)[0] != ".." <==> b < t
  {
    var n := CommonPrefix(b, t);
    var cs := Steps(b, t);
    forall i | 0 <= i < |cs| ensures PlainComponent(cs[i]) && (cs[i] == ".." ==> i < |b| - n) {
      if i >= |b| - n { assert cs[i] == t[n + i - (|b| - n)]; }
    }
    if n == |b| {
      assert cs == t[n..] && b == t[..n];
    } else {
      assert cs[0] == "..";
    }
  }

  /** A rendered component list leads strictly downward exactly if it does not begin by going up. */
  lemma {:induction false} RelMeans(cs: seq<string>)
    requires Normal(false, cs)
    ensures var rel := Render(false, cs); (rel != "." && !IsAbs(rel) && !Climbs(rel)) <==> (cs != [] && cs[0] != "..")
  {
    var rel := Render(false, cs);
    ComponentsRender(false, cs);
    ClimbsIff(rel);
    assert Clean(rel) == rel;
    SplitNoSep(".");
    assert Components(".") == [] by { assert Normalize(false, [], ["."]) == Normalize(false, [], ["."][1..]); }
  }

  lemma {:induction false} HasPathPrefixIff(path: string, prefix: string)
    requires IsAbs(path) && IsAbs(prefix)
    ensures HasPathPrefix(path, prefix) <==> Components(prefix) < Components(path)
  {
    hide Components, Render, Climbs, Clean, CommonPrefix;
    var b, t := Components(prefix), Components(path);
    ComponentsNormal(prefix);
    ComponentsNormal(path);
    StepsNormal(b, t);
    RelMeans(Steps(b, t));
    NoClimbing(b, CommonPrefix(b, t));
    assert Rel(prefix, path) == Ok(Render(false, Steps(b, t)));
  }

  lemma {:induction false} NoClimbing(b: seq<string>, n: nat)
    requires Normal(true, b)
    ensures n < |b| ==> b[n] != ".."
  {}

  /** Every archive path is restored at the same name below the restore root. */
  lemma {:induction false} RestoreTargetAccepts(root: string, p: string)
    requires BaseDir(root) && IsArchivePath(p)
    ensures RestoreTargetPath(root, p) == Ok(root + "/" + p)
  {
    ArchiveComponents(p);
    JoinBelowBase(root, p);
    HasPathPrefixIff(JoinPath(root, p), root);
  }

  /** What a restore makes of any raw path: the place it leads to from the root, refused exactly if that is
      neither the root nor below it. */
  lemma {:induction false} RestoreTargetIff(root: string, path: string)
    requires BaseDir(root)
    ensures var cs := Normalize(true, Components(root), Split(if IsAbs(path) then Clean(path)[1..] else Clean(path)));
      && (RestoreTargetPath(root, path).Ok? <==> Components(root) <= cs)
      && (RestoreTargetPath(root, path).Ok? ==> RestoreTargetPath(root, path) == Ok("/" + Join(cs)))
  {
    hide Normalize, HasPathPrefix, Split;
    CleanFixed(path);
    BaseComponents(root);
    var clean := Clean(path);
    var below := if IsAbs(clean) then clean[1..] else clean;
    var target := JoinPath(root, below);
    JoinBelow(root, below);
    HasPathPrefixIff(target, root);
    assert Components(target) == Components(root) <==> target == root;
    assert Components(root) <= Components(target) <==> target == root || Components(root) < Components(target);
  }

  lemma {:induction false} JoinBelow(root: string, below: string)
    requires BaseDir(root)
    ensures var cs := Normalize(true, Components(root), Split(below));
      IsAbs(JoinPath(root, below)) && Components(JoinPath(root, below)) == cs && JoinPath(root, below) == "/" + Join(cs)
  {
    hide Normalize, Split;
    if below == "" {
      SplitNoSep("");
      NormalizeSnoc(true, Components(root), [], "");
      assert [] + [""] == [""];
      NothingMore(Components(root));
      CleanFixed(root);
    } else {
      SplitConcat(root, below);
      NormalizeAppend(true, [], Split(root), Split(below));
      assert IsAbs(root + "/" + below);
      CleanFixed(root + "/" + below);
    }
  }

  lemma {:induction false} NothingMore(stack: seq<string>)
    ensures Normalize(true, stack, []) == stack
  {}

  // ---- the namespace is a bijection onto the paths below the root prefix ---------------------

  lemma {:induction false} PathInRootIff(path: string, root: string)
    requires IsArchivePath(path) && IsArchivePath(root)
    ensures PathInRoot(path, root) <==> Components(root) < Components(path)
    ensures PathInRoot(path, root) <==> root + "/" <= path
  {
    ArchiveComponents(path);
    ArchiveComponents(root);
    JoinPrefix(Components(root), Components(path));
  }

  lemma {:induction false} RootPrefixIsArchivePath(cwd: string, rootPath: string)
    requires IsAbs(cwd)
    ensures IsArchivePath(ArchiveRootPrefix(cwd, rootPath))
    ensures Clean(Absolute(cwd, rootPath)) != "/" ==>
      Components(ArchiveRootPrefix(cwd, rootPath)) == Components(Clean(Absolute(cwd, rootPath)))
    ensures IsAbs(rootPath) && Components(rootPath) != [] ==>
      Components(ArchiveRootPrefix(cwd, rootPath)) == Components(rootPath)
  {
    CleanFixed(rootPath);
    var abs := Absolute(cwd, rootPath);
    assert IsAbs(abs) by {
      CleanFixed(rootPath);
      CleanFixed(cwd);
      if rootPath != "" { CleanFixed(cwd + "/" + rootPath); }
    }
    CleanFixed(abs);
    ComponentsNormal(abs);
    var cs := Components(abs);
    if cs == [] {
      assert Join(cs) == "";
      SplitNoSep("_root");
      assert Join(["_root"]) == "_root";
      ArchiveFromComponents(["_root"]);
    } else {
      JoinStart(cs);
      assert ("/" + Join(cs))[1..] == Join(cs);
      ArchiveFromComponents(cs);
    }
  }

  /** A relative root is named like the absolute path it stands for, and leading up one directory, or staying
      where it is, comes to what it should. */
  lemma {:induction false} RelativeRootPrefix(x: string, c: string, y: string, other: string)
    requires IsAbs(x) && PlainComponent(c) && c != ".." && y != "" && !IsAbs(y)
    ensures ArchiveRootPrefix(x, y) == ArchiveRootPrefix(other, x + "/" + y)
    ensures ArchiveRootPrefix(x + "/" + c, "../" + y) == ArchiveRootPrefix(x, y)
    ensures ArchiveRootPrefix(x, c + "/../" + y) == ArchiveRootPrefix(x, y)
    ensures ArchiveRootPrefix(x, "./" + y) == ArchiveRootPrefix(x, y)
  {
    hide Components, Clean;
    DotDotCancels(x, c, y);
    DotVanishes(x, ".", y);
    assert x + "/" + c + "/" + ("../" + y) == x + "/" + c + "/../" + y;
    assert x + "/" + (c + "/../" + y) == x + "/" + c + "/../" + y;
    assert x + "/" + ("./" + y) == x + "/" + "." + "/" + y;
    assert !IsAbs("../" + y) && !IsAbs("./" + y);
    assert (c + "/../" + y)[0] == c[0] && c[0] in c;
    assert IsAbs(x + "/" + y);
    SameClean(x + "/" + c + "/../" + y, x + "/" + y);
    SameClean(x + "/" + "." + "/" + y, x + "/" + y);
  }

  lemma {:induction false} SameClean(p: string, q: string)
    requires IsAbs(p) == IsAbs(q) && Components(p) == Components(q)
    ensures Clean(p) == Clean(q)
  {}

  lemma {:induction false} ArchivePathComponents(prefix: string, rel: string)
    requires IsArchivePath(prefix) && ValidRelative(rel)
    ensures IsArchivePath(ArchivePath(prefix, rel))
    ensures Components(ArchivePath(prefix, rel)) == Components(prefix) + Components(rel)
    ensures ArchivePath(prefix, rel) == prefix + "/" + Clean(rel)
  {
    ValidRelativeIff(rel);
    ArchiveComponents(prefix);
    ArchiveComponents(Clean(rel));
    JoinPathComponents(prefix, Clean(rel));
    JoinAppend(Components(prefix), Components(rel));
    ArchiveFromComponents(Components(prefix) + Components(rel));
  }

  /** Naming and un-naming: the agent reads back the very relative path it scanned, and the server
      and the restore target both accept the name. */
  lemma {:induction false} NamespaceRoundTrip(prefix: string, rel: string, baseDir: string, root: string)
    requires IsArchivePath(prefix) && ValidRelative(rel) && BaseDir(baseDir) && BaseDir(root)
    ensures var a := ArchivePath(prefix, rel);
      && PathInRoot(a, prefix)
      && SourcePath(prefix, a) == Ok(Clean(rel))
      && TargetPath(baseDir, a) == Ok(baseDir + "/" + a)
      && RestoreTargetPath(root, a) == Ok(root + "/" + a)
  {
    var a := ArchivePath(prefix, rel);
    ArchivePathComponents(prefix, rel);
    PathInRootIff(a, prefix);
    TargetPathAccepts(baseDir, a);
    RestoreTargetAccepts(root, a);
    assert a[|prefix| + 1..] == Clean(rel);
  }

  /** The other direction: an archive path below the prefix is the name of exactly one relative path. */
  lemma {:induction false} NamespaceOnto(prefix: string, a: string)
    requires IsArchivePath(prefix) && IsArchivePath(a)
    ensures PathInRoot(a, prefix) <==> SourcePath(prefix, a).Ok?
    ensures SourcePath("", a) == Ok(a)
    ensures PathInRoot(a, prefix) ==>
      var rel := SourcePath(prefix, a).value; ValidRelative(rel) && Clean(rel) == rel && ArchivePath(prefix, rel) == a
  {
    ArchiveNotEmpty(prefix);
    PathInRootIff(a, prefix);
    if PathInRoot(a, prefix) {
      ArchiveComponents(a);
      ArchiveComponents(prefix);
      var rest := Components(a)[|Components(prefix)|..];
      assert Components(a) == Components(prefix) + rest;
      JoinAppend(Components(prefix), rest);
      ArchiveFromComponents(rest);
      var rel := Join(rest);
      assert a == prefix + "/" + rel;
      assert a[|prefix| + 1..] == rel;
      assert SourcePath(prefix, a) == Ok(rel);
      ArchivePathComponents(prefix, rel);
    }
  }

  /** Two roots related by neither containment nor equality. */
  ghost predicate Unrelated(p: string, q: string) {
    !(Components(p) <= Components(q)) && !(Components(q) <= Components(p))
  }

  /** Whatever lies below an archive path is an archive path once cleaned. */
  lemma {:induction false} BelowIsArchive(a: string, root: string)
    requires IsArchivePath(root) && PathInRoot(a, root)
    ensures IsArchivePath(Clean(a)) && PathInRoot(Clean(a), root)
  {
    hide Clean, Components, Render;
    CleanFixed(a);
    ArchiveNotEmpty(root);
    var c := Clean(a);
    assert root + "/" <= c;
    assert !IsAbs(c) by { assert c[0] == root[0]; }
    assert c[|root|] == '/';
    assert |root| == 2 ==> root == c[..2];
    assert |root| >= 3 ==> root[..3] == c[..3];
  }

  /** Unrelated roots never share a name: no path lies below both. */
  lemma {:induction false} UnrelatedRootsDisjoint(p: string, q: string, a: string)
    requires IsArchivePath(p) && IsArchivePath(q) && Unrelated(p, q)
    ensures !(PathInRoot(a, p) && PathInRoot(a, q))
  {
    if PathInRoot(a, p) {
      BelowIsArchive(a, p);
      PathInRootIff(Clean(a), p);
      PathInRootIff(Clean(a), q);
      CleanFixed(a);
      var cp, cq, ca := Components(p), Components(q), Components(Clean(a));
      assert |cp| <= |cq| && cq <= ca ==> cp <= cq;
      assert |cq| <= |cp| && cq <= ca ==> cq <= cp;
    }
  }

  /** Two source directories get the same prefix exactly when they are the same directory, or one
      is the file-system root and the other is the directory literally called /_root. */
  lemma {:induction false} RootPrefixCollision(cwd: string, r1: string, r2: string)
    requires IsAbs(cwd)
    ensures var d1, d2 := Clean(Absolute(cwd, r1)), Clean(Absolute(cwd, r2));
      ArchiveRootPrefix(cwd, r1) == ArchiveRootPrefix(cwd, r2) <==>
        d1 == d2 || (d1 == "/" && d2 == "/_root") || (d1 == "/_root" && d2 == "/")
  {
    var d1, d2 := Clean(Absolute(cwd, r1)), Clean(Absolute(cwd, r2));
    AbsoluteIsAbs(cwd, r1);
    AbsoluteIsAbs(cwd, r2);
    assert d1 == "/" + d1[1..] && d2 == "/" + d2[1..];
    assert "/_root"[1..] == "_root";
  }

  lemma {:induction false} AbsoluteIsAbs(cwd: string, p: string)
    requires IsAbs(cwd)
    ensures IsAbs(Clean(Absolute(cwd, p)))
  {
    CleanFixed(p);
    CleanFixed(cwd);
    CleanFixed(cwd + "/" + p);
    CleanFixed(Absolute(cwd, p));
  }
}
