/** The directory walk of a scan: what it collects, what it reports as an error, and what skipping an
    excluded directory amounts to. */
module Scan {
  import opened Model
  import opened Paths
  import opened Glob

  /** What can be learnt of a file: everything, everything but its content, or nothing. */
  datatype Access = Fine | NoHash | NoInfo

  /** `listed` is false when reading the directory failed; the entries are then those read before. */
  datatype Node =
    | Regular(content: Bytes, mode: Mode, mtime: int, access: Access)
    | Special(access: Access)
    | Dir(entries: seq<Entry>, listed: bool)

  datatype Entry = Entry(name: string, node: Node)

  /** Whether a relative path is excluded. */
  type Excludes = string -> bool

  function Excluding(fm: NameMatch, patterns: seq<string>): Excludes { rel => Match(fm, patterns, rel) }

  // filepath.Rel of a path found in the walk
  function RelOf(cs: seq<string>): string { if cs == [] then "." else Join(cs) }

  // ---- the walk as functions -----------------------------------------------------------------

  function InfoAt(rel: string, node: Node, digest: Digest): FileInfo
    requires node.Regular?
  {
    FileInfo(rel, |node.content|, node.mtime, Perm(node.mode),
      if node.access == NoHash then [] else digest(node.content))
  }

  function Files(node: Node, cs: seq<string>, excl: Excludes, digest: Digest): seq<FileInfo>
    decreases node, if node.Dir? then |node.entries| + 1 else 0
  {
    if excl(RelOf(cs)) then []
    else match node
      case Regular(_, _, _, access) => if access == NoInfo then [] else [InfoAt(RelOf(cs), node, digest)]
      case Special(_) => []
      case Dir(entries, _) => FilesIn(node, |entries|, cs, excl, digest)
  }

  /** The files below the first n entries of a directory. */
  function FilesIn(dir: Node, n: nat, cs: seq<string>, excl: Excludes, digest: Digest): seq<FileInfo>
    requires dir.Dir? && n <= |dir.entries|
    decreases dir, n
  {
    if n == 0 then []
    else
      var e := dir.entries[n - 1];
      FilesIn(dir, n - 1, cs, excl, digest) + Files(e.node, cs + [e.name], excl, digest)
  }

  function Errors(node: Node, cs: seq<string>, excl: Excludes): seq<string>
    decreases node, if node.Dir? then |node.entries| + 1 else 0
  {
    if excl(RelOf(cs)) then []
    else match node
      case Regular(_, _, _, access) => if access == Fine then [] else [RelOf(cs)]
      case Special(access) => if access == NoInfo then [RelOf(cs)] else []
      case Dir(entries, listed) => (if listed then [] else [RelOf(cs)]) + ErrorsIn(node, |entries|, cs, excl)
  }

  function ErrorsIn(dir: Node, n: nat, cs: seq<string>, excl: Excludes): seq<string>
    requires dir.Dir? && n <= |dir.entries|
    decreases dir, n
  {
    if n == 0 then []
    else
      var e := dir.entries[n - 1];
      ErrorsIn(dir, n - 1, cs, excl) + Errors(e.node, cs + [e.name], excl)
  }

  // ---- pkg/scanner/scanner.go ----------------------------------------------------------------

  class ScanResult {
    var files: seq<FileInfo>
    var errors: seq<string>

    constructor ()
      ensures files == [] && errors == []
    {
      files, errors := [], [];
    }

    /** The callback on one path, then the entries of a directory that was not skipped. */
    method Walk(node: Node, cs: seq<string>, excl: Excludes, digest: Digest)
      modifies this
      ensures files == old(files) + Files(node, cs, excl, digest)
      ensures errors == old(errors) + Errors(node, cs, excl)
      decreases node, if node.Dir? then |node.entries| + 1 else 0
    {
      if !excl(RelOf(cs)) {
        if node.Dir? { WalkDir(node, cs, excl, digest); } else { Collect(node, cs, excl, digest); }
      }
    }

    method WalkDir(dir: Node, cs: seq<string>, excl: Excludes, digest: Digest)
      requires dir.Dir? && !excl(RelOf(cs))
      modifies this
      ensures files == old(files) + Files(dir, cs, excl, digest)
      ensures errors == old(errors) + Errors(dir, cs, excl)
      decreases dir, |dir.entries|
    {
      hide *;
      DirUnfolds(dir, cs, excl, digest);
      if !dir.listed { errors := errors + [RelOf(cs)]; }
      ghost var before := errors;
      for n := 0 to |dir.entries|
        invariant files == old(files) + FilesIn(dir, n, cs, excl, digest)
        invariant errors == before + ErrorsIn(dir, n, cs, excl)
      {
        EntryUnfolds(dir, n, cs, excl, digest);
        Walk(dir.entries[n].node, cs + [dir.entries[n].name], excl, digest);
      }
    }

    method Collect(node: Node, cs: seq<string>, excl: Excludes, digest: Digest)
      requires !node.Dir? && !excl(RelOf(cs))
      modifies this
      ensures files == old(files) + Files(node, cs, excl, digest)
      ensures errors == old(errors) + Errors(node, cs, excl)
    {
      match node
      case Special(access) =>
        if access == NoInfo { errors := errors + [RelOf(cs)]; }
      case Regular(content, mode, mtime, access) =>
        if access == NoInfo {
          errors := errors + [RelOf(cs)];
        } else {
          var sha: Bytes := [];
          if access == NoHash { errors := errors + [RelOf(cs)]; } else { sha := digest(content); }
          files := files + [FileInfo(RelOf(cs), |content|, mtime, Perm(mode), sha)];
        }
    }
  }

  lemma {:induction false} DirUnfolds(dir: Node, cs: seq<string>, excl: Excludes, digest: Digest)
    requires dir.Dir? && !excl(RelOf(cs))
    ensures Files(dir, cs, excl, digest) == FilesIn(dir, |dir.entries|, cs, excl, digest)
    ensures Errors(dir, cs, excl) == (if dir.listed then [] else [RelOf(cs)]) + ErrorsIn(dir, |dir.entries|, cs, excl)
    ensures FilesIn(dir, 0, cs, excl, digest) == [] && ErrorsIn(dir, 0, cs, excl) == []
  {}

  lemma {:induction false} EntryUnfolds(dir: Node, n: nat, cs: seq<string>, excl: Excludes, digest: Digest)
    requires dir.Dir? && n < |dir.entries|
    ensures var e := dir.entries[n];
      && FilesIn(dir, n + 1, cs, excl, digest) ==
            FilesIn(dir, n, cs, excl, digest) + Files(e.node, cs + [e.name], excl, digest)
      && ErrorsIn(dir, n + 1, cs, excl) == ErrorsIn(dir, n, cs, excl) + Errors(e.node, cs + [e.name], excl)
  {}

  // ---- what the walk collects ----------------------------------------------------------------

  function Find(dir: Node, n: nat, name: string): Option<Node>
    requires dir.Dir? && n <= |dir.entries|
    decreases n
  {
    if n == 0 then None
    else if dir.entries[n - 1].name == name then Some(dir.entries[n - 1].node)
    else Find(dir, n - 1, name)
  }

  /** The node at a list of names below a node. */
  function At(node: Node, cs: seq<string>): Option<Node>
    decreases |cs|
  {
    if cs == [] then Some(node)
    else if !node.Dir? then None
    else match Find(node, |node.entries|, cs[0])
      case None => None
      case Some(child) => At(child, cs[1..])
  }

  /** Names are proper components and no directory lists one twice. */
  ghost predicate NamedTree(node: Node)
    decreases node
  {
    node.Dir? ==>
      && (forall i :: 0 <= i < |node.entries| ==> PlainComponent(node.entries[i].name) && node.entries[i].name != "..")
      && (forall i, j :: 0 <= i < j < |node.entries| ==> node.entries[i].name != node.entries[j].name)
      && (forall i :: 0 <= i < |node.entries| ==> NamedTree(node.entries[i].node))
  }

  /** Neither the path nor anything above it up to the root itself is excluded. */
  ghost predicate Clear(cs: seq<string>, rest: seq<string>, excl: Excludes) {
    forall k :: 0 <= k <= |rest| ==> !excl(RelOf(cs + rest[..k]))
  }

  ghost predicate Collected(node: Node, cs: seq<string>, rest: seq<string>, excl: Excludes) {
    At(node, rest).Some? && At(node, rest).value.Regular? && At(node, rest).value.access != NoInfo &&
      Clear(cs, rest, excl)
  }

  lemma {:induction false} FindAt(dir: Node, n: nat, i: nat)
    requires dir.Dir? && i < n <= |dir.entries| && NamedTree(dir)
    ensures Find(dir, n, dir.entries[i].name) == Some(dir.entries[i].node)
    decreases n
  {
    if i < n - 1 { FindAt(dir, n - 1, i); }
  }

  lemma {:induction false} FoundAt(dir: Node, n: nat, name: string) returns (i: nat)
    requires dir.Dir? && n <= |dir.entries| && Find(dir, n, name).Some?
    ensures i < n && dir.entries[i].name == name && Find(dir, n, name) == Some(dir.entries[i].node)
    decreases n
  {
    if dir.entries[n - 1].name == name { i := n - 1; } else { i := FoundAt(dir, n - 1, name); }
  }

  lemma {:induction false} ClearStep(cs: seq<string>, name: string, rest: seq<string>, excl: Excludes)
    ensures Clear(cs, [name] + rest, excl) <==> !excl(RelOf(cs)) && Clear(cs + [name], rest, excl)
  {
    var all := [name] + rest;
    assert cs + all[..0] == cs;
    forall k | 0 <= k <= |rest| ensures cs + all[..k + 1] == (cs + [name]) + rest[..k] {}
    if Clear(cs, all, excl) {
      forall k | 0 <= k <= |rest| ensures !excl(RelOf((cs + [name]) + rest[..k])) {
        assert !excl(RelOf(cs + all[..k + 1]));
      }
    }
    if !excl(RelOf(cs)) && Clear(cs + [name], rest, excl) {
      forall k | 0 <= k <= |all| ensures !excl(RelOf(cs + all[..k])) {
        if k > 0 { assert !excl(RelOf((cs + [name]) + rest[..k - 1])); }
      }
    }
  }

  /** Everything collected is a regular file at some place that is clear all the way down. */
  lemma {:induction false} CollectedOnly(node: Node, cs: seq<string>, excl: Excludes, digest: Digest, f: FileInfo)
    returns (rest: seq<string>)
    requires NamedTree(node) && f in Files(node, cs, excl, digest)
    ensures Collected(node, cs, rest, excl) && f == InfoAt(RelOf(cs + rest), At(node, rest).value, digest)
    decreases node, if node.Dir? then |node.entries| + 1 else 0
  {
    if node.Dir? {
      rest := CollectedOnlyIn(node, |node.entries|, cs, excl, digest, f);
    } else {
      rest := [];
      assert cs + rest == cs && rest[..0] == [];
    }
  }

  lemma {:induction false} CollectedOnlyIn(dir: Node, n: nat, cs: seq<string>, excl: Excludes, digest: Digest,
                                           f: FileInfo) returns (rest: seq<string>)
    requires dir.Dir? && n <= |dir.entries| && NamedTree(dir) && !excl(RelOf(cs))
    requires f in FilesIn(dir, n, cs, excl, digest)
    ensures Collected(dir, cs, rest, excl) && f == InfoAt(RelOf(cs + rest), At(dir, rest).value, digest)
    decreases dir, n
  {
    var e := dir.entries[n - 1];
    if f in FilesIn(dir, n - 1, cs, excl, digest) {
      rest := CollectedOnlyIn(dir, n - 1, cs, excl, digest, f);
    } else {
      var below := CollectedOnly(e.node, cs + [e.name], excl, digest, f);
      rest := [e.name] + below;
      ClearStep(cs, e.name, below, excl);
      FindAt(dir, |dir.entries|, n - 1);
      assert rest[1..] == below;
      assert cs + rest == (cs + [e.name]) + below;
    }
  }

  /** Every such file is collected. */
  lemma {:induction false} AllCollected(node: Node, cs: seq<string>, rest: seq<string>, excl: Excludes, digest: Digest)
    requires NamedTree(node) && Collected(node, cs, rest, excl)
    ensures InfoAt(RelOf(cs + rest), At(node, rest).value, digest) in Files(node, cs, excl, digest)
    decreases |rest|
  {
    hide InfoAt, RelOf;
    if rest == [] {
      assert cs + rest[..0] == cs && cs + rest == cs;
    } else {
      hide Files, FilesIn, Clear, Errors, ErrorsIn;
      var i := FoundAt(node, |node.entries|, rest[0]);
      var e := node.entries[i];
      assert rest == [e.name] + rest[1..];
      ClearStep(cs, e.name, rest[1..], excl);
      AllCollected(e.node, cs + [e.name], rest[1..], excl, digest);
      assert cs + rest == (cs + [e.name]) + rest[1..];
      EntryIncluded(node, |node.entries|, i, cs, excl, digest, InfoAt(RelOf(cs + rest), At(node, rest).value, digest));
      DirUnfolds(node, cs, excl, digest);
    }
  }

  lemma {:induction false} EntryIncluded(dir: Node, n: nat, i: nat, cs: seq<string>, excl: Excludes, digest: Digest,
                                         f: FileInfo)
    requires dir.Dir? && i < n <= |dir.entries|
    requires f in Files(dir.entries[i].node, cs + [dir.entries[i].name], excl, digest)
    ensures f in FilesIn(dir, n, cs, excl, digest)
    decreases n
  {
    if i < n - 1 { EntryIncluded(dir, n - 1, i, cs, excl, digest, f); }
  }

  /** What a scan returns, for any tree and any exclusion: exactly the regular files for which neither
      the path itself nor a directory above it, the root `.` included, is excluded. */
  lemma {:induction false} ScanExact(root: Node, excl: Excludes, digest: Digest, f: FileInfo)
    requires NamedTree(root)
    ensures f in Files(root, [], excl, digest) <==>
      exists cs :: Collected(root, [], cs, excl) && f == InfoAt(RelOf(cs), At(root, cs).value, digest)
  {
    if f in Files(root, [], excl, digest) {
      var cs := CollectedOnly(root, [], excl, digest, f);
      assert [] + cs == cs;
    }
    if cs :| Collected(root, [], cs, excl) && f == InfoAt(RelOf(cs), At(root, cs).value, digest) {
      AllCollected(root, [], cs, excl, digest);
      assert [] + cs == cs;
    }
  }

  // ---- what the walk reports -----------------------------------------------------------------

  /** All that the scan needs of a node could be had: of a regular file its metadata and its content, of a
      directory its whole listing, of anything else its metadata. */
  predicate Legible(node: Node) {
    match node
    case Regular(_, _, _, access) => access == Fine
    case Special(access) => access != NoInfo
    case Dir(_, listed) => listed
  }

  ghost predicate Reported(node: Node, cs: seq<string>, rest: seq<string>, excl: Excludes) {
    At(node, rest).Some? && !Legible(At(node, rest).value) && Clear(cs, rest, excl)
  }

  /** Every error is about a place that is clear all the way down and could not be read. */
  lemma {:induction false} ReportedOnly(node: Node, cs: seq<string>, excl: Excludes, p: string)
    returns (rest: seq<string>)
    requires NamedTree(node) && p in Errors(node, cs, excl)
    ensures Reported(node, cs, rest, excl) && p == RelOf(cs + rest)
    decreases node, if node.Dir? then |node.entries| + 1 else 0
  {
    hide RelOf;
    if node.Dir? && p in ErrorsIn(node, |node.entries|, cs, excl) {
      rest := ReportedOnlyIn(node, |node.entries|, cs, excl, p);
    } else {
      rest := [];
      assert cs + rest == cs && rest[..0] == [];
    }
  }

  lemma {:induction false} ReportedOnlyIn(dir: Node, n: nat, cs: seq<string>, excl: Excludes, p: string)
    returns (rest: seq<string>)
    requires dir.Dir? && n <= |dir.entries| && NamedTree(dir) && !excl(RelOf(cs)) && p in ErrorsIn(dir, n, cs, excl)
    ensures Reported(dir, cs, rest, excl) && p == RelOf(cs + rest)
    decreases dir, n
  {
    hide RelOf, Clear, Legible;
    var e := dir.entries[n - 1];
    if p in ErrorsIn(dir, n - 1, cs, excl) {
      rest := ReportedOnlyIn(dir, n - 1, cs, excl, p);
    } else {
      var below := ReportedOnly(e.node, cs + [e.name], excl, p);
      rest := [e.name] + below;
      ClearStep(cs, e.name, below, excl);
      FindAt(dir, |dir.entries|, n - 1);
      assert rest[1..] == below;
      assert cs + rest == (cs + [e.name]) + below;
    }
  }

  /** Every such place is reported. */
  lemma {:induction false} AllReported(node: Node, cs: seq<string>, rest: seq<string>, excl: Excludes)
    requires NamedTree(node) && Reported(node, cs, rest, excl)
    ensures RelOf(cs + rest) in Errors(node, cs, excl)
    decreases |rest|
  {
    if rest == [] {
      assert cs + rest[..0] == cs && cs + rest == cs;
    } else {
      hide Clear, RelOf, Legible;
      var i := FoundAt(node, |node.entries|, rest[0]);
      var e := node.entries[i];
      assert rest == [e.name] + rest[1..];
      ClearStep(cs, e.name, rest[1..], excl);
      AllReported(e.node, cs + [e.name], rest[1..], excl);
      assert cs + rest == (cs + [e.name]) + rest[1..];
      ErrorIncluded(node, |node.entries|, i, cs, excl, RelOf(cs + rest));
    }
  }

  lemma {:induction false} ErrorIncluded(dir: Node, n: nat, i: nat, cs: seq<string>, excl: Excludes, p: string)
    requires dir.Dir? && i < n <= |dir.entries|
    requires p in Errors(dir.entries[i].node, cs + [dir.entries[i].name], excl)
    ensures p in ErrorsIn(dir, n, cs, excl)
    decreases n
  {
    if i < n - 1 { ErrorIncluded(dir, n - 1, i, cs, excl, p); }
  }

  /** What a scan reports, for any tree and any exclusion: exactly the places that are not excluded, nor
      below anything excluded, and that could not be read. */
  lemma {:induction false} ErrorsExact(root: Node, excl: Excludes, p: string)
    requires NamedTree(root)
    ensures p in Errors(root, [], excl) <==> exists cs :: Reported(root, [], cs, excl) && p == RelOf(cs)
  {
    if p in Errors(root, [], excl) {
      var cs := ReportedOnly(root, [], excl, p);
      assert [] + cs == cs;
    }
    if cs :| Reported(root, [], cs, excl) && p == RelOf(cs) {
      AllReported(root, [], cs, excl);
      assert [] + cs == cs;
    }
  }

  /** A scan is free of errors exactly if everything that is not excluded could be read. */
  lemma {:induction false} ErrorFreeIff(root: Node, excl: Excludes)
    requires NamedTree(root)
    ensures Errors(root, [], excl) == [] <==>
      forall cs :: At(root, cs).Some? && Clear([], cs, excl) ==> Legible(At(root, cs).value)
  {
    hide Clear, Legible;
    var errors := Errors(root, [], excl);
    if errors != [] {
      var cs := ReportedOnly(root, [], excl, errors[0]);
    } else {
      forall cs | At(root, cs).Some? && Clear([], cs, excl) ensures Legible(At(root, cs).value) {
        if Reported(root, [], cs, excl) { AllReported(root, [], cs, excl); }
      }
    }
  }

  // ---- names ---------------------------------------------------------------------------------

  lemma {:induction false} AtDownward(node: Node, cs: seq<string>)
    requires NamedTree(node) && At(node, cs).Some?
    ensures Downward(cs) && AllNoSep(cs)
    decreases |cs|
  {
    if cs != [] {
      var i := FoundAt(node, |node.entries|, cs[0]);
      AtDownward(node.entries[i].node, cs[1..]);
      assert cs == [cs[0]] + cs[1..];
    }
  }

  // ---- pruning against filtering -------------------------------------------------------------

  /** A regular file at cs that the matcher does not match. */
  ghost predicate Filtered(root: Node, cs: seq<string>, excl: Excludes) {
    At(root, cs).Some? && At(root, cs).value.Regular? && At(root, cs).value.access != NoInfo && !excl(RelOf(cs))
  }

  /** For patterns that name a component, skipping excluded directories keeps exactly the files the
      patterns do not match, provided no pattern matches the root itself; and if one does, nothing at
      all is kept. */
  lemma {:induction false} PrunedIsFiltered(root: Node, fm: NameMatch, patterns: seq<string>, cs: seq<string>)
    requires NamedTree(root) && Standard(fm) && AllSimple(patterns)
    ensures Collected(root, [], cs, Excluding(fm, patterns)) <==>
      Filtered(root, cs, Excluding(fm, patterns)) && !Match(fm, patterns, ".")
  {
    var excl := Excluding(fm, patterns);
    assert [] + cs[..0] == [] && [] + cs[..|cs|] == cs;
    if Collected(root, [], cs, excl) {
      assert !excl(RelOf([] + cs[..0]));
      assert !excl(RelOf([] + cs[..|cs|]));
    }
    if Filtered(root, cs, excl) && !Match(fm, patterns, ".") {
      AtDownward(root, cs);
      forall k | 0 <= k <= |cs| ensures !excl(RelOf([] + cs[..k])) {
        assert [] + cs[..k] == cs[..k];
        if k > 0 && Match(fm, patterns, Join(cs[..k])) { ExcludedBelow(fm, patterns, cs, k); }
      }
    }
  }

  /** `.*`, meant for hidden files, matches the root: such a scan reports no error and finds nothing, in
      any tree. */
  lemma {:induction false} HiddenPatternEmptiesScan(root: Node, fm: NameMatch, patterns: seq<string>, digest: Digest)
    requires Standard(fm) && ".*" in patterns
    ensures Files(root, [], Excluding(fm, patterns), digest) == [] && Errors(root, [], Excluding(fm, patterns)) == []
  {
    assert MatchName("*", "") by { assert MatchName("*"[1..], ""); }
    assert ".*"[1..] == "*" && "."[1..] == "";
    assert MatchName(".*", ".");
    assert Hit(fm, ".*", ".");
    assert MatchPattern(fm, ".*", ".");
    assert Match(fm, patterns, ".");
  }
}
