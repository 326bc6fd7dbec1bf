/** Lexical path arithmetic on Unix, as Go's `path/filepath` and `strings` compute it, reduced to
    sequences of components so that prefix tests on strings become prefix tests on sequences. */
module Paths {

  predicate NoSep(s: string) { '/' !in s }

  predicate AllNoSep(parts: seq<string>) { forall i :: 0 <= i < |parts| ==> NoSep(parts[i]) }

  predicate IsAbs(p: string) { p != "" && p[0] == '/' }

  // strings.Split(s, "/")
  function Split(s: string): (parts: seq<string>)
    ensures |parts| >= 1 && AllNoSep(parts)
  {
    if s == "" then [""]
    else
      var rest := Split(s[1..]);
      if s[0] == '/' then [""] + rest else [[s[0]] + rest[0]] + rest[1..]
  }

  // strings.Join(parts, "/")
  function Join(parts: seq<string>): string {
    if parts == [] then ""
    else if |parts| == 1 then parts[0]
    else parts[0] + "/" + Join(parts[1..])
  }

  lemma {:induction false} SplitNoSep(s: string)
    requires NoSep(s)
    ensures Split(s) == [s]
  {
    if s != "" {
      assert s[0] in s && forall c :: c in s[1..] ==> c in s;
      SplitNoSep(s[1..]);
      assert s == [s[0]] + s[1..];
    }
  }

  // The parts of a string, one character longer at the front.
  function Grow(c: char, parts: seq<string>): seq<string>
    requires parts != []
  {
    if c == '/' then [""] + parts else [[c] + parts[0]] + parts[1..]
  }

  lemma {:induction false} SplitGrow(c: char, s: string)
    ensures Split([c] + s) == Grow(c, Split(s))
  {
    assert ([c] + s)[1..] == s;
  }

  lemma {:induction false} GrowAppend(c: char, a: seq<string>, b: seq<string>)
    requires a != []
    ensures Grow(c, a + b) == Grow(c, a) + b
  {
    assert (a + b)[1..] == a[1..] + b;
  }

  lemma {:induction false} SplitConcat(x: string, y: string)
    ensures Split(x + "/" + y) == Split(x) + Split(y)
    decreases |x|
  {
    if x == "" {
      assert x + "/" + y == ['/'] + y;
      SplitGrow('/', y);
    } else {
      var c, r := x[0], x[1..];
      SplitConcat(r, y);
      assert x == [c] + r;
      assert x + "/" + y == [c] + (r + "/" + y);
      SplitGrow(c, r + "/" + y);
      SplitGrow(c, r);
      GrowAppend(c, Split(r), Split(y));
    }
  }

  lemma {:induction false} SplitJoin(parts: seq<string>)
    requires parts != [] && AllNoSep(parts)
    ensures Split(Join(parts)) == parts
  {
    SplitNoSep(parts[0]);
    if |parts| > 1 {
      SplitJoin(parts[1..]);
      SplitConcat(parts[0], Join(parts[1..]));
    }
  }

  lemma {:induction false} JoinAppend(a: seq<string>, b: seq<string>)
    requires a != [] && b != []
    ensures Join(a + b) == Join(a) + "/" + Join(b)
  {
    if |a| > 1 {
      JoinAppend(a[1..], b);
      assert (a + b)[1..] == a[1..] + b;
    } else {
      assert (a + b)[1..] == b;
    }
  }

  // filepath.Clean: one pass over the components with a stack.
  function PushComponent(rooted: bool, stack: seq<string>, c: string): seq<string> {
    if c == "" || c == "." then stack
    else if c != ".." then stack + [c]
    else if stack != [] && stack[|stack| - 1] != ".." then stack[..|stack| - 1]
    else if rooted then stack
    else stack + [c]
  }

  function Normalize(rooted: bool, stack: seq<string>, parts: seq<string>): seq<string>
    decreases |parts|
  {
    if parts == [] then stack
    else Normalize(rooted, PushComponent(rooted, stack, parts[0]), parts[1..])
  }

  function Components(p: string): seq<string> { Normalize(IsAbs(p), [], Split(p)) }

  function Render(rooted: bool, cs: seq<string>): string {
    if rooted then "/" + Join(cs)
    else if cs == [] then "."
    else Join(cs)
  }

  function Clean(p: string): string { Render(IsAbs(p), Components(p)) }

  // filepath.Join of two elements: empty elements are ignored, the result is cleaned.
  function JoinPath(a: string, b: string): string {
    if a == "" then (if b == "" then "" else Clean(b))
    else if b == "" then Clean(a)
    else Clean(a + "/" + b)
  }

  predicate HasPrefix(s: string, prefix: string) { prefix <= s }

  predicate PlainComponent(c: string) { NoSep(c) && c != "" && c != "." }

  ghost predicate Normal(rooted: bool, cs: seq<string>) {
    && (forall i :: 0 <= i < |cs| ==> PlainComponent(cs[i]))
    && (forall i :: 0 <= i < |cs| && cs[i] == ".." ==> !rooted && forall j :: 0 <= j < i ==> cs[j] == "..")
  }

  /** A component list with no dot components at all: what a file below a directory has. */
  ghost predicate Downward(cs: seq<string>) {
    forall i :: 0 <= i < |cs| ==> PlainComponent(cs[i]) && cs[i] != ".."
  }

  lemma {:induction false} NormalizeNormal(rooted: bool, stack: seq<string>, parts: seq<string>)
    requires Normal(rooted, stack) && AllNoSep(parts)
    ensures Normal(rooted, Normalize(rooted, stack, parts))
    decreases |parts|
  {
    if parts != [] {
      var next := PushComponent(rooted, stack, parts[0]);
      if parts[0] == ".." && !(stack != [] && stack[|stack| - 1] != "..") && !rooted {
        assert forall j :: 0 <= j < |stack| ==> stack[j] == "..";
      }
      assert Normal(rooted, next);
      NormalizeNormal(rooted, next, parts[1..]);
    }
  }

  lemma {:induction false} ComponentsNormal(p: string)
    ensures Normal(IsAbs(p), Components(p))
  {
    NormalizeNormal(IsAbs(p), [], Split(p));
  }

  lemma {:induction false} NormalizeFixed(rooted: bool, stack: seq<string>, parts: seq<string>)
    requires Normal(rooted, stack + parts)
    ensures Normalize(rooted, stack, parts) == stack + parts
    decreases |parts|
  {
    if parts != [] {
      var whole := stack + parts;
      assert whole[|stack|] == parts[0];
      if parts[0] == ".." && stack != [] {
        assert whole[|stack| - 1] == "..";
      }
      assert PushComponent(rooted, stack, parts[0]) == stack + [parts[0]];
      assert stack + [parts[0]] + parts[1..] == whole;
      NormalizeFixed(rooted, stack + [parts[0]], parts[1..]);
    } else {
      assert stack + parts == stack;
    }
  }

  lemma {:induction false} NormalizeAppend(rooted: bool, stack: seq<string>, a: seq<string>, b: seq<string>)
    ensures Normalize(rooted, stack, a + b) == Normalize(rooted, Normalize(rooted, stack, a), b)
    decreases |a|
  {
    if a == [] {
      assert a + b == b;
    } else {
      assert (a + b)[1..] == a[1..] + b;
      NormalizeAppend(rooted, PushComponent(rooted, stack, a[0]), a[1..], b);
    }
  }

  lemma {:induction false} ComponentsRender(rooted: bool, cs: seq<string>)
    requires Normal(rooted, cs)
    ensures IsAbs(Render(rooted, cs)) == rooted
    ensures Components(Render(rooted, cs)) == cs
  {
    var text := Render(rooted, cs);
    if rooted {
      assert text == "" + "/" + Join(cs);
      SplitConcat("", Join(cs));
      assert Split(text) == [""] + Split(Join(cs));
      assert Split(text)[1..] == Split(Join(cs));
      assert Components(text) == Normalize(true, [], Split(Join(cs)));
    } else if cs == [] {
      SplitNoSep(".");
      assert Split(text) == ["."];
      assert Normalize(false, [], ["."]) == Normalize(false, [], ["."][1..]);
    } else {
      JoinStart(cs);
    }
    if cs == [] {
      if rooted {
        assert Join(cs) == "";
        assert Split("") == [""];
        assert Normalize(true, [], [""]) == Normalize(true, [], [""][1..]);
      }
    } else {
      SplitJoin(cs);
      assert [] + cs == cs;
      NormalizeFixed(rooted, [], cs);
    }
  }

  lemma {:induction false} JoinStart(cs: seq<string>)
    requires cs != [] && PlainComponent(cs[0])
    ensures Join(cs) != "" && Join(cs)[0] == cs[0][0] && Join(cs)[0] != '/'
  {
    assert cs[0][0] in cs[0];
  }

  /** Clean is idempotent: its result has the same components and is a fixed point. */
  lemma {:induction false} CleanFixed(p: string)
    ensures Clean(Clean(p)) == Clean(p)
    ensures IsAbs(Clean(p)) == IsAbs(p)
    ensures Components(Clean(p)) == Components(p)
  {
    ComponentsNormal(p);
    ComponentsRender(IsAbs(p), Components(p));
  }

  /** On rendered component lists the string test "has prefix a/" is exactly the proper-prefix
      relation of the lists. */
  lemma {:induction false} JoinPrefix(a: seq<string>, b: seq<string>)
    requires a != [] && b != [] && AllNoSep(a) && AllNoSep(b)
    ensures Join(a) + "/" <= Join(b) <==> a < b
  {
    SplitJoin(a);
    SplitJoin(b);
    if Join(a) + "/" <= Join(b) {
      var rest := Join(b)[|Join(a)| + 1..];
      assert Join(b) == Join(a) + "/" + rest;
      SplitConcat(Join(a), rest);
    }
    if a < b {
      var c := b[|a|..];
      assert b == a + c;
      JoinAppend(a, c);
    }
  }

  /** The guard every component of the system puts on relative paths. */
  predicate Climbs(clean: string) { clean == ".." || HasPrefix(clean, "../") }

  lemma {:induction false} ClimbsIff(p: string)
    requires !IsAbs(p)
    ensures Climbs(Clean(p)) <==> Components(p) != [] && Components(p)[0] == ".."
  {
    var cs := Components(p);
    ComponentsNormal(p);
    if cs != [] {
      JoinPrefix([".."], cs);
      if |cs| == 1 {
        assert Join(cs) == cs[0];
      } else if cs[0] == ".." {
        assert [".."] < cs;
      } else {
        SplitJoin(cs);
        if Clean(p) == ".." {
          SplitNoSep("..");
          assert false;
        }
      }
    }
  }

  /** A storage path: relative, already clean, and strictly below the dataset root. */
  predicate IsArchivePath(p: string) {
    Clean(p) == p && !IsAbs(p) && p != "." && !Climbs(p)
  }

  lemma {:induction false} ArchiveComponents(p: string)
    requires IsArchivePath(p)
    ensures Components(p) != [] && Downward(Components(p)) && p == Join(Components(p))
  {
    ComponentsNormal(p);
    ClimbsIff(p);
  }

  lemma {:induction false} ArchiveFromComponents(cs: seq<string>)
    requires cs != [] && Downward(cs)
    ensures IsArchivePath(Join(cs)) && Components(Join(cs)) == cs
  {
    ComponentsRender(false, cs);
    var p := Join(cs);
    assert Render(false, cs) == p;
    ClimbsIff(p);
    SplitJoin(cs);
    if p == "." {
      SplitNoSep(".");
      assert false;
    }
  }

  /** Joining a relative path without leading ".." to a non-empty clean base appends components. */
  lemma {:induction false} JoinPathComponents(base: string, rel: string)
    requires base != "" && rel != "" && !IsAbs(rel)
    requires Downward(Components(rel))
    ensures IsAbs(JoinPath(base, rel)) == IsAbs(base)
    ensures Components(JoinPath(base, rel)) == Components(base) + Components(rel)
    ensures JoinPath(base, rel) == Render(IsAbs(base), Components(base) + Components(rel))
  {
    var whole := base + "/" + rel;
    SplitConcat(base, rel);
    NormalizeAppend(IsAbs(base), [], Split(base), Split(rel));
    ComponentsNormal(base);
    NormalizeDownward(IsAbs(base), Components(base), [], Split(rel));
    assert Components(base) + [] == Components(base);
    assert Components(whole) == Components(base) + Components(rel);
    CleanFixed(whole);
  }

  /** Normalising on top of an existing stack, when the same parts normalise to a downward list. */
  lemma {:induction false} NormalizeDownward(rooted: bool, below: seq<string>, stack: seq<string>, parts: seq<string>)
    requires Normal(rooted, below) && AllNoSep(parts)
    requires Normal(false, stack) && Downward(Normalize(false, stack, parts)) && Downward(stack)
    ensures Normalize(rooted, below + stack, parts) == below + Normalize(false, stack, parts)
    decreases |parts|
  {
    if parts != [] {
      var c := parts[0];
      var next := PushComponent(false, stack, c);
      var both := below + stack;
      if c == ".." && stack == [] {
        assert next == [".."];
        LeadingStays(next, parts[1..]);
        assert false;
      }
      if stack != [] {
        assert both[|both| - 1] == stack[|stack| - 1];
      }
      assert PushComponent(rooted, both, c) == below + next;
      NormalizeNormal(false, stack, [c]);
      assert Normalize(false, stack, [c]) == next;
      NormalizeDownward(rooted, below, next, parts[1..]);
    }
  }

  /** Once a relative path starts with "..", no later component removes it. */
  lemma {:induction false} LeadingStays(stack: seq<string>, parts: seq<string>)
    requires stack != [] && stack[0] == ".."
    ensures Normalize(false, stack, parts) != [] && Normalize(false, stack, parts)[0] == ".."
    decreases |parts|
  {
    if parts != [] {
      LeadingStays(PushComponent(false, stack, parts[0]), parts[1..]);
    }
  }

  // ---- what cleaning does to the parts of a path ---------------------------------------------

  /** How far down one part leads. */
  function Descent(part: string): int {
    if part == "" || part == "." then 0 else if part == ".." then -1 else 1
  }

  function Level(parts: seq<string>): int
    decreases |parts|
  {
    if parts == [] then 0 else Level(parts[..|parts| - 1]) + Descent(parts[|parts| - 1])
  }

  /** Part by part, a path never leads above the place it starts from. */
  ghost predicate NeverAbove(parts: seq<string>) {
    forall k :: 0 <= k <= |parts| ==> Level(parts[..k]) >= 0
  }

  lemma {:induction false} NormalizeSnoc(rooted: bool, stack: seq<string>, parts: seq<string>, c: string)
    ensures Normalize(rooted, stack, parts + [c]) == PushComponent(rooted, Normalize(rooted, stack, parts), c)
  {
    NormalizeAppend(rooted, stack, parts, [c]);
    var next := Normalize(rooted, stack, parts);
    assert Normalize(rooted, next, [c]) == Normalize(rooted, PushComponent(rooted, next, c), [c][1..]);
  }

  lemma {:induction false} NeverAboveSnoc(before: seq<string>, c: string)
    ensures Level(before + [c]) == Level(before) + Descent(c)
    ensures NeverAbove(before + [c]) <==> NeverAbove(before) && Level(before + [c]) >= 0
    ensures NeverAbove(before) ==> Level(before) >= 0
  {
    hide Descent;
    var parts := before + [c];
    assert parts[..|before|] == before && before[..|before|] == before && parts[..|parts|] == parts;
    assert forall k :: 0 <= k <= |before| ==> parts[..k] == before[..k];
    if NeverAbove(parts) {
      forall k | 0 <= k <= |before| ensures Level(before[..k]) >= 0 { assert parts[..k] == before[..k]; }
    }
  }

  lemma {:induction false} PushLevel(stack: seq<string>, c: string)
    requires NoSep(c) && Downward(stack)
    ensures |stack| + Descent(c) >= 0 ==>
      Downward(PushComponent(false, stack, c)) && |PushComponent(false, stack, c)| == |stack| + Descent(c)
    ensures |stack| + Descent(c) < 0 ==> PushComponent(false, stack, c) == [".."]
  {}

  /** A path that never leads above its start keeps as many components as it has descended, none of them
      going up; any other begins by going up. */
  lemma {:induction false} LevelIs(parts: seq<string>)
    requires AllNoSep(parts)
    ensures NeverAbove(parts) ==>
      Downward(Normalize(false, [], parts)) && |Normalize(false, [], parts)| == Level(parts)
    ensures !NeverAbove(parts) ==> Normalize(false, [], parts) != [] && Normalize(false, [], parts)[0] == ".."
    decreases |parts|
  {
    hide Normalize, PushComponent, Descent, Downward, NoSep;
    if parts == [] {
      NothingToNormalize();
    } else {
      hide NeverAbove, Level;
      var before, c := parts[..|parts| - 1], parts[|parts| - 1];
      LevelIs(before);
      assert parts == before + [c];
      NormalizeSnoc(false, [], before, c);
      NeverAboveSnoc(before, c);
      var stack := Normalize(false, [], before);
      if NeverAbove(before) { PushLevel(stack, c); } else { StaysAbove(stack, c); }
    }
  }

  lemma {:induction false} StaysAbove(stack: seq<string>, c: string)
    requires stack != [] && stack[0] == ".."
    ensures PushComponent(false, stack, c) != [] && PushComponent(false, stack, c)[0] == ".."
  {}

  lemma {:induction false} NothingToNormalize()
    ensures Normalize(false, [], []) == [] && Downward([])
  {}

  lemma {:induction false} SamePath(x: string, y: string, c: string)
    requires NoSep(c)
    ensures IsAbs(x + "/" + c + "/" + y) == IsAbs(x + "/" + y)
    ensures var stack := Normalize(IsAbs(x + "/" + y), [], Split(x));
      && Components(x + "/" + y) == Normalize(IsAbs(x + "/" + y), stack, Split(y))
      && Components(x + "/" + c + "/" + y) ==
           Normalize(IsAbs(x + "/" + y), PushComponent(IsAbs(x + "/" + y), stack, c), Split(y))
  {
    hide Normalize, Split, PushComponent;
    var rooted := IsAbs(x + "/" + y);
    assert x != "" ==> (x + "/" + y)[0] == x[0] == (x + "/" + c + "/" + y)[0];
    SplitConcat(x, y);
    NormalizeAppend(rooted, [], Split(x), Split(y));
    SplitConcat(x + "/" + c, y);
    SplitConcat(x, c);
    SplitNoSep(c);
    NormalizeAppend(rooted, [], Split(x) + [c], Split(y));
    NormalizeSnoc(rooted, [], Split(x), c);
  }

  /** An empty part and a dot change nothing. */
  lemma {:induction false} DotVanishes(x: string, c: string, y: string)
    requires c == "" || c == "."
    ensures Components(x + "/" + c + "/" + y) == Components(x + "/" + y)
  {
    hide Normalize;
    SamePath(x, y, c);
  }

  /** A name followed by `..` cancels. */
  lemma {:induction false} DotDotCancels(x: string, c: string, y: string)
    requires PlainComponent(c) && c != ".."
    ensures Components(x + "/" + c + "/../" + y) == Components(x + "/" + y)
  {
    hide Normalize;
    var rooted := IsAbs(x + "/" + y);
    SamePath(x, "../" + y, c);
    SamePath(x, y, "..");
    assert x + "/" + c + "/" + ("../" + y) == x + "/" + c + "/../" + y;
    UpAgain(rooted, Normalize(rooted, [], Split(x)), c, y);
  }

  lemma {:induction false} UpAgain(rooted: bool, stack: seq<string>, c: string, y: string)
    requires PlainComponent(c) && c != ".."
    ensures Normalize(rooted, PushComponent(rooted, stack, c), Split("../" + y)) == Normalize(rooted, stack, Split(y))
  {
    SplitNoSep("..");
    SplitConcat("..", y);
    assert "../" + y == ".." + "/" + y;
    var parts := Split("../" + y);
    assert parts == [".."] + Split(y) && parts[1..] == Split(y);
    assert (stack + [c])[..|stack|] == stack;
    assert PushComponent(rooted, PushComponent(rooted, stack, c), "..") == stack;
  }

  /** The root is its own parent. */
  lemma {:induction false} RootIsOwnParent(y: string)
    ensures Components("/../" + y) == Components("/" + y)
  {
    hide Normalize;
    SamePath("", y, "..");
    assert "" + "/" + ".." + "/" + y == "/../" + y;
    SplitNoSep("");
    OnlyDots();
  }

  lemma {:induction false} OnlyDots()
    ensures Normalize(true, [], [""]) == [] && PushComponent(true, [], "..") == []
  {
    assert Normalize(true, [], [""]) == Normalize(true, [], [""][1..]);
  }

  /** A plain name at the end is one more component. */
  lemma {:induction false} NameAppended(x: string, c: string)
    requires PlainComponent(c) && c != ".."
    ensures Components(x + "/" + c) == Components(x + "/") + [c]
  {
    hide Normalize;
    SplitConcat(x, c);
    SplitConcat(x, "");
    SplitNoSep(c);
    SplitNoSep("");
    assert x + "/" + "" == x + "/";
    assert x != "" ==> (x + "/" + c)[0] == x[0] == (x + "/")[0];
    NormalizeSnoc(IsAbs(x + "/"), [], Split(x), c);
    NormalizeSnoc(IsAbs(x + "/"), [], Split(x), "");
  }
}
