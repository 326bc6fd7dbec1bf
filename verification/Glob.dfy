/** Exclude patterns: how a pattern is tried against a relative path and its components, and what that
    comes to for the patterns that name a component. */
module Glob {
  import opened Model
  import opened Paths

  /** filepath.Match as the matcher calls it, for a pattern and a name. None: the pattern is malformed. */
  type NameMatch = (string, string) -> Option<bool>

  /** The matcher ignores the error and takes a malformed pattern for one that does not match. */
  predicate Hit(fm: NameMatch, pattern: string, name: string) { fm(pattern, name) == Some(true) }

  /** No character class and no escape. */
  predicate Plain(pattern: string) { '[' !in pattern && '\\' !in pattern }

  /** The documented meaning of a plain pattern: `*` is any run of characters other than the separator,
      `?` is one such character, everything else is itself. */
  predicate MatchName(pattern: string, name: string)
    decreases |pattern| + |name|
  {
    if pattern == "" then name == ""
    else if pattern[0] == '*' then
      MatchName(pattern[1..], name) || (name != "" && name[0] != '/' && MatchName(pattern, name[1..]))
    else
      && name != ""
      && (if pattern[0] == '?' then name[0] != '/' else name[0] == pattern[0])
      && MatchName(pattern[1..], name[1..])
  }

  ghost predicate Standard(fm: NameMatch) {
    forall p, n :: Plain(p) ==> fm(p, n) == Some(MatchName(p, n))
  }

  const GLOBSTAR: string := "**/"

  // ---- pkg/glob/matcher.go -------------------------------------------------------------------

  /** glob.Compile accepts the patterns: none is empty, and none is malformed, which matching it against
      the empty name tells. */
  predicate Compiles(fm: NameMatch, patterns: seq<string>) {
    forall p | p in patterns :: p != "" && fm(p, "").Some?
  }

  /** Plain patterns always compile. */
  lemma {:induction false} PlainCompiles(fm: NameMatch, patterns: seq<string>)
    requires Standard(fm) && forall p :: p in patterns ==> Plain(p)
    ensures Compiles(fm, patterns) <==> "" !in patterns
  {
    forall p | p in patterns ensures fm(p, "").Some? {
      assert Plain(p);
      assert fm(p, "") == Some(MatchName(p, ""));
    }
  }

  predicate MatchPattern(fm: NameMatch, pattern: string, rel: string) {
    var parts := Split(rel);
    || Hit(fm, pattern, rel)
    || (if GLOBSTAR <= pattern then
          var rest := pattern[|GLOBSTAR|..];
          || (exists i | 0 <= i < |parts| :: Hit(fm, rest, Join(parts[i..])))
          || (NoSep(rest) && exists i | 0 <= i < |parts| :: Hit(fm, rest, parts[i]))
        else
          NoSep(pattern) && exists i | 0 <= i < |parts| :: Hit(fm, pattern, parts[i]))
  }

  predicate Match(fm: NameMatch, patterns: seq<string>, rel: string) {
    exists p | p in patterns :: MatchPattern(fm, p, rel)
  }

  // ---- patterns that name a component --------------------------------------------------------

  /** Plain, and without a separator except in a leading globstar. */
  predicate Simple(pattern: string) { Plain(pattern) && NoSep(Core(pattern)) }

  /** The pattern a component is compared with. */
  function Core(pattern: string): string {
    if GLOBSTAR <= pattern then pattern[|GLOBSTAR|..] else pattern
  }

  lemma {:induction false} Tail(c: char, s: string)
    requires s != ""
    ensures c !in s ==> c !in s[1..]
    ensures c !in s <==> s[0] != c && c !in s[1..]
  {
    assert s == [s[0]] + s[1..];
  }

  /** A plain pattern without a separator matches no name with one. */
  lemma {:induction false} NoSepMatch(pattern: string, name: string)
    requires NoSep(pattern) && MatchName(pattern, name)
    ensures NoSep(name)
    decreases |pattern| + |name|
  {
    if pattern != "" {
      Tail('/', pattern);
      if pattern[0] == '*' {
        if MatchName(pattern[1..], name) {
          NoSepMatch(pattern[1..], name);
        } else {
          NoSepMatch(pattern, name[1..]);
          Tail('/', name);
        }
      } else {
        NoSepMatch(pattern[1..], name[1..]);
        Tail('/', name);
      }
    }
  }

  /** What a leading star takes contains no separator. */
  lemma {:induction false} StarTakes(pattern: string, name: string) returns (k: nat)
    requires pattern != "" && pattern[0] == '*' && MatchName(pattern, name)
    ensures k <= |name| && NoSep(name[..k]) && MatchName(pattern[1..], name[k..])
    decreases |name|
  {
    if MatchName(pattern[1..], name) {
      k := 0;
      assert name[0..] == name;
    } else {
      var j := StarTakes(pattern, name[1..]);
      k := j + 1;
      assert name[k..] == name[1..][j..];
      assert name[..k] == [name[0]] + name[1..][..j];
    }
  }

  /** A globstar pattern tried directly takes exactly one component before the rest. */
  lemma {:induction false} GlobstarDirect(pattern: string, name: string) returns (k: nat)
    requires GLOBSTAR <= pattern && MatchName(pattern, name)
    ensures k < |name| && NoSep(name[..k]) && name[k] == '/' && MatchName(pattern[3..], name[k + 1..])
  {
    var i := StarTakes(pattern, name);
    var rest := name[i..];
    var j := StarTakes(pattern[1..], rest);
    k := i + j;
    assert name[..k] == name[..i] + rest[..j];
    assert pattern[1..][1..] == pattern[2..] && rest[j..] == name[k..];
    assert pattern[2..][1..] == pattern[3..] && name[k..][1..] == name[k + 1..];
    assert pattern[2..][0] == '/';
  }

  lemma {:induction false} JoinNoSep(cs: seq<string>)
    requires cs != [] && AllNoSep(cs) && NoSep(Join(cs))
    ensures |cs| == 1 && Join(cs) == cs[0]
  {
    SplitJoin(cs);
    SplitNoSep(Join(cs));
  }

  lemma {:induction false} SimpleDirect(pattern: string, cs: seq<string>)
    requires Simple(pattern) && cs != [] && AllNoSep(cs) && MatchName(pattern, Join(cs))
    ensures MatchName(Core(pattern), cs[|cs| - 1])
  {
    hide MatchName, Split, Join;
    if GLOBSTAR <= pattern {
      var name := Join(cs);
      var k := GlobstarDirect(pattern, name);
      NoSepMatch(Core(pattern), name[k + 1..]);
      assert name == name[..k] + "/" + name[k + 1..];
      SplitConcat(name[..k], name[k + 1..]);
      SplitNoSep(name[..k]);
      SplitNoSep(name[k + 1..]);
      SplitJoin(cs);
    } else {
      NoSepMatch(pattern, Join(cs));
      JoinNoSep(cs);
    }
  }

  lemma {:induction false} PlainCore(pattern: string)
    requires Plain(pattern)
    ensures Plain(Core(pattern))
  {}

  /** A simple pattern matches a path exactly if its core matches one of the components. */
  lemma {:induction false} SimpleMatchIff(fm: NameMatch, pattern: string, cs: seq<string>)
    requires Standard(fm) && Simple(pattern) && cs != [] && AllNoSep(cs)
    ensures MatchPattern(fm, pattern, Join(cs)) <==> exists i :: 0 <= i < |cs| && MatchName(Core(pattern), cs[i])
  {
    SplitJoin(cs);
    PlainCore(pattern);
    var core := Core(pattern);
    if Hit(fm, pattern, Join(cs)) { SimpleDirect(pattern, cs); }
    forall i | 0 <= i < |cs| && Hit(fm, core, Join(cs[i..])) ensures MatchName(core, cs[|cs| - 1]) {
      NoSepMatch(core, Join(cs[i..]));
      JoinNoSep(cs[i..]);
    }
  }

  /** A globstar pattern whose remainder has a separator matches a path exactly if the remainder matches one
      of its suffixes, the whole path included. */
  lemma {:induction false} GlobstarIff(fm: NameMatch, rest: string, cs: seq<string>)
    requires Standard(fm) && Plain(rest) && !NoSep(rest) && cs != [] && AllNoSep(cs)
    ensures MatchPattern(fm, GLOBSTAR + rest, Join(cs)) <==> exists i :: 0 <= i < |cs| && MatchName(rest, Join(cs[i..]))
  {
    var pattern, name := GLOBSTAR + rest, Join(cs);
    SplitJoin(cs);
    assert pattern[|GLOBSTAR|..] == rest;
    assert Plain(pattern);
    hide MatchName, Split, Join;
    if Hit(fm, pattern, name) {
      var k := GlobstarDirect(pattern, name);
      assert pattern[3..] == rest;
      assert name == name[..k] + "/" + name[k + 1..];
      SplitConcat(name[..k], name[k + 1..]);
      SplitNoSep(name[..k]);
      assert cs == [name[..k]] + Split(name[k + 1..]);
      assert cs[1..] == Split(name[k + 1..]);
      JoinSplit(name[k + 1..]);
      assert MatchName(rest, Join(cs[1..]));
    }
  }

  lemma {:induction false} JoinSplit(s: string)
    ensures Join(Split(s)) == s
  {
    if s != "" {
      JoinSplit(s[1..]);
      var rest := Split(s[1..]);
      assert s == [s[0]] + s[1..];
      if s[0] == '/' {
        assert ([""] + rest)[1..] == rest;
      } else {
        assert ([[s[0]] + rest[0]] + rest[1..])[1..] == rest[1..];
      }
    }
  }

  /** Any other pattern with a separator matches whole paths only. */
  lemma {:induction false} AnchoredIff(fm: NameMatch, pattern: string, rel: string)
    requires Standard(fm) && Plain(pattern) && !NoSep(pattern) && !(GLOBSTAR <= pattern)
    ensures MatchPattern(fm, pattern, rel) <==> MatchName(pattern, rel)
  {
    hide MatchName;
  }

  ghost predicate AllSimple(patterns: seq<string>) { forall p :: p in patterns ==> Simple(p) }

  /** With simple patterns, what is excluded stays excluded further down. */
  lemma {:induction false} ExcludedBelow(fm: NameMatch, patterns: seq<string>, cs: seq<string>, k: nat)
    requires Standard(fm) && AllSimple(patterns) && AllNoSep(cs) && 0 < k <= |cs|
    requires Match(fm, patterns, Join(cs[..k]))
    ensures Match(fm, patterns, Join(cs))
  {
    var p :| p in patterns && MatchPattern(fm, p, Join(cs[..k]));
    SimpleMatchIff(fm, p, cs[..k]);
    var i :| 0 <= i < k && MatchName(Core(p), cs[..k][i]);
    assert cs[..k][i] == cs[i];
    SimpleMatchIff(fm, p, cs);
  }
}
