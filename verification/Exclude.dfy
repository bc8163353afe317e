/** Exclude and protect patterns. */
module Exclude {
  import opened Paths

  const STAGING_NAME := ".sync-staging"
  const RESOURCES_NAME := ".resources"

  /** The pattern for a name anywhere on a path: `**`, the name, `**`. */
  function Anywhere(name: string): string {
    Slashed(["**", name, "**"])
  }

  /** The pattern for a name at the end of a path: `**`, the name. */
  function AtEnd(name: string): string {
    Slashed(["**", name])
  }

  const HARDCODED_EXCLUDES: seq<string> := [Anywhere(STAGING_NAME)]
  const PROTECTED_PATTERNS: seq<string> := [Anywhere(RESOURCES_NAME), AtEnd(RESOURCES_NAME)]

  /** How `doublestar.Match` treats a pattern with wildcards inside a component:
      any deterministic answer. A malformed pattern answers false. */
  type Glob = (string, string) -> bool

  predicate Literal(c: string) {
    forall i | 0 <= i < |c| :: c[i] !in "*?[{\\"
  }

  /** Patterns whose components are literal names or `**`. */
  predicate Plain(pattern: seq<string>) {
    forall i | 0 <= i < |pattern| :: pattern[i] == "**" || Literal(pattern[i])
  }

  /** Plain patterns component by component; `**` stands for any run of components. */
  predicate DoubleStar(pattern: seq<string>, path: seq<string>)
    decreases |pattern| + |path|
  {
    if pattern == [] then path == []
    else if pattern[0] == "**" then
      DoubleStar(pattern[1..], path) || (path != [] && DoubleStar(pattern, path[1..]))
    else path != [] && pattern[0] == path[0] && DoubleStar(pattern[1..], path[1..])
  }

  /** `doublestar.Match(pattern, path)`. */
  predicate Match(glob: Glob, pattern: string, path: string) {
    if Plain(Split(pattern)) then DoubleStar(Split(pattern), Split(path)) else glob(pattern, path)
  }

  /** `ShouldExclude`. */
  predicate ShouldExclude(glob: Glob, excludes: seq<string>, relPath: string) {
    exists pattern | pattern in excludes :: Match(glob, pattern, relPath)
  }

  /** `IsProtected`. */
  predicate IsProtected(glob: Glob, relPath: string) {
    ShouldExclude(glob, PROTECTED_PATTERNS, relPath)
  }

  lemma {:induction false} DoubleStarAny(path: seq<string>)
    ensures DoubleStar(["**"], path)
    decreases |path|
  {
    assert ["**"][1..] == [];
    if path != [] {
      DoubleStarAny(path[1..]);
    }
  }

  lemma DoubleStarSkip(rest: seq<string>, path: seq<string>)
    ensures DoubleStar(["**"] + rest, path) <==>
            DoubleStar(rest, path) || (path != [] && DoubleStar(["**"] + rest, path[1..]))
  {
    assert (["**"] + rest)[1..] == rest;
  }

  /** `**` stands for any run of components: the rest matches what is left after some of them. */
  lemma {:induction false} DoubleStarSplits(rest: seq<string>, path: seq<string>)
    ensures DoubleStar(["**"] + rest, path) <==> exists k | 0 <= k <= |path| :: DoubleStar(rest, path[k..])
    decreases |path|
  {
    DoubleStarSkip(rest, path);
    assert path[0..] == path;
    if path != [] {
      DoubleStarSplits(rest, path[1..]);
      forall k | 0 < k <= |path| ensures path[1..][k - 1..] == path[k..] {
      }
      if k :| 0 <= k <= |path[1..]| && DoubleStar(rest, path[1..][k..]) {
        assert path[1..][k..] == path[k + 1..];
      }
    }
  }

  /** Literal components match themselves, in place. */
  lemma {:induction false} LiteralsMatchThemselves(names: seq<string>, rest: seq<string>, path: seq<string>)
    requires "**" !in names
    ensures DoubleStar(names + rest, path) <==> names <= path && DoubleStar(rest, path[|names|..])
    decreases |names|
  {
    if names == [] {
      assert names + rest == rest && path[0..] == path;
    } else {
      assert (names + rest)[0] == names[0] && (names + rest)[1..] == names[1..] + rest;
      if path != [] {
        LiteralsMatchThemselves(names[1..], rest, path[1..]);
        if names <= path || (names[0] == path[0] && names[1..] <= path[1..]) {
          assert path[1..][|names| - 1..] == path[|names|..];
        }
      }
    }
  }

  /** An empty pattern matches the empty path only. */
  lemma NothingMatchesNothing(path: seq<string>)
    ensures DoubleStar([], path) <==> path == []
  {
  }

  /** `**` + `/name` matches the paths that end in the name. */
  lemma {:induction false} MatchLast(name: string, path: seq<string>)
    requires name != "**"
    ensures DoubleStar(["**", name], path) <==> path != [] && path[|path| - 1] == name
    decreases |path|
  {
    assert ["**", name] == ["**"] + [name];
    DoubleStarSkip([name], path);
    assert [name][1..] == [];
    if path != [] {
      MatchLast(name, path[1..]);
    }
  }

  /** `**` + `/name/` + `**` matches the paths that have the name as a component. */
  lemma {:induction false} MatchAnywhere(name: string, path: seq<string>)
    requires name != "**"
    ensures DoubleStar(["**", name, "**"], path) <==> name in path
    decreases |path|
  {
    assert ["**", name, "**"] == ["**"] + [name, "**"];
    DoubleStarSkip([name, "**"], path);
    assert [name, "**"][1..] == ["**"];
    if path != [] {
      DoubleStarAny(path[1..]);
      MatchAnywhere(name, path[1..]);
      assert path == [path[0]] + path[1..];
    }
  }

  lemma MatchPlain(glob: Glob, parts: seq<string>, path: string)
    requires parts != [] && SlashFree(parts) && Plain(parts)
    ensures Match(glob, Slashed(parts), path) <==> DoubleStar(parts, Split(path))
  {
    SplitSlashed(parts);
  }

  lemma MatchNamePatterns(glob: Glob, name: string, path: string)
    requires name != "**" && Literal(name) && '/' !in name
    ensures Match(glob, Anywhere(name), path) <==> name in Split(path)
    ensures Match(glob, AtEnd(name), path) ==> name in Split(path)
  {
    MatchPlain(glob, ["**", name, "**"], path);
    MatchPlain(glob, ["**", name], path);
    MatchAnywhere(name, Split(path));
    MatchLast(name, Split(path));
  }

  lemma MatchBothPatterns(glob: Glob, name: string, patterns: seq<string>, path: string)
    requires name != "**" && Literal(name) && '/' !in name
    requires patterns == [Anywhere(name), AtEnd(name)]
    ensures ShouldExclude(glob, patterns, path) <==> name in Split(path)
  {
    MatchNamePatterns(glob, name, path);
    assert patterns[0] in patterns;
  }

  /** A path is protected exactly when `.resources` is one of its components,
      so everything below a protected path is protected too. */
  lemma ProtectedIsResources(glob: Glob, relPath: string)
    ensures IsProtected(glob, relPath) <==> RESOURCES_NAME in Split(relPath)
  {
    MatchBothPatterns(glob, RESOURCES_NAME, PROTECTED_PATTERNS, relPath);
  }

  /** Every path with a `.sync-staging` component is excluded, whatever the user asked for. */
  lemma StagingIsExcluded(glob: Glob, excludes: seq<string>, relPath: string)
    requires HARDCODED_EXCLUDES[0] in excludes
    requires STAGING_NAME in Split(relPath)
    ensures ShouldExclude(glob, excludes, relPath)
  {
    MatchNamePatterns(glob, STAGING_NAME, relPath);
  }

  /** And on their own the hardcoded patterns exclude nothing else. */
  lemma OnlyStagingExcluded(glob: Glob, relPath: string)
    ensures ShouldExclude(glob, HARDCODED_EXCLUDES, relPath) <==> STAGING_NAME in Split(relPath)
  {
    MatchNamePatterns(glob, STAGING_NAME, relPath);
    assert HARDCODED_EXCLUDES[0] in HARDCODED_EXCLUDES;
  }

  // ------------------------------------------------------------ MergeExcludes

  predicate IsSpace(c: char) {
    c in " \t\n\r" || c == 11 as char || c == 12 as char
  }

  function TrimLeft(s: string): string {
    if s != "" && IsSpace(s[0]) then TrimLeft(s[1..]) else s
  }

  function TrimRight(s: string): string {
    if s != "" && IsSpace(s[|s| - 1]) then TrimRight(s[..|s| - 1]) else s
  }

  function TrimSpace(s: string): string {
    TrimRight(TrimLeft(s))
  }

  /** Trimming takes white space from both ends and nothing else. */
  lemma {:induction false} TrimSpaceMeans(s: string) returns (l: string, r: string)
    ensures s == l + TrimSpace(s) + r
    ensures forall c | c in l || c in r :: IsSpace(c)
    ensures TrimSpace(s) != "" ==> !IsSpace(TrimSpace(s)[0]) && !IsSpace(TrimSpace(s)[|TrimSpace(s)| - 1])
  {
    l := TrimLeftMeans(s);
    r := TrimRightMeans(TrimLeft(s));
  }

  lemma {:induction false} TrimLeftMeans(s: string) returns (l: string)
    ensures s == l + TrimLeft(s) && forall c | c in l :: IsSpace(c)
    ensures TrimLeft(s) != "" ==> !IsSpace(TrimLeft(s)[0])
  {
    l := "";
    if s != "" && IsSpace(s[0]) {
      var rest := TrimLeftMeans(s[1..]);
      l := [s[0]] + rest;
      assert s == [s[0]] + s[1..];
    }
  }

  lemma {:induction false} TrimRightMeans(s: string) returns (r: string)
    ensures s == TrimRight(s) + r && forall c | c in r :: IsSpace(c)
    ensures TrimRight(s) != "" ==> !IsSpace(TrimRight(s)[|TrimRight(s)| - 1])
    ensures TrimRight(s) != "" ==> TrimRight(s)[0] == s[0]
  {
    r := "";
    if s != "" && IsSpace(s[|s| - 1]) {
      var rest := TrimRightMeans(s[..|s| - 1]);
      r := rest + [s[|s| - 1]];
      assert s == s[..|s| - 1] + [s[|s| - 1]];
    }
  }

  /** The non-empty entries in the order of their first occurrence. */
  function FirstOccurrences(s: seq<string>): seq<string> {
    if s == [] then []
    else
      var r := FirstOccurrences(s[..|s| - 1]);
      var x := s[|s| - 1];
      if x == "" || x in r then r else r + [x]
  }

  /** Nothing is lost, nothing is listed twice. */
  lemma {:induction false} FirstOccurrencesElements(s: seq<string>, x: string)
    ensures x in FirstOccurrences(s) <==> x in s && x != ""
    ensures multiset(FirstOccurrences(s))[x] <= 1
  {
    if s != [] {
      FirstOccurrencesElements(s[..|s| - 1], x);
      assert s == s[..|s| - 1] + [s[|s| - 1]];
    }
  }

  lemma FirstOccurrencesStep(s: seq<string>, x: string)
    ensures FirstOccurrences(s + [x]) ==
            var r := FirstOccurrences(s); if x == "" || x in r then r else r + [x]
  {
    assert (s + [x])[..|s|] == s;
  }

  function Trimmed(s: seq<string>): (r: seq<string>)
    ensures |r| == |s|
  {
    seq(|s|, i requires 0 <= i < |s| => TrimSpace(s[i]))
  }

  /** `MergeExcludes`: the user's patterns, trimmed, then the hardcoded ones, each once. */
  method MergeExcludes(userExcludes: seq<string>) returns (result: seq<string>)
    ensures result == FirstOccurrences(Trimmed(userExcludes) + HARDCODED_EXCLUDES)
  {
    var hardcoded := HARDCODED_EXCLUDES;
    result := Merge(userExcludes, hardcoded);
  }

  method Merge(userExcludes: seq<string>, hardcoded: seq<string>) returns (result: seq<string>)
    requires "" !in hardcoded
    ensures result == FirstOccurrences(Trimmed(userExcludes) + hardcoded)
  {
    ghost var all := Trimmed(userExcludes);
    var seen: set<string> := {};
    result := [];
    for i := 0 to |userExcludes|
      invariant result == FirstOccurrences(all[..i])
      invariant forall x :: x in seen <==> x in result
    {
      var p := TrimSpace(userExcludes[i]);
      FirstOccurrencesStep(all[..i], p);
      assert all[..i + 1] == all[..i] + [p];
      if p == "" || p in seen {
        continue;
      }
      seen := seen + {p};
      result := result + [p];
    }
    assert all[..|all|] == all && all + hardcoded[..0] == all;
    for i := 0 to |hardcoded|
      invariant result == FirstOccurrences(all + hardcoded[..i])
      invariant forall x :: x in seen <==> x in result
    {
      var p := hardcoded[i];
      FirstOccurrencesStep(all + hardcoded[..i], p);
      assert all + hardcoded[..i + 1] == all + hardcoded[..i] + [p];
      if p !in seen {
        seen := seen + {p};
        result := result + [p];
      }
    }
    assert hardcoded[..|hardcoded|] == hardcoded;
  }

  /** The merged list holds every hardcoded pattern, and excludes exactly what
      the trimmed user patterns and the hardcoded ones exclude. */
  lemma MergedExcludes(glob: Glob, userExcludes: seq<string>, merged: seq<string>, relPath: string)
    requires merged == FirstOccurrences(Trimmed(userExcludes) + HARDCODED_EXCLUDES)
    ensures HARDCODED_EXCLUDES[0] in merged
    ensures ShouldExclude(glob, merged, relPath) <==>
            || ShouldExclude(glob, HARDCODED_EXCLUDES, relPath)
            || exists u | u in userExcludes :: TrimSpace(u) != "" && Match(glob, TrimSpace(u), relPath)
  {
    MergedLists(glob, userExcludes, HARDCODED_EXCLUDES, merged, relPath);
  }

  lemma MergedLists(glob: Glob, user: seq<string>, hardcoded: seq<string>, merged: seq<string>, relPath: string)
    requires merged == FirstOccurrences(Trimmed(user) + hardcoded) && "" !in hardcoded
    ensures forall x | x in hardcoded :: x in merged
    ensures ShouldExclude(glob, merged, relPath) <==>
            || ShouldExclude(glob, hardcoded, relPath)
            || exists u | u in user :: TrimSpace(u) != "" && Match(glob, TrimSpace(u), relPath)
  {
    var trimmed := Trimmed(user);
    forall x ensures x in merged <==> x != "" && (x in trimmed || x in hardcoded) {
      FirstOccurrencesElements(trimmed + hardcoded, x);
    }
    forall u | u in user ensures TrimSpace(u) in trimmed {
      var i :| 0 <= i < |user| && user[i] == u;
      assert trimmed[i] == TrimSpace(u);
    }
  }
}
