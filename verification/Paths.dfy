/** Slash-separated paths: the strings the sync engine tests, and the component
    sequences they stand for. */
module Paths {

  /** A relative path as its components; `[]` is the tree root, which the code writes ".". */
  type Path = seq<string>

  /** A component that can occur in a directory listing. */
  predicate IsName(s: string) {
    s != "" && s != "." && s != ".." && '/' !in s
  }

  predicate IsClean(p: Path) {
    forall i | 0 <= i < |p| :: IsName(p[i])
  }

  predicate SlashFree(p: seq<string>) {
    forall i | 0 <= i < |p| :: '/' !in p[i]
  }

  /** The components between slashes, empty ones included. */
  function Split(s: string): (parts: seq<string>)
    ensures |parts| >= 1 && SlashFree(parts)
  {
    if s == "" then [""]
    else
      var rest := Split(s[1..]);
      if s[0] == '/' then [""] + rest else [[s[0]] + rest[0]] + rest[1..]
  }

  /** Components joined with single slashes. */
  function Slashed(p: seq<string>): string {
    if p == [] then "" else if |p| == 1 then p[0] else p[0] + "/" + Slashed(p[1..])
  }

  /** A component path as the code prints it. */
  function Render(p: Path): string {
    if p == [] then "." else Slashed(p)
  }

  predicate HasPrefix(s: string, prefix: string) {
    prefix <= s
  }

  lemma {:induction false} SlashedSplit(s: string)
    ensures Slashed(Split(s)) == s
  {
    if s != "" {
      var rest := Split(s[1..]);
      SlashedSplit(s[1..]);
      if s[0] == '/' {
        assert ([""] + rest)[1..] == rest;
        assert Slashed([""] + rest) == "" + "/" + Slashed(rest);
      } else {
        var head := [[s[0]] + rest[0]];
        assert (head + rest[1..])[1..] == rest[1..];
        assert Slashed(head + rest[1..]) == [s[0]] + Slashed(rest);
      }
      assert s == [s[0]] + s[1..];
    }
  }

  lemma {:induction false} SplitName(s: string)
    requires '/' !in s
    ensures Split(s) == [s]
  {
    if s != "" {
      assert '/' !in s[1..];
      SplitName(s[1..]);
      assert s == [s[0]] + s[1..];
    }
  }

  /** One unfolding of `Split`. */
  lemma SplitOnce(s: string, rest: seq<string>)
    requires s != "" && rest == Split(s[1..])
    ensures Split(s) == if s[0] == '/' then [""] + rest else [[s[0]] + rest[0]] + rest[1..]
  {
  }

  lemma PushOntoHead(c: char, ra: seq<string>, rb: seq<string>)
    requires ra != []
    ensures [[c] + (ra + rb)[0]] + (ra + rb)[1..] == [[c] + ra[0]] + ra[1..] + rb
  {
    assert (ra + rb)[1..] == ra[1..] + rb;
  }

  /** Splitting at a slash splits both sides on their own. */
  lemma {:induction false} SplitAtSlash(a: string, b: string)
    ensures Split(a + "/" + b) == Split(a) + Split(b)
  {
    hide *;
    var s := a + "/" + b;
    if a == "" {
      SplitName(a);
      SplitOnce(s, Split(b)) by {
        assert s[1..] == b;
      }
    } else {
      var ra, rb := Split(a[1..]), Split(b);
      SplitAtSlash(a[1..], b);
      SplitOnce(s, ra + rb) by {
        assert s[1..] == a[1..] + "/" + b;
      }
      SplitOnce(a, ra);
      assert s[0] == a[0];
      if a[0] == '/' {
        assert [""] + (ra + rb) == [""] + ra + rb;
      } else {
        PushOntoHead(a[0], ra, rb);
      }
    }
  }

  lemma {:induction false} SplitSlashed(p: seq<string>)
    requires p != [] && SlashFree(p)
    ensures Split(Slashed(p)) == p
  {
    SplitName(p[0]);
    if |p| > 1 {
      SplitSlashed(p[1..]);
      SplitAtSlash(p[0], Slashed(p[1..]));
      assert p == [p[0]] + p[1..];
    } else {
      assert p == [p[0]];
    }
  }

  lemma {:induction false} SlashedConcat(a: seq<string>, b: seq<string>)
    requires a != [] && b != []
    ensures Slashed(a + b) == Slashed(a) + "/" + Slashed(b)
  {
    if |a| == 1 {
      assert (a + b)[1..] == b;
    } else {
      SlashedConcat(a[1..], b);
      assert (a + b)[1..] == a[1..] + b;
      assert Slashed(a) == a[0] + "/" + Slashed(a[1..]);
    }
  }

  /** The engine's test `rel == root || strings.HasPrefix(rel, root+"/")`. */
  predicate StringUnder(rel: string, root: string) {
    rel == root || HasPrefix(rel, root + "/")
  }

  /** The engine's test `strings.HasPrefix(root, rel+"/")`. */
  predicate StringAbove(rel: string, root: string) {
    HasPrefix(root, rel + "/")
  }

  lemma SlashedUnder(p: seq<string>, root: string)
    requires p != [] && SlashFree(p)
    ensures StringUnder(Slashed(p), root) <==> Split(root) <= p
  {
    var s := Slashed(p);
    var r := Split(root);
    SplitSlashed(p);
    SlashedSplit(root);
    if HasPrefix(s, root + "/") {
      var rest := s[|root| + 1..];
      assert s == root + "/" + rest;
      SplitAtSlash(root, rest);
    }
    if r <= p && r != p {
      SlashedConcat(r, p[|r|..]);
      assert p == r + p[|r|..];
    }
  }

  /** The string test is component-wise prefixing, whatever the root string looks like:
      a root `config` captures `config/x` and never `config2/x`. */
  lemma StringUnderIsPrefix(p: Path, root: string)
    requires p != [] && IsClean(p)
    ensures StringUnder(Render(p), root) <==> Split(root) <= p
  {
    SlashedUnder(p, root);
  }

  /** The ancestor test is the strict component-wise prefix the other way round. */
  lemma StringAboveIsPrefix(p: Path, root: string)
    requires p != [] && IsClean(p)
    ensures StringAbove(Render(p), root) <==> p < Split(root)
  {
    var s := Slashed(p);
    var r := Split(root);
    SplitSlashed(p);
    SlashedSplit(root);
    if HasPrefix(root, s + "/") {
      var rest := root[|s| + 1..];
      assert root == s + "/" + rest;
      SplitAtSlash(s, rest);
    }
    if p < r {
      SlashedConcat(p, r[|p|..]);
      assert r == p + r[|p|..];
    }
  }

  // ---------------------------------------------------------------- cleaning

  /** One component of `filepath.Clean`: "" and "." vanish, ".." takes back the
      component before it unless there is none left to take. */
  function CleanStep(acc: seq<string>, c: string, rooted: bool): seq<string> {
    if c == "" || c == "." then acc
    else if c != ".." then acc + [c]
    else if acc != [] && acc[|acc| - 1] != ".." then acc[..|acc| - 1]
    else if rooted then acc
    else acc + [c]
  }

  function CleanFrom(acc: seq<string>, parts: seq<string>, rooted: bool): seq<string>
    decreases |parts|
  {
    if parts == [] then acc else CleanFrom(CleanStep(acc, parts[0], rooted), parts[1..], rooted)
  }

  /** The components of the cleaned relative path. */
  function Parts(s: string): Path {
    CleanFrom([], Split(s), false)
  }

  predicate IsAbs(s: string) {
    s != "" && s[0] == '/'
  }

  /** `filepath.Clean`. */
  function Clean(s: string): string {
    if IsAbs(s) then "/" + Slashed(CleanFrom([], Split(s[1..]), true)) else Render(Parts(s))
  }

  /** Names survive cleaning untouched. */
  lemma {:induction false} CleanFromNames(acc: seq<string>, names: Path, rooted: bool)
    requires IsClean(names)
    ensures CleanFrom(acc, names, rooted) == acc + names
    decreases |names|
  {
    if names != [] {
      CleanFromNames(acc + [names[0]], names[1..], rooted);
      assert acc + [names[0]] + names[1..] == acc + names;
    }
  }

  lemma {:induction false} CleanFromConcat(acc: seq<string>, a: seq<string>, b: seq<string>, rooted: bool)
    ensures CleanFrom(acc, a + b, rooted) == CleanFrom(CleanFrom(acc, a, rooted), b, rooted)
    decreases |a|
  {
    if a == [] {
      assert a + b == b;
    } else {
      assert (a + b)[1..] == a[1..] + b;
      CleanFromConcat(CleanStep(acc, a[0], rooted), a[1..], b, rooted);
    }
  }

  lemma PartsOfRender(p: Path)
    requires IsClean(p)
    ensures Parts(Render(p)) == p
  {
    if p == [] {
      SplitName(".");
      assert Parts(".") == CleanFrom([], [], false);
    } else {
      SplitSlashed(p);
      CleanFromNames([], p, false);
    }
  }

  /** A cleaned relative path: a run of ".." and then names only. */
  ghost predicate DotDotsThenNames(p: seq<string>, k: nat) {
    && k <= |p|
    && (forall i | 0 <= i < k :: p[i] == "..")
    && IsClean(p[k..])
  }

  ghost predicate Cleaned(p: seq<string>) {
    exists k: nat :: DotDotsThenNames(p, k)
  }

  lemma {:induction false} CleanFromCleaned(acc: seq<string>, parts: seq<string>)
    requires Cleaned(acc) && SlashFree(parts)
    ensures Cleaned(CleanFrom(acc, parts, false))
    decreases |parts|
  {
    if parts != [] {
      var k: nat :| DotDotsThenNames(acc, k);
      var next := CleanStep(acc, parts[0], false);
      if next == acc + [parts[0]] {
        if parts[0] == ".." && k == |acc| {
          assert next[k + 1..] == [];
          assert DotDotsThenNames(next, k + 1);
        } else {
          if parts[0] == ".." {
            assert false;
          }
          assert next[k..] == acc[k..] + [parts[0]];
          assert DotDotsThenNames(next, k);
        }
      } else if next != acc {
        assert k < |acc|;
        assert next[k..] == acc[k..][..|acc| - k - 1];
        assert DotDotsThenNames(next, k);
      }
      CleanFromCleaned(next, parts[1..]);
    }
  }

  /** Cleaning leaves ".." only as a leading run. */
  lemma PartsCleaned(s: string)
    ensures Cleaned(Parts(s))
  {
    assert DotDotsThenNames([], 0);
    CleanFromCleaned([], Split(s));
  }
}
