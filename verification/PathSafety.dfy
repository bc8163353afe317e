/** The two path checks and what they keep out: the controller's on the spec, and the
    agent's on the resolved paths it joins to the repository and to the live directory. */
module PathSafety {
  import opened Options
  import opened Paths
  import opened SyncPlans
  import opened FileTrees

  predicate Contains(s: string, part: string) {
    exists i {:trigger s[i..]} | 0 <= i <= |s| :: part <= s[i..]
  }

  /** `validateResolvedPath` accepts the path. */
  predicate ValidateResolvedPath(path: string) {
    if IsAbs(path) then false
    else
      var cleaned := Clean(path);
      !(cleaned == ".." || HasPrefix(cleaned, "../") || Contains(cleaned, "/../"))
  }

  /** `validatePath` accepts the path: not absolute, and no ".." between its slashes. */
  predicate ValidatePath(path: string) {
    !IsAbs(path) && ".." !in Split(path)
  }

  // -------------------------------------------------------------- the agent's check

  /** The walk along the components, `depth` steps below the start, never climbs above it. */
  predicate StaysBelow(parts: seq<string>, depth: nat)
    decreases |parts|
  {
    parts == []
    || (if parts[0] == "" || parts[0] == "." then StaysBelow(parts[1..], depth)
        else if parts[0] == ".." then depth > 0 && StaysBelow(parts[1..], depth - 1)
        else StaysBelow(parts[1..], depth + 1))
  }

  lemma {:induction false} LeadingDotDotStays(acc: seq<string>, parts: seq<string>)
    requires acc != [] && acc[0] == ".."
    ensures var r := CleanFrom(acc, parts, false); r != [] && r[0] == ".."
    decreases |parts|
  {
    if parts != [] {
      LeadingDotDotStays(CleanStep(acc, parts[0], false), parts[1..]);
    }
  }

  lemma {:induction false} CleanMeansBelow(acc: Path, parts: seq<string>)
    requires IsClean(acc) && SlashFree(parts)
    ensures IsClean(CleanFrom(acc, parts, false)) <==> StaysBelow(parts, |acc|)
    decreases |parts|
  {
    if parts != [] {
      var next := CleanStep(acc, parts[0], false);
      if parts[0] == ".." && acc == [] {
        LeadingDotDotStays(next, parts[1..]);
      } else {
        CleanMeansBelow(next, parts[1..]);
      }
    }
  }

  lemma PartsSlashFree(path: string)
    ensures SlashFree(Parts(path))
    ensures IsClean(Parts(path)) <==> (Parts(path) == [] || Parts(path)[0] != "..")
    ensures forall k | 0 < k < |Parts(path)| && Parts(path)[k] == ".." :: Parts(path)[0] == ".."
  {
    PartsCleaned(path);
    var p := Parts(path);
    var k: nat :| DotDotsThenNames(p, k);
    forall i | k <= i < |p| ensures IsName(p[i]) {
      assert p[i] == p[k..][i - k];
    }
  }

  lemma SplitMiddle(a: string, c: string, b: string)
    requires '/' !in c
    ensures Split(a + ("/" + c + "/" + b)) == Split(a) + [c] + Split(b)
  {
    hide *;
    SplitName(c);
    SplitAtSlash(c, b);
    SplitAtSlash(a, c + "/" + b);
    assert a + ("/" + c + "/" + b) == a + "/" + (c + "/" + b);
  }

  lemma Cut(s: string, part: string) returns (a: string, b: string)
    requires Contains(s, part)
    ensures s == a + (part + b)
  {
    var i :| 0 <= i <= |s| && part <= s[i..];
    a, b := s[..i], s[i..][|part|..];
  }

  /** Where a string contains "/c/", one of its later components is `c`. */
  lemma InnerComponent(p: seq<string>, c: string)
    requires p != [] && SlashFree(p) && '/' !in c && Contains(Slashed(p), "/" + c + "/")
    ensures exists k :: 0 < k < |p| && p[k] == c
  {
    var a, b := Cut(Slashed(p), "/" + c + "/");
    SplitSlashed(p);
    SplitMiddle(a, c, b);
    assert p[|Split(a)|] == c;
  }

  /** The third test never decides: a cleaned relative path with "/../" inside starts with "../". */
  lemma InnerTestRedundant(path: string)
    requires !IsAbs(path) && Contains(Clean(path), "/../")
    ensures HasPrefix(Clean(path), "../")
  {
    var p := Parts(path);
    PartsSlashFree(path);
    if p == [] {
      assert false;
    }
    assert "/../" == "/" + ".." + "/";
    InnerComponent(p, "..");
    assert p[0] == "..";
    assert Slashed(p) == p[0] + "/" + Slashed(p[1..]);
  }

  /** The agent accepts exactly the relative paths whose components never climb above the start. */
  lemma AcceptedIffStaysBelow(path: string)
    ensures ValidateResolvedPath(path) <==> (!IsAbs(path) && StaysBelow(Split(path), 0))
    ensures ValidateResolvedPath(path) <==> (!IsAbs(path) && IsClean(Parts(path)))
  {
    CleanMeansBelow([], Split(path));
    if !IsAbs(path) {
      var p := Parts(path);
      PartsSlashFree(path);
      if p != [] {
        SplitName("..");
        SlashedUnder(p, "..");
        assert StringUnder(Slashed(p), "..") <==> (Slashed(p) == ".." || HasPrefix(Slashed(p), "../"));
      }
      if Contains(Clean(path), "/../") {
        InnerTestRedundant(path);
      }
    }
  }

  /** An absolute path is never accepted, by either check. */
  lemma AbsoluteIsRejected(path: string)
    requires path != "" && path[0] == '/'
    ensures !ValidateResolvedPath(path) && !ValidatePath(path)
  {
  }

  // ------------------------------------------------------------------------ joining

  /** `filepath.Join(base, path)` below the absolute directory with components `base`. */
  function Join(base: Path, path: string): string {
    Clean("/" + Slashed(base) + "/" + path)
  }

  lemma {:induction false} CleanTwice(base: Path, acc: seq<string>, parts: seq<string>)
    requires IsClean(base) && Cleaned(acc) && SlashFree(parts)
    ensures CleanFrom(CleanFrom(base, acc, true), parts, true)
         == CleanFrom(base, CleanFrom(acc, parts, false), true)
    decreases |parts|
  {
    if parts != [] {
      var next := CleanStep(acc, parts[0], false);
      CleanFromCleaned(acc, [parts[0]]);
      assert CleanFrom(acc, [parts[0]], false) == next;
      StepBelowBase(base, acc, parts[0]);
      CleanTwice(base, next, parts[1..]);
    }
  }

  lemma StepBelowBase(base: Path, acc: seq<string>, c: string)
    requires IsClean(base) && Cleaned(acc)
    ensures CleanStep(CleanFrom(base, acc, true), c, true) == CleanFrom(base, CleanStep(acc, c, false), true)
  {
    var next := CleanStep(acc, c, false);
    if next == acc + [c] {
      CleanFromConcat(base, acc, [c], true);
      assert CleanFrom(CleanFrom(base, acc, true), [c], true) == CleanStep(CleanFrom(base, acc, true), c, true);
    } else if next != acc {
      var init, last := acc[..|acc| - 1], acc[|acc| - 1];
      var k: nat :| DotDotsThenNames(acc, k);
      assert IsName(last) by {
        assert k < |acc|;
        assert acc[k..][|acc| - 1 - k] == last;
      }
      CleanFromConcat(base, init, [last], true);
      assert acc == init + [last];
      assert CleanFrom(CleanFrom(base, init, true), [last], true) == CleanFrom(base, init, true) + [last];
    }
  }

  /** Joining resolves the path's own cleaned components from the base, for every path. */
  lemma JoinCleansTwice(base: Path, path: string)
    requires IsClean(base)
    ensures Join(base, path) == "/" + Slashed(CleanFrom(base, Parts(path), true))
  {
    var s := Slashed(base) + "/" + path;
    assert "/" + Slashed(base) + "/" + path == "/" + s;
    assert ("/" + s)[1..] == s;
    SplitAtSlash(Slashed(base), path);
    if base == [] {
      SplitName("");
      assert Split(s) == [""] + Split(path);
      assert s == "" + "/" + path;
      assert ([""] + Split(path))[1..] == Split(path);
    } else {
      SplitSlashed(base);
      CleanFromConcat([], base, Split(path), true);
      CleanFromNames([], base, true);
      assert [] + base == base;
    }
    assert CleanFrom([], Split(s), true) == CleanFrom(base, Split(path), true);
    assert DotDotsThenNames([], 0);
    CleanTwice(base, [], Split(path));
    assert CleanFrom(base, [], true) == base;
  }

  /** An accepted path joined to any base is that base followed by the path's own components. */
  lemma AcceptedJoin(base: Path, path: string)
    requires IsClean(base) && ValidateResolvedPath(path)
    ensures IsClean(Parts(path)) && Join(base, path) == "/" + Slashed(base + Parts(path))
  {
    AcceptedIffStaysBelow(path);
    JoinCleansTwice(base, path);
    CleanFromNames(base, Parts(path), true);
  }

  lemma {:induction false} DotDotsPop(base: Path, p: seq<string>, k: nat)
    requires IsClean(base) && |base| <= 1 && 0 < k && DotDotsThenNames(p, k)
    ensures CleanFrom(base, p, true) == p[k..]
    decreases k
  {
    var next := CleanStep(base, "..", true);
    assert base != [] ==> IsName(base[0]) && base[..0] == [];
    assert p[0] == ".." && next == [];
    assert p[1..][k - 1..] == p[k..];
    if k == 1 {
      CleanFromNames([], p[1..], true);
    } else {
      DotDotsPop([], p[1..], k - 1);
    }
  }

  lemma LeadingRun(p: seq<string>, k: nat)
    requires DotDotsThenNames(p, k) && !IsClean(p)
    ensures 0 < k
  {
    assert p[0..] == p;
  }

  /** Every relative path the agent turns away would leave some base directory. */
  lemma RejectedEscapes(path: string) returns (base: Path)
    requires !IsAbs(path) && !ValidateResolvedPath(path)
    ensures IsClean(base) && !(base <= CleanFrom(base, Parts(path), true))
    ensures Join(base, path) == "/" + Slashed(CleanFrom(base, Parts(path), true))
  {
    AcceptedIffStaysBelow(path);
    PartsCleaned(path);
    var p := Parts(path);
    var k: nat :| DotDotsThenNames(p, k);
    LeadingRun(p, k);
    base := if k < |p| && p[k] == "a" then ["b"] else ["a"];
    assert IsName("a") && IsName("b");
    DotDotsPop(base, p, k);
    JoinCleansTwice(base, path);
  }

  // -------------------------------------------------------------- the two checks

  lemma {:induction false} NoDotDotBelow(parts: seq<string>, depth: nat)
    requires ".." !in parts
    ensures StaysBelow(parts, depth)
    decreases |parts|
  {
    if parts != [] {
      NoDotDotBelow(parts[1..], if parts[0] == "" || parts[0] == "." then depth else depth + 1);
    }
  }

  /** What the controller lets through, the agent does too. */
  lemma ControllerImpliesAgent(path: string)
    requires ValidatePath(path)
    ensures ValidateResolvedPath(path)
  {
    AcceptedIffStaysBelow(path);
    NoDotDotBelow(Split(path), 0);
  }

  /** The agent accepts more than the controller exactly by the paths that step back without
      ever climbing above their start, such as "a/../b". */
  lemma AgentAcceptsMore(path: string)
    ensures (ValidateResolvedPath(path) && !ValidatePath(path))
       <==> (!IsAbs(path) && ".." in Split(path) && StaysBelow(Split(path), 0))
    ensures ValidateResolvedPath("a/../b") && !ValidatePath("a/../b")
  {
    AcceptedIffStaysBelow(path);
    AcceptedIffStaysBelow("a/../b");
    SplitAtSlash("a", "../b");
    SplitAtSlash("..", "b");
    SplitName("a");
    SplitName("..");
    SplitName("b");
    assert "a/../b" == "a" + "/" + "../b";
    assert "../b" == ".." + "/" + "b";
    assert Split("a/../b") == ["a", "..", "b"];
    assert ["a", "..", "b"][1..] == ["..", "b"] && ["..", "b"][1..] == ["b"];
    assert StaysBelow(["b"], 0);
    assert StaysBelow(["..", "b"], 1);
  }

  // ------------------------------------------------------- the mappings of a plan

  datatype FileKind = NoFile | RegularFile | Folder

  /** A mapping as the resolved profile spells it, paths still holding template syntax. */
  datatype Wanted = Wanted(source: string, destination: string, required: bool, hint: string)

  datatype Resolved = Resolved(source: string, destination: string, kind: string)

  datatype Built = Mappings(mappings: seq<Resolved>) | Rejected(at: nat)

  /** What the agent resolves paths with: the repository's place, the template engine, `stat`. */
  datatype Site = Site(repo: Path, resolve: string -> Option<string>, stat: string -> FileKind)

  predicate SafePath(site: Site, raw: string) {
    var resolved := site.resolve(raw);
    resolved.Some? && !IsAbs(resolved.value) && StaysBelow(Split(resolved.value), 0)
  }

  /** The absolute source: the repository's components followed by the path's own. */
  function SourceOf(site: Site, m: Wanted): string
    requires SafePath(site, m.source)
  {
    "/" + Slashed(site.repo + Parts(site.resolve(m.source).value))
  }

  /** What a mapping must satisfy to enter a plan. */
  predicate Usable(site: Site, m: Wanted) {
    && SafePath(site, m.source) && SafePath(site, m.destination)
    && var found := site.stat(SourceOf(site, m));
       && (m.required ==> found != NoFile)
       && (m.hint != "" && found != NoFile ==>
             (m.hint == "file" && found == RegularFile) || (m.hint == "dir" && found == Folder))
  }

  /** A mapping that entered: rooted in the repository, landing inside the live tree, and
      typed by what is on disk, a missing source counting as a directory. */
  predicate Entered(site: Site, m: Wanted, r: Resolved) {
    && SafePath(site, m.source) && r.source == SourceOf(site, m)
    && site.resolve(m.destination) == Some(r.destination)
    && !IsAbs(r.destination) && IsClean(Parts(r.destination))
    && (m.required ==> site.stat(r.source) != NoFile)
    && (r.kind == "file" <==> site.stat(r.source) == RegularFile)
    && (r.kind == "dir" <==> site.stat(r.source) != RegularFile)
  }

  lemma SafePathMeans(site: Site, raw: string)
    requires IsClean(site.repo) && site.resolve(raw).Some?
    ensures SafePath(site, raw) <==> ValidateResolvedPath(site.resolve(raw).value)
    ensures SafePath(site, raw) ==> IsClean(Parts(site.resolve(raw).value))
    ensures SafePath(site, raw) ==>
              Join(site.repo, site.resolve(raw).value) == "/" + Slashed(site.repo + Parts(site.resolve(raw).value))
  {
    var path := site.resolve(raw).value;
    AcceptedIffStaysBelow(path);
    if SafePath(site, raw) {
      AcceptedJoin(site.repo, path);
    }
  }

  /** A mapping is usable exactly if both paths resolve and pass the check, a required source is
      there, and a given type is that of what is there. */
  lemma UsableMeans(site: Site, m: Wanted)
    requires IsClean(site.repo)
    ensures Usable(site, m) <==>
              && site.resolve(m.source).Some? && ValidateResolvedPath(site.resolve(m.source).value)
              && site.resolve(m.destination).Some? && ValidateResolvedPath(site.resolve(m.destination).value)
              && var found := site.stat(Join(site.repo, site.resolve(m.source).value));
                 && (m.required ==> found != NoFile)
                 && (m.hint == "" || found == NoFile || m.hint == if found == RegularFile then "file" else "dir")
  {
    hide StaysBelow, Split, IsAbs, Clean, Slashed, Parts;
    if site.resolve(m.source).Some? {
      SafePathMeans(site, m.source);
    }
    if site.resolve(m.destination).Some? {
      SafePathMeans(site, m.destination);
    }
  }

  /** `inferMappingType`: "dir" or "file" by what is there, checked against a given hint. */
  method InferMappingType(stat: string -> FileKind, source: string, hint: string) returns (kind: Option<string>)
    ensures kind.None? <==> stat(source) != NoFile && hint != ""
                            && hint != if stat(source) == RegularFile then "file" else "dir"
    ensures kind.Some? ==> kind.value == if stat(source) == RegularFile then "file" else "dir"
  {
    var found := stat(source);
    if found == NoFile {
      return Some("dir");
    }
    var actual := "file";
    if found == Folder {
      actual := "dir";
    }
    if hint != "" && hint != actual {
      return None;
    }
    return Some(actual);
  }

  /** The mapping loop of `buildSyncPlan`: the plan holds every mapping in order, or the
      first unusable one is named. */
  method BuildMappings(site: Site, wanted: seq<Wanted>) returns (built: Built)
    requires IsClean(site.repo)
    ensures built.Mappings? <==> forall i | 0 <= i < |wanted| :: Usable(site, wanted[i])
    ensures built.Mappings? ==> |built.mappings| == |wanted|
    ensures built.Mappings? ==> forall i | 0 <= i < |wanted| :: Entered(site, wanted[i], built.mappings[i])
    ensures built.Rejected? ==> built.at < |wanted| && !Usable(site, wanted[built.at])
                                && forall i | 0 <= i < built.at :: Usable(site, wanted[i])
  {
    hide StaysBelow, Split, IsAbs, Clean, Slashed, Parts;
    var mappings := [];
    for i := 0 to |wanted|
      invariant |mappings| == i
      invariant forall j | 0 <= j < i :: Usable(site, wanted[j])
      invariant forall j | 0 <= j < i :: Entered(site, wanted[j], mappings[j])
    {
      var m := wanted[i];
      var source, destination := site.resolve(m.source), site.resolve(m.destination);
      if source.None? || destination.None? {
        return Rejected(i);
      }
      SafePathMeans(site, m.source);
      SafePathMeans(site, m.destination);
      if !ValidateResolvedPath(source.value) || !ValidateResolvedPath(destination.value) {
        return Rejected(i);
      }
      var absolute := Join(site.repo, source.value);
      if m.required && site.stat(absolute) == NoFile {
        return Rejected(i);
      }
      var kind := InferMappingType(site.stat, absolute, m.hint);
      if kind.None? {
        return Rejected(i);
      }
      mappings := mappings + [Resolved(absolute, destination.value, kind.value)];
    }
    return Mappings(mappings);
  }

  // ---------------------------------------------------------- what the engine is given

  /** What a walk finds at a place where `os.Stat`, which follows links, found this kind. */
  ghost predicate OnDisk(found: FileKind, source: Source) {
    match found
    case NoFile => source.Missing?
    case RegularFile => source.Existing? && !source.root.Dir? && source.below == map[]
    case Folder =>
      source.Existing? && !source.root.File? && TreeOk(source.below)
      && (source.root == Symlink ==> source.below == map[])
  }

  /** The engine's plan holds the mappings that entered, with what is on disk at their sources. */
  ghost predicate PlanFor(site: Site, mappings: seq<Resolved>, plan: SyncPlan) {
    && |plan.mappings| == |mappings|
    && forall i | 0 <= i < |mappings| ::
         && plan.mappings[i].destination == mappings[i].destination
         && plan.mappings[i].kind == mappings[i].kind
         && OnDisk(site.stat(mappings[i].source), plan.mappings[i].source)
  }

  /** Such a plan is one that the engine's contract asks for. */
  lemma EnteredPlanOk(site: Site, wanted: seq<Wanted>, mappings: seq<Resolved>, plan: SyncPlan)
    requires |mappings| == |wanted| && PlanFor(site, mappings, plan)
    requires forall i | 0 <= i < |wanted| :: Entered(site, wanted[i], mappings[i])
    ensures PlanOk(plan)
    ensures forall i | 0 <= i < |mappings| ::
              plan.mappings[i].source.Missing? ==> plan.mappings[i].kind != "file" && !wanted[i].required
  {
    hide StaysBelow, Split, IsAbs, Slashed, Parts, IsClean;
    forall i | 0 <= i < |plan.mappings| ensures MappingOk(plan.mappings[i]) {
      assert Entered(site, wanted[i], mappings[i]);
    }
  }
}
