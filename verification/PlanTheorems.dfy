/** What destinations, excludes and sources mean for a plan, and where the code does less
    than its documentation says. */
module PlanTheorems {
  import opened Paths
  import opened Exclude
  import opened FileTrees
  import opened SyncPlans
  import opened Orphans
  import opened Engine

  // ------------------------------------------------------------- protection

  /** Cleaning invents no component. */
  lemma {:induction false} CleanFromSubset(acc: seq<string>, parts: seq<string>, rooted: bool, c: string)
    requires c in CleanFrom(acc, parts, rooted)
    ensures c in acc || c in parts
    decreases |parts|
  {
    if parts != [] {
      CleanFromSubset(CleanStep(acc, parts[0], rooted), parts[1..], rooted, c);
    }
  }

  /** Every path with this component is pruned. */
  ghost predicate Reserved(rules: Rules, name: string) {
    forall relPath: string | name in Split(relPath) :: Pruned(rules, relPath)
  }

  /** The engine reserves two names, whatever the user's patterns. */
  lemma ReservedNames(plan: SyncPlan)
    ensures Reserved(RulesOf(plan), RESOURCES_NAME) && Reserved(RulesOf(plan), STAGING_NAME)
  {
    var rules := RulesOf(plan);
    forall relPath: string | RESOURCES_NAME in Split(relPath) || STAGING_NAME in Split(relPath)
      ensures Pruned(rules, relPath)
    {
      ProtectedIsResources(rules.glob, relPath);
      MergedExcludes(rules.glob, plan.excludePatterns, rules.excludes, relPath);
      if STAGING_NAME in Split(relPath) {
        StagingIsExcluded(rules.glob, rules.excludes, relPath);
      }
    }
  }

  /** No item of a mapping has a reserved component. */
  lemma ItemsUnreserved(rules: Rules, name: string, m: Mapping, q: Path)
    requires MappingOk(m) && Reserved(rules, name) && q in Items(rules, m)
    ensures name !in q
  {
    if m.kind == "file" {
      if name in q {
        CleanFromSubset([], Split(m.destination), false, name);
      }
    } else {
      var dest := Parts(m.destination);
      var rel := q[|dest|..];
      assert rel[..|rel|] == rel && dest + rel == q && rel != [];
      assert !Pruned(rules, Render(dest + rel[..|rel|]));
      SplitSlashed(q);
    }
  }

  /** No path with a reserved component is ever staged, not even as a directory. */
  lemma {:induction false} NoReservedStaged(plan: SyncPlan, rules: Rules, name: string, n: nat, q: Path)
    requires PlanOk(plan) && Reserved(rules, name) && n <= |plan.mappings| && q in StageTree(plan, rules, n)
    ensures name !in q
  {
    if n > 0 && q !in StageTree(plan, rules, n - 1) {
      var e := Share(plan, rules, n - 1);
      var r, k :| r in e.Keys && 0 < k <= |r| && q == r[..k];
      ItemsUnreserved(rules, name, plan.mappings[n - 1], r);
    } else if n > 0 {
      NoReservedStaged(plan, rules, name, n - 1, q);
    }
  }

  /** No path with a reserved component is on a clear way. */
  lemma ReservedIsPruned(rules: Rules, name: string, p: Path)
    requires Reserved(rules, name) && p != [] && IsClean(p) && name in p
    ensures !ClearWay(rules, p)
  {
    SplitSlashed(p);
    assert p[..|p|] == p;
  }

  /** The staging directory that the agent puts inside the live one is out of reach: nothing
      there is an orphan of the live tree, and no directory there is ever removed. */
  lemma NestedStagingUntouched(live: Tree, st: Tree, rules: Rules, roots: set<string>, gone: set<Path>, p: Path)
    requires TreeOk(live) && HARDCODED_EXCLUDES[0] in rules.excludes
    requires p in live && p[0] == STAGING_NAME
    requires gone <= OrphanSet(live, st, rules, roots)
    ensures p !in OrphanSet(live, st, rules, roots)
    ensures !Emptied(live, gone, roots, p)
  {
    forall q | q in live && p <= q ensures !ClearWay(rules, q) {
      var top := q[..1];
      assert top == [STAGING_NAME];
      SplitSlashed(top);
      StagingIsExcluded(rules.glob, rules.excludes, Render(top));
      assert Pruned(rules, Render(q[..1]));
    }
  }

  // ------------------------------------------------------------ destinations

  /** A path accepted by both path checks: its cleaned components are names. */
  ghost predicate Contained(dest: string) {
    IsClean(Parts(dest))
  }

  /** The destination as a managed root captures exactly the paths below the cleaned destination. */
  ghost predicate Captures(dest: string) {
    forall p: Path | p != [] && IsClean(p) :: StringUnder(Render(p), dest) <==> Parts(dest) <= p
  }

  /** Roots are not cleaned, so a destination captures its own tree exactly when it is
      written in clean form and is not ".". */
  lemma CapturesIffClean(dest: string)
    requires Contained(dest)
    ensures Captures(dest) <==> Split(dest) == Parts(dest)
  {
    if Split(dest) == Parts(dest) {
      forall p: Path | p != [] && IsClean(p) ensures StringUnder(Render(p), dest) <==> Parts(dest) <= p {
        StringUnderIsPrefix(p, dest);
      }
    } else {
      var p := if Parts(dest) == [] then ["a"] else Parts(dest);
      NotCapturing(dest, p);
      assert IsName("a");
      assert Parts(dest) <= p;
    }
  }

  /** A destination in any other form captures nothing at all. */
  lemma NotCapturing(dest: string, p: Path)
    requires Split(dest) != Parts(dest) && p != [] && IsClean(p)
    ensures !StringUnder(Render(p), dest)
  {
    StringUnderIsPrefix(p, dest);
    if Split(dest) <= p {
      assert IsClean(Split(dest));
      CleanFromNames([], Split(dest), false);
    }
  }

  /** For instance a destination with a trailing slash: whatever is live below it, nothing is
      an orphan, so removed sources stay live for ever. */
  lemma TrailingSlashKeepsOrphans(live: Tree, st: Tree, rules: Rules, dest: string)
    requires TreeOk(live)
    ensures OrphanSet(live, st, rules, {dest + "/"}) == {}
  {
    SplitAtSlash(dest, "");
    assert dest + "/" + "" == dest + "/";
    assert Split("") == [""];
    var r := Split(dest + "/");
    assert r[|Split(dest)|] == "";
    forall p | p in live && r <= p ensures p[|Split(dest)|] == "" {
    }
  }

  /** When every destination is clean, the managed paths are those at or below some cleaned destination. */
  lemma ManagedMeans(plan: SyncPlan, p: Path)
    requires forall i | 0 <= i < |plan.mappings| ::
               Split(plan.mappings[i].destination) == Parts(plan.mappings[i].destination)
    ensures Managed(RootsOf(plan), p) <==>
            exists i | 0 <= i < |plan.mappings| :: Parts(plan.mappings[i].destination) <= p
  {
    if i :| 0 <= i < |plan.mappings| && Parts(plan.mappings[i].destination) <= p {
      assert plan.mappings[i].destination in RootsOf(plan);
    }
  }

  // ----------------------------------------------------------------- excludes

  /** Staging tests excludes below the destination only, cleanup from the live root: the two
      agree on a directory mapping's entries exactly when the destination's own way is clear. */
  lemma StagedWayClear(rules: Rules, m: Mapping, q: Path)
    requires m.kind != "file" && q in Items(rules, m)
    ensures ClearWay(rules, q) <==> ClearWay(rules, Parts(m.destination))
  {
    var dest := Parts(m.destination);
    var rel := q[|dest|..];
    forall k | 0 < k <= |q| ensures q[..k] == if k <= |dest| then dest[..k] else dest + rel[..k - |dest|] {
    }
    if ClearWay(rules, q) {
      forall k | 0 < k <= |dest| ensures !Pruned(rules, Render(dest[..k])) {
        assert q[..k] == dest[..k];
      }
    }
  }

  // ------------------------------------------------------------------ sources

  /** A directory mapping whose source is missing fails the whole plan, whether or not the
      profile calls it required. */
  lemma {:induction false} MissingSourceFails(plan: SyncPlan, rules: Rules, i: nat, n: nat)
    requires i < n <= |plan.mappings|
    requires plan.mappings[i].source == Missing && plan.mappings[i].kind != "file"
    ensures !StageOk(plan, rules, n)
  {
    if i < n - 1 {
      MissingSourceFails(plan, rules, i, n - 1);
    }
  }
}
