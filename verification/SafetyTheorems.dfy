/** What a sync never does, whole or stopped half way, and how a stopped one is made good. */
module SafetyTheorems {
  import opened Options
  import opened Paths
  import opened Exclude
  import opened FileTrees
  import opened SyncPlans
  import opened Walks
  import opened Orphans
  import opened Cleanup
  import opened Merge
  import opened Engine
  import opened SyncTheorems

  /** A run of a plan with this staging tree, stopped at an arbitrary point. */
  ghost predicate Trace(before: Tree, now: Tree, st: Tree, rules: Rules, roots: set<string>) {
    || now == before
    || MergeTrace(before, now, st)
    || (Mergeable(before, st) && CleanTrace(before + st, now, OrphanSet(before + st, st, rules, roots), roots))
  }

  /** The theorems below are about the trees of `ExecutePlan`'s contract. */
  lemma PlanTrees(plan: SyncPlan, live: Tree, now: Tree)
    requires PlanOk(plan) && TreeOk(live)
    ensures Stages(plan) ==> TreeOk(Staged(plan)) && NoLinks(Staged(plan))
    ensures Stages(plan) && Mergeable(live, Staged(plan)) ==> Runnable(live, Staged(plan))
    ensures Synced(plan, live) == After(live, Staged(plan), RulesOf(plan), RootsOf(plan))
    ensures RunTrace(plan, live, now) ==> now == live || Stages(plan)
    ensures RunTrace(plan, live, now) ==> Trace(live, now, Staged(plan), RulesOf(plan), RootsOf(plan))
  {
    if Stages(plan) {
      StageTreeOk(plan, RulesOf(plan), |plan.mappings|);
    }
  }

  lemma ClearAbove(rules: Rules, p: Path, q: Path)
    requires ClearWay(rules, q) && p <= q
    ensures ClearWay(rules, p)
  {
    forall k | 0 < k <= |p| ensures !Pruned(rules, Render(p[..k])) {
      assert p[..k] == q[..k];
    }
  }

  /** An emptied directory is managed and on a clear way. */
  lemma EmptiedIsClear(m: Tree, st: Tree, rules: Rules, roots: set<string>, gone: set<Path>, d: Path)
    requires Emptied(m, gone, roots, d) && gone <= OrphanSet(m, st, rules, roots)
    ensures Managed(roots, d) && ClearWay(rules, d)
  {
    var x :| x in gone && d < x;
    ClearAbove(rules, d, x);
  }

  /** Frame: wherever a run stops, a live entry that is not staged is as it was if it is
      outside every root, a link, or behind a protected or excluded prefix. */
  lemma Frame(before: Tree, now: Tree, st: Tree, rules: Rules, roots: set<string>, p: Path)
    requires Trace(before, now, st, rules, roots) && p in before && p !in st
    requires !Managed(roots, p) || before[p] == Symlink || !ClearWay(rules, p)
    ensures SameAt(now, before, p)
  {
    var orphans := OrphanSet(before + st, st, rules, roots);
    if p !in now && CleanTrace(before + st, now, orphans, roots) && Emptied(before + st, orphans - now.Keys, roots, p) {
      EmptiedIsClear(before + st, st, rules, roots, orphans - now.Keys, p);
    }
  }

  /** Wherever a run stops, every live entry is as it was, or as staged, or a new temporary
      file beside a staged one; and what has vanished was an orphan or a directory that
      losing orphans emptied. */
  lemma CrashSafe(before: Tree, now: Tree, st: Tree, rules: Rules, roots: set<string>, p: Path)
    requires Trace(before, now, st, rules, roots)
    ensures p in now ==> SameAt(now, before, p) || SameAt(now, st, p) ||
                         (p !in before && now[p].File? && Leftover(st, p))
    ensures p in before && p !in now ==>
              var m, orphans := before + st, OrphanSet(before + st, st, rules, roots);
              p in orphans || Emptied(m, orphans - now.Keys, roots, p)
  {
  }

  // -------------------------------------------------------------- convergence

  /** A temporary file left where staging has a directory. */
  ghost predicate Blocks(before: Tree, now: Tree, st: Tree, p: Path) {
    && p in now && p !in before && now[p].File? && Leftover(st, p)
    && p in st && st[p].Dir?
  }

  /** After a stopped run, the same plan can be merged again exactly when no temporary file
      was left where staging has a directory. */
  lemma Recoverable(before: Tree, now: Tree, st: Tree, rules: Rules, roots: set<string>)
    requires Runnable(before, st) && TreeOk(now) && Trace(before, now, st, rules, roots)
    ensures Runnable(now, st) <==> !exists p :: Blocks(before, now, st, p)
  {
    if !exists p :: Blocks(before, now, st, p) {
      forall p | p in st && p in now ensures st[p].Dir? == now[p].Dir? {
        CrashSafe(before, now, st, rules, roots, p);
        assert !Blocks(before, now, st, p);
      }
    }
  }

  lemma AfterNonDir(live: Tree, st: Tree, rules: Rules, roots: set<string>, p: Path)
    requires Runnable(live, st)
    ensures p in NonDirs(After(live, st, rules, roots)) <==>
            p in Files(st) || (p !in st && p in NonDirs(live) && p !in OrphanSet(live + st, st, rules, roots))
    ensures p in st && p in After(live, st, rules, roots) ==> SameAt(After(live, st, rules, roots), st, p)
    ensures p !in st && p in After(live, st, rules, roots) ==> SameAt(After(live, st, rules, roots), live, p)
  {
    hide After, OrphanSet, TreeOk;
    Mirror(live, st, rules, roots, p);
    AfterAt(live, st, rules, roots, p);
  }

  /** Convergence: a run stopped anywhere and then a full run leave the same links and
      regular files as one uninterrupted run, but for temporary files left behind, and those
      are off the managed, unpruned paths. */
  lemma CrashConvergence(before: Tree, now: Tree, st: Tree, rules: Rules, roots: set<string>, p: Path)
    requires Runnable(before, st) && Runnable(now, st) && Trace(before, now, st, rules, roots)
    ensures p in NonDirs(After(before, st, rules, roots)) ==>
              SameAt(After(now, st, rules, roots), After(before, st, rules, roots), p)
    ensures p in NonDirs(After(now, st, rules, roots)) && p !in After(before, st, rules, roots) ==>
              Leftover(st, p) && !(Managed(roots, p) && ClearWay(rules, p))
  {
    hide After, OrphanSet, Trace, Managed, ClearWay, TreeOk;
    AfterNonDir(before, st, rules, roots, p);
    AfterNonDir(now, st, rules, roots, p);
    OrphanIs(before, st, rules, roots, p);
    OrphanIs(now, st, rules, roots, p);
    CrashSafe(before, now, st, rules, roots, p);
    AfterAt(before, st, rules, roots, p);
    AfterAt(now, st, rules, roots, p);
    if p in before && p !in st && (!Managed(roots, p) || before[p] == Symlink || !ClearWay(rules, p)) {
      Frame(before, now, st, rules, roots, p);
    }
    if Managed(roots, p) && ClearWay(rules, p) {
      MirrorDetermined(before, now, st, rules, roots, p);
    }
  }

  // ------------------------------------------------------- a run that leaves a block

  predicate OrdinaryName(name: string) {
    IsName(name) && name != STAGING_NAME && name != RESOURCES_NAME
  }

  /** A source directory with a file `x` and a directory `tmp`. */
  function AwkwardBelow(x: string, tmp: string): Tree {
    map[[x] := File([]), [tmp] := Dir]
  }

  function AwkwardPlan(glob: Glob, d: string, x: string, tmp: string): SyncPlan {
    SyncPlan([Mapping(Existing(Dir, AwkwardBelow(x, tmp)), d, "dir", false, None)], [], false, None, glob)
  }

  function AwkwardEntries(d: string, x: string, tmp: string): Tree {
    map[[d, x] := File([]), [d, tmp] := Dir]
  }

  lemma OrdinaryPlace(d: string)
    requires OrdinaryName(d)
    ensures Parts(d) == [d] && !IsAbs(d)
  {
    assert Render([d]) == d;
    PartsOfRender([d]);
  }

  lemma AwkwardEntry(rules: Rules, m: Mapping, d: string, name: string, n: Node)
    requires rules.excludes == HARDCODED_EXCLUDES && OrdinaryName(d) && OrdinaryName(name) && n != Symlink
    requires m.kind != "file" && m.source.Existing? && Parts(m.destination) == [d]
    requires [name] in m.source.below && m.source.below[[name]] == n
    ensures [d, name] in Items(rules, m) && Items(rules, m)[[d, name]] == n
  {
    hide Pruned, Parts;
    OrdinaryWay(rules, [d, name]);
    assert [d, name] == [d] + [name];
    assert [d, name][..2] == [d, name] && [d, name][1..] == [name] && [name][..1] == [name];
    assert KeptBelow(rules, [d], [name]);
  }

  lemma AwkwardShare(glob: Glob, d: string, x: string, tmp: string, rules: Rules)
    requires rules.excludes == HARDCODED_EXCLUDES
    requires OrdinaryName(d) && OrdinaryName(x) && OrdinaryName(tmp) && x != tmp
    ensures PlanOk(AwkwardPlan(glob, d, x, tmp))
    ensures Share(AwkwardPlan(glob, d, x, tmp), rules, 0) == AwkwardEntries(d, x, tmp)
    ensures Stageable(None, rules, AwkwardPlan(glob, d, x, tmp).mappings[0])
  {
    hide Pruned, Parts, KeptBelow, IsAbs;
    var m := AwkwardPlan(glob, d, x, tmp).mappings[0];
    OrdinaryPlace(d);
    AwkwardEntry(rules, m, d, x, File([]));
    AwkwardEntry(rules, m, d, tmp, Dir);
    forall q | q in Items(rules, m) ensures q == [d, x] || q == [d, tmp] {
      assert q == [d] + q[1..];
    }
    assert Items(rules, m) == AwkwardEntries(d, x, tmp);
  }

  lemma AwkwardOverlay(d: string, x: string, tmp: string)
    requires x != tmp
    ensures var e := AwkwardEntries(d, x, tmp); var st := Overlay(map[], e);
            && Compatible(map[], e)
            && [d] in st && st[[d]] == Dir
            && [d, x] in st && st[[d, x]] == File([])
            && [d, tmp] in st && st[[d, tmp]] == Dir
  {
    var e := AwkwardEntries(d, x, tmp);
    InClosure(e.Keys, [d, x], 1);
    InClosure(e.Keys, [d, x], 2);
    InClosure(e.Keys, [d, tmp], 2);
    assert [d, x][..1] == [d] && [d, x][..2] == [d, x] && [d, tmp][..2] == [d, tmp];
  }

  lemma HardcodedOnly(plan: SyncPlan)
    requires plan.excludePatterns == []
    ensures RulesOf(plan).excludes == HARDCODED_EXCLUDES
  {
    hide Anywhere, TrimSpace;
    var pattern := Anywhere(STAGING_NAME);
    assert HARDCODED_EXCLUDES == [pattern];
    assert pattern != "" by {
      assert |pattern| > 0 by {
        AnywhereNonEmpty(STAGING_NAME);
      }
    }
    assert Trimmed([]) + [pattern] == [] + [pattern];
    FirstOccurrencesStep([], pattern);
  }

  lemma AnywhereNonEmpty(name: string)
    ensures |Anywhere(name)| > 0
  {
  }

  /** A plan with one directory mapping whose source is awkward can be staged. */
  lemma AwkwardStages(glob: Glob, d: string, x: string, tmp: string)
    requires OrdinaryName(d) && OrdinaryName(x) && OrdinaryName(tmp) && x != tmp
    ensures var plan := AwkwardPlan(glob, d, x, tmp);
            PlanOk(plan) && Stages(plan) && Staged(plan) == Overlay(map[], AwkwardEntries(d, x, tmp))
  {
    hide Overlay, Compatible, Stageable, Share, PlanOk, RulesOf;
    var plan := AwkwardPlan(glob, d, x, tmp);
    HardcodedOnly(plan);
    AwkwardShare(glob, d, x, tmp, RulesOf(plan));
    AwkwardOverlay(d, x, tmp);
    assert StageTree(plan, RulesOf(plan), 0) == map[] && StageOk(plan, RulesOf(plan), 0);
  }

  /** A stopped run can leave a block: where a source has a directory named like a temporary
      file of the file `x` beside it, that temporary file may still be there when the run
      stops, and then the plan can no longer be merged. */
  lemma BlockCanHappen(glob: Glob, d: string, x: string, tmp: string)
    requires OrdinaryName(d) && OrdinaryName(x) && OrdinaryName(tmp) && HasPrefix(tmp, x + TEMP_MARK)
    ensures var plan, now, p := AwkwardPlan(glob, d, x, tmp), map[[d] := Dir, [d, tmp] := File([])], [d, tmp];
            && PlanOk(plan) && Stages(plan) && Mergeable(map[], Staged(plan))
            && TreeOk(now) && RunTrace(plan, map[], now)
            && Blocks(map[], now, Staged(plan), p) && !Mergeable(now, Staged(plan))
  {
    hide Overlay, PlanOk, Stages, Staged, OrdinaryName;
    var now: Tree, s: Path, p: Path := map[[d] := Dir, [d, tmp] := File([])], [d, x], [d, tmp];
    assert |tmp| > |x|;
    AwkwardStages(glob, d, x, tmp);
    AwkwardOverlay(d, x, tmp);
    assert Parent(s) == [d] == Parent(p);
    assert TempFor(s, p);
    AwkwardTree(d, tmp);
  }

  lemma AwkwardTree(d: string, tmp: string)
    requires OrdinaryName(d) && OrdinaryName(tmp)
    ensures TreeOk(map[[d] := Dir, [d, tmp] := File([])])
  {
    assert [d, tmp][..1] == [d];
  }

  // -------------------------------------------------------------- directories

  /** A managed directory that is empty after cleanup was empty when cleanup began. */
  lemma EmptyWasEmpty(m: Tree, orphans: set<Path>, roots: set<string>, d: Path)
    requires TreeOk(m) && (forall x | x in orphans :: x in m && m[x].File?)
    requires d in Without(m, orphans, roots) && d != [] && Managed(roots, d)
    requires ChildrenOf(Without(m, orphans, roots), d) == {}
    ensures ChildrenOf(m, d) == {}
  {
    var now := Without(m, orphans, roots);
    if c :| c in ChildrenOf(m, d) {
      assert Shrunk(m, now, orphans, roots);
      ChildGone(m, now, orphans, roots, d, c);
      var f :| f in orphans && d < f;
      assert f[..|d|] == d;
      EmptyIsEmptied(m, now, orphans, roots, f, d);
    }
  }

  /** Directories outside the roots are never removed, nor is one without orphans below it. */
  lemma DirectoriesKept(m: Tree, orphans: set<Path>, roots: set<string>, d: Path)
    requires d in m && m[d].Dir? && d !in orphans
    requires !Managed(roots, d) || !LostBelow(orphans, d)
    ensures SameAt(Without(m, orphans, roots), m, d)
  {
  }

  // ------------------------------------------------------- the walk is complete

  /** Skipping directories hides a managed entry only behind a pruned prefix. */
  lemma ManagedVisited(live: Tree, rules: Rules, roots: set<string>, visited: set<Path>, p: Path)
    requires TreeOk(live) && p in live && Managed(roots, p)
    requires WalkInv(live, LiveDoors(live, rules, roots), visited, {})
    ensures p in visited <==> forall k | 0 < k < |p| :: !Pruned(rules, Render(p[..k]))
  {
    var doors := LiveDoors(live, rules, roots);
    WalkDone(live, doors, visited, p);
    forall k | 0 <= k < |p| ensures p[..k] in doors <==> (k == 0 || !Pruned(rules, Render(p[..k]))) {
      WayToManaged(roots, p, k);
      if k > 0 {
        assert p[..k] in live && live[p[..k]].Dir?;
      }
    }
  }
}
