/** What a sync does to the live tree, read off the specification of `ExecutePlan`. */
module SyncTheorems {
  import opened Paths
  import opened Exclude
  import opened FileTrees
  import opened SyncPlans
  import opened Orphans
  import opened Merge
  import opened DryRun

  // -------------------------------------------------------------- plain trees

  /** A live tree and a staging tree that a live run can merge. */
  ghost predicate Runnable(live: Tree, st: Tree) {
    TreeOk(live) && TreeOk(st) && NoLinks(st) && Mergeable(live, st)
  }

  ghost function After(live: Tree, st: Tree, rules: Rules, roots: set<string>): Tree {
    Without(live + st, OrphanSet(live + st, st, rules, roots), roots)
  }

  lemma MergedOk(live: Tree, st: Tree)
    requires Runnable(live, st)
    ensures TreeOk(live + st)
  {
    var m := live + st;
    forall p, k | p in m && 0 < k < |p| ensures p[..k] in m && m[p[..k]].Dir? {
      if p in st {
        assert p[..k] in st;
      } else {
        assert p[..k] in live;
      }
    }
  }

  /** Where the merged tree has an entry, staging lacks it exactly when it says so. */
  lemma AbsentInStaging(live: Tree, st: Tree, p: Path)
    requires Runnable(live, st) && p in live + st
    ensures StatOf(st, p) == NotExist <==> p !in st
  {
    MergedOk(live, st);
    if p !in st {
      forall k | 0 < k < |p| && p[..k] in st ensures st[p[..k]].Dir? {
        assert (live + st)[p[..k]].Dir?;
      }
    }
  }

  /** Where staging has an entry, live lacks it exactly when it says so. */
  lemma AbsentInLive(live: Tree, st: Tree, p: Path)
    requires Runnable(live, st) && p in st
    ensures StatOf(live, p) == NotExist <==> p !in live
  {
    if p !in live {
      forall k | 0 < k < |p| && p[..k] in live ensures live[p[..k]].Dir? {
        assert p[..k] in st && st[p[..k]].Dir?;
      }
    }
  }

  /** The orphans of a run: managed regular files on a clear way that staging lacks. */
  lemma OrphanIs(live: Tree, st: Tree, rules: Rules, roots: set<string>, p: Path)
    requires Runnable(live, st)
    ensures p in OrphanSet(live + st, st, rules, roots) <==>
            p in live && live[p].File? && p !in st && Managed(roots, p) && ClearWay(rules, p)
  {
    if p in live + st {
      AbsentInStaging(live, st, p);
    }
  }

  /** A run touches entries that are not directories in three ways only. */
  lemma AfterAt(live: Tree, st: Tree, rules: Rules, roots: set<string>, p: Path)
    requires Runnable(live, st)
    ensures p in OrphanSet(live + st, st, rules, roots) ==> p !in After(live, st, rules, roots)
    ensures p in After(live, st, rules, roots) ==>
              p in live + st && After(live, st, rules, roots)[p] == (live + st)[p]
    ensures p in live + st && !(live + st)[p].Dir? && p !in OrphanSet(live + st, st, rules, roots) ==>
              p in After(live, st, rules, roots)
  {
  }

  /** Mirror: every staged file is live with its staged contents, and on managed, unpruned
      paths a regular file is live exactly where staging has one. */
  lemma Mirror(live: Tree, st: Tree, rules: Rules, roots: set<string>, p: Path)
    requires Runnable(live, st)
    ensures p in Files(st) ==> SameAt(After(live, st, rules, roots), st, p)
    ensures Managed(roots, p) && ClearWay(rules, p) ==>
              (p in Files(After(live, st, rules, roots)) <==> p in Files(st))
  {
    hide After, Managed, ClearWay, OrphanSet, TreeOk;
    OrphanIs(live, st, rules, roots, p);
    AfterAt(live, st, rules, roots, p);
  }

  /** The files on managed, unpruned paths do not depend on what was live before. */
  lemma MirrorDetermined(live: Tree, other: Tree, st: Tree, rules: Rules, roots: set<string>, p: Path)
    requires Runnable(live, st) && Runnable(other, st) && Managed(roots, p) && ClearWay(rules, p)
    ensures p in Files(After(live, st, rules, roots)) <==> p in Files(After(other, st, rules, roots))
    ensures p in Files(After(live, st, rules, roots)) ==>
              SameAt(After(live, st, rules, roots), After(other, st, rules, roots), p)
  {
    Mirror(live, st, rules, roots, p);
    Mirror(other, st, rules, roots, p);
  }

  // ----------------------------------------------------- counting what changed

  ghost function Created(before: Tree, now: Tree): set<Path> {
    set p | p in now && !now[p].Dir? && p !in before
  }

  ghost function Rewritten(before: Tree, now: Tree): set<Path> {
    set p | p in now && !now[p].Dir? && p in before && before[p] != now[p]
  }

  ghost function Removed(before: Tree, now: Tree): set<Path> {
    set p | p in before && !before[p].Dir? && p !in now
  }

  ghost function NonDirs(t: Tree): set<Path> {
    set p | p in t && !t[p].Dir?
  }

  /** The three counted sets are exactly the entries that the run creates, rewrites and removes. */
  lemma CountedSets(live: Tree, st: Tree, rules: Rules, roots: set<string>)
    requires Runnable(live, st)
    ensures Created(live, After(live, st, rules, roots)) == AddedSet(live, st)
    ensures Rewritten(live, After(live, st, rules, roots)) == ModifiedSet(live, st)
    ensures Removed(live, After(live, st, rules, roots)) == OrphanSet(live + st, st, rules, roots)
  {
    var out, orphans := After(live, st, rules, roots), OrphanSet(live + st, st, rules, roots);
    forall p
      ensures p in Created(live, out) <==> p in AddedSet(live, st)
      ensures p in Rewritten(live, out) <==> p in ModifiedSet(live, st)
      ensures p in Removed(live, out) <==> p in orphans
    {
      CountedAt(live, st, rules, roots, p);
    }
  }

  lemma CountedAt(live: Tree, st: Tree, rules: Rules, roots: set<string>, p: Path)
    requires Runnable(live, st)
    ensures p in Created(live, After(live, st, rules, roots)) <==> p in AddedSet(live, st)
    ensures p in Rewritten(live, After(live, st, rules, roots)) <==> p in ModifiedSet(live, st)
    ensures p in Removed(live, After(live, st, rules, roots)) <==> p in OrphanSet(live + st, st, rules, roots)
  {
    hide After, Managed, ClearWay, OrphanSet, TreeOk;
    OrphanIs(live, st, rules, roots, p);
    AfterAt(live, st, rules, roots, p);
  }

  /** Conservation, for any two trees in which nothing turned from or into a directory. */
  lemma Conserved(before: Tree, now: Tree)
    requires forall p | p in before && p in now :: before[p].Dir? == now[p].Dir?
    ensures |NonDirs(now)| == |NonDirs(before)| + |Created(before, now)| - |Removed(before, now)|
  {
    var kept := NonDirs(before) * NonDirs(now);
    assert NonDirs(now) == kept + Created(before, now) && kept !! Created(before, now);
    assert NonDirs(before) == kept + Removed(before, now) && kept !! Removed(before, now);
  }

  /** The entries that are not the same non-directory before and after. */
  ghost function Differing(before: Tree, now: Tree): set<Path> {
    set p | p in before.Keys + now.Keys && !SameAt(before, now, p) &&
            ((p in before && !before[p].Dir?) || (p in now && !now[p].Dir?))
  }

  lemma DifferingSplit(before: Tree, now: Tree)
    requires forall p | p in before && p in now :: before[p].Dir? == now[p].Dir?
    ensures |Differing(before, now)| == |Created(before, now)| + |Rewritten(before, now)| + |Removed(before, now)|
  {
    var c, w, r := Created(before, now), Rewritten(before, now), Removed(before, now);
    assert Differing(before, now) == c + w + r;
    assert c !! w && (c + w) !! r;
  }

  lemma KindsKept(live: Tree, st: Tree, rules: Rules, roots: set<string>)
    requires Runnable(live, st)
    ensures forall p | p in live && p in After(live, st, rules, roots) ::
              live[p].Dir? == After(live, st, rules, roots)[p].Dir?
  {
    forall p | p in live && p in After(live, st, rules, roots)
      ensures live[p].Dir? == After(live, st, rules, roots)[p].Dir?
    {
      AfterAt(live, st, rules, roots, p);
    }
  }

  /** Conservation: the counts of a live run add up to the entries that differ, and they
      account for the number of entries. */
  lemma Conservation(live: Tree, st: Tree, rules: Rules, roots: set<string>, out: Tree)
    requires Runnable(live, st) && out == After(live, st, rules, roots)
    ensures |AddedSet(live, st)| + |ModifiedSet(live, st)| + |OrphanSet(live + st, st, rules, roots)|
            == |Differing(live, out)|
    ensures |NonDirs(out)| ==
            |NonDirs(live)| + |AddedSet(live, st)| - |OrphanSet(live + st, st, rules, roots)|
  {
    hide *;
    CountedSets(live, st, rules, roots);
    KindsKept(live, st, rules, roots);
    Conserved(live, out);
    DifferingSplit(live, out);
  }

  // ------------------------------------------------------------------ dry run

  /** The diff of a dry run names what a live run would create, rewrite and remove,
      although cleanup then walks the merged tree. */
  lemma DryRunPredicts(live: Tree, st: Tree, rules: Rules, roots: set<string>)
    requires Runnable(live, st)
    ensures DiffAdded(live, st) == Created(live, After(live, st, rules, roots))
    ensures DiffModified(live, st) == Rewritten(live, After(live, st, rules, roots))
    ensures OrphanSet(live, st, rules, roots) == Removed(live, After(live, st, rules, roots))
  {
    CountedSets(live, st, rules, roots);
    forall p ensures p in DiffAdded(live, st) <==> p in AddedSet(live, st) {
      if p in st {
        AbsentInLive(live, st, p);
      }
    }
    forall p ensures p in DiffModified(live, st) <==> p in ModifiedSet(live, st) {
      if p in st {
        AbsentInLive(live, st, p);
      }
    }
    forall p
      ensures p in OrphanSet(live, st, rules, roots) <==> p in OrphanSet(live + st, st, rules, roots)
    {
      OrphanIs(live, st, rules, roots, p);
      if p in live {
        AbsentInStaging(live, st, p);
      }
    }
  }

  // -------------------------------------------------------------- idempotence

  lemma AfterIsTree(live: Tree, st: Tree, rules: Rules, roots: set<string>)
    requires Runnable(live, st)
    ensures TreeOk(After(live, st, rules, roots))
  {
    MergedOk(live, st);
    var m, orphans := live + st, OrphanSet(live + st, st, rules, roots);
    var out := After(live, st, rules, roots);
    forall p, k | p in out && 0 < k < |p| ensures p[..k] in out && out[p[..k]].Dir? {
      var d := p[..k];
      assert d in m && m[d].Dir? && d < p;
      if Emptied(m, orphans, roots, d) {
        assert GoneOrHollow(m, orphans, p);
        EmptiedBelow(m, orphans, roots, d, p);
      }
    }
  }

  /** The second run of the same plan finds nothing to do, and merging puts back at most
      empty directories. */
  lemma SecondRunCounts(live: Tree, st: Tree, rules: Rules, roots: set<string>)
    requires Runnable(live, st)
    ensures var out := After(live, st, rules, roots);
            && Runnable(out, st)
            && AddedSet(out, st) == {} && ModifiedSet(out, st) == {}
            && OrphanSet(out + st, st, rules, roots) == {}
  {
    var out := After(live, st, rules, roots);
    AfterIsTree(live, st, rules, roots);
    forall p ensures p in st && p in out ==> st[p].Dir? == out[p].Dir? {
      AfterAt(live, st, rules, roots, p);
    }
    forall p ensures p !in AddedSet(out, st) && p !in ModifiedSet(out, st) {
      Mirror(live, st, rules, roots, p);
    }
    forall p ensures p !in OrphanSet(out + st, st, rules, roots) {
      OrphanIs(out, st, rules, roots, p);
      Mirror(live, st, rules, roots, p);
    }
  }

  lemma NoOrphansNoLoss(m: Tree, roots: set<string>)
    ensures Without(m, {}, roots) == m
  {
  }

  /** Idempotence: the second run reports three zeros and leaves every entry that is not a
      directory as it is; from then on, running the plan changes nothing at all. */
  lemma Idempotent(live: Tree, st: Tree, rules: Rules, roots: set<string>, first: Tree, second: Tree)
    requires Runnable(live, st) && first == After(live, st, rules, roots)
    requires second == After(first, st, rules, roots)
    ensures |AddedSet(first, st)| == 0 && |ModifiedSet(first, st)| == 0
    ensures |OrphanSet(first + st, st, rules, roots)| == 0
    ensures Differing(first, second) == {} && second == first + st
    ensures After(second, st, rules, roots) == second
  {
    SecondRunCounts(live, st, rules, roots);
    NoOrphansNoLoss(first + st, roots);
    assert second == first + st;
    Conservation(first, st, rules, roots, second);
    SecondRunCounts(first, st, rules, roots);
    NoOrphansNoLoss(second + st, roots);
    assert second + st == second;
  }

  // ------------------------------------------------------ directories that staging has

  /** A staged directory that cleanup nevertheless empties and removes: it is managed, some
      orphan lies below it, and so does nothing but orphans and directories with an orphan
      below. */
  ghost predicate StagedButEmptied(live: Tree, st: Tree, rules: Rules, roots: set<string>, d: Path) {
    var m, orphans := live + st, OrphanSet(live + st, st, rules, roots);
    && d in st && st[d].Dir? && Managed(roots, d)
    && (exists x | x in orphans :: d < x)
    && forall q | q in m && d < q :: q in orphans || (m[q].Dir? && exists x | x in orphans :: q < x)
  }

  /** A staged path is missing after the run exactly if it is such a directory. */
  lemma StagedMissingIff(live: Tree, st: Tree, rules: Rules, roots: set<string>, d: Path)
    requires Runnable(live, st) && d in st
    ensures d !in After(live, st, rules, roots) <==> StagedButEmptied(live, st, rules, roots, d)
  {
    var m, orphans := live + st, OrphanSet(live + st, st, rules, roots);
    OrphanIs(live, st, rules, roots, d);
    AfterAt(live, st, rules, roots, d);
    assert Emptied(m, orphans, roots, d) <==> StagedButEmptied(live, st, rules, roots, d) by {
      forall q ensures LostBelow(orphans, q) <==> exists x | x in orphans :: q < x {
      }
    }
  }

  /** The second run changes something exactly if the first has removed such a directory. */
  lemma SecondRunIdleIff(live: Tree, st: Tree, rules: Rules, roots: set<string>, first: Tree, second: Tree)
    requires Runnable(live, st) && first == After(live, st, rules, roots)
    requires second == After(first, st, rules, roots)
    ensures second == first <==> !exists d :: StagedButEmptied(live, st, rules, roots, d)
  {
    hide After, OrphanSet, StagedButEmptied;
    Idempotent(live, st, rules, roots, first, second);
    forall d | d in st
      ensures d in first ==> SameAt(first, st, d)
      ensures d !in first <==> StagedButEmptied(live, st, rules, roots, d)
    {
      StagedMissingIff(live, st, rules, roots, d);
      if d in first {
        Kept(live, st, rules, roots, d);
      }
    }
    if d :| StagedButEmptied(live, st, rules, roots, d) {
      InStaging(live, st, rules, roots, d);
      assert d in second;
    }
    if second != first {
      assert exists d :: d in st && d !in first;
    }
  }

  lemma Kept(live: Tree, st: Tree, rules: Rules, roots: set<string>, d: Path)
    requires Runnable(live, st) && d in st && d in After(live, st, rules, roots)
    ensures SameAt(After(live, st, rules, roots), st, d)
  {
  }

  lemma InStaging(live: Tree, st: Tree, rules: Rules, roots: set<string>, d: Path)
    requires StagedButEmptied(live, st, rules, roots, d)
    ensures d in st
  {
  }

  /** Such a directory: `a` is staged empty, and live it held one file that no longer has a source. */
  lemma StagedDirectoryCanGo(glob: Glob)
    ensures var live: Tree := map[["a"] := Dir, ["a", "x"] := File([])];
            var st: Tree := map[["a"] := Dir];
            var rules := Rules(glob, HARDCODED_EXCLUDES);
            Runnable(live, st) && StagedButEmptied(live, st, rules, {"a"}, ["a"])
            && ["a"] !in After(live, st, rules, {"a"})
  {
    var live: Tree := map[["a"] := Dir, ["a", "x"] := File([])];
    var st: Tree := map[["a"] := Dir];
    var rules, roots := Rules(glob, HARDCODED_EXCLUDES), {"a"};
    assert IsName("a") && IsName("x");
    assert live + st == live;
    OrdinaryWay(rules, ["a", "x"]);
    SplitName("a");
    assert Split("a") == ["a"] <= ["a", "x"];
    assert Managed(roots, ["a", "x"]) && Managed(roots, ["a"]);
    forall p, k | p in live && 0 < k < |p| ensures p[..k] in live && live[p[..k]].Dir? {
      assert ["a", "x"][..1] == ["a"];
    }
    assert Runnable(live, st);
    OrphanIs(live, st, rules, roots, ["a", "x"]);
    assert ["a"] < ["a", "x"];
    assert StagedButEmptied(live, st, rules, roots, ["a"]);
    StagedMissingIff(live, st, rules, roots, ["a"]);
  }

  /** Without user patterns, a path is cut off only by the two names the engine reserves. */
  lemma OrdinaryWay(rules: Rules, p: Path)
    requires rules.excludes == HARDCODED_EXCLUDES && IsClean(p)
    requires STAGING_NAME !in p && RESOURCES_NAME !in p
    ensures ClearWay(rules, p)
  {
    forall k | 0 < k <= |p| ensures !Pruned(rules, Render(p[..k])) {
      SplitSlashed(p[..k]);
      ProtectedIsResources(rules.glob, Render(p[..k]));
      OnlyStagingExcluded(rules.glob, Render(p[..k]));
    }
  }
}
