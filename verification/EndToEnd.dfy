/** The promises of a sync as contracts of code that calls `ExecutePlan`: once, twice, after
    a preview, and after a run that stopped anywhere. */
module EndToEnd {
  import opened Options
  import opened Paths
  import opened Exclude
  import opened FileTrees
  import opened SyncPlans
  import opened Orphans
  import opened Merge
  import opened DryRun
  import opened Engine
  import opened SyncTheorems
  import opened SafetyTheorems
  import opened PlanTheorems

  /** Every staged file is live as staged, and on managed, unpruned paths nothing else is. */
  ghost predicate Mirrors(plan: SyncPlan, live: Tree) {
    && (forall p | p in Files(Staged(plan)) :: SameAt(live, Staged(plan), p))
    && (forall p | Managed(RootsOf(plan), p) && ClearWay(RulesOf(plan), p) ::
          p in Files(live) <==> p in Files(Staged(plan)))
  }

  /** Nothing but staged paths, orphans and emptied managed directories differs. */
  ghost predicate Framed(plan: SyncPlan, before: Tree, now: Tree) {
    forall p | p in before && p !in Staged(plan)
               && (!Managed(RootsOf(plan), p) || before[p] == Symlink || !ClearWay(RulesOf(plan), p)) ::
      SameAt(now, before, p)
  }

  /** The counts of a result are those of the entries that changed. */
  ghost predicate CountsChanges(r: SyncResult, before: Tree, now: Tree) {
    && r.filesAdded == |Created(before, now)|
    && r.filesModified == |Rewritten(before, now)|
    && r.filesDeleted == |Removed(before, now)|
    && r.filesAdded + r.filesModified + r.filesDeleted == |Differing(before, now)|
    && |NonDirs(now)| == |NonDirs(before)| + r.filesAdded - r.filesDeleted
  }

  lemma SyncedMirrors(plan: SyncPlan, live: Tree)
    requires PlanOk(plan) && TreeOk(live) && Stages(plan) && Mergeable(live, Staged(plan))
    ensures Mirrors(plan, Synced(plan, live))
  {
    hide After, Managed, ClearWay, Staged, Synced, Stages;
    PlanTrees(plan, live, live);
    forall p {
      Mirror(live, Staged(plan), RulesOf(plan), RootsOf(plan), p);
    }
  }

  lemma TraceFramed(plan: SyncPlan, before: Tree, now: Tree)
    requires PlanOk(plan) && TreeOk(before) && RunTrace(plan, before, now)
    ensures Framed(plan, before, now)
  {
    hide RunTrace, Trace, Managed, ClearWay, Staged, Stages;
    PlanTrees(plan, before, now);
    forall p | p in before && p !in Staged(plan)
               && (!Managed(RootsOf(plan), p) || before[p] == Symlink || !ClearWay(RulesOf(plan), p))
      ensures SameAt(now, before, p)
    {
      Frame(before, now, Staged(plan), RulesOf(plan), RootsOf(plan), p);
    }
  }

  lemma SyncedCounts(plan: SyncPlan, live: Tree, r: SyncResult)
    requires PlanOk(plan) && TreeOk(live) && Stages(plan) && Mergeable(live, Staged(plan))
    requires r.filesAdded == |AddedSet(live, Staged(plan))|
    requires r.filesModified == |ModifiedSet(live, Staged(plan))|
    requires r.filesDeleted == |OrphansOf(plan, live)|
    ensures CountsChanges(r, live, Synced(plan, live))
  {
    hide After, Synced, Staged, Stages, AddedSet, ModifiedSet, OrphanSet, Differing, NonDirs, Created, Rewritten, Removed;
    PlanTrees(plan, live, live);
    CountedSets(live, Staged(plan), RulesOf(plan), RootsOf(plan));
    Conservation(live, Staged(plan), RulesOf(plan), RootsOf(plan), Synced(plan, live));
  }

  /** One live run. Stopped anywhere, it has kept to its frame; completed, it mirrors staging
      and has counted what it changed. */
  method Sync(plan: SyncPlan, staging: FileTree, live: FileTree) returns (r: Option<SyncResult>, ghost exact: bool)
    requires PlanOk(plan) && !plan.dryRun && staging != live && staging.Valid() && live.Valid()
    modifies staging, live
    ensures staging.Valid() && live.Valid()
    ensures staging.healthy && live.healthy && !old(staging.faulted) && !old(live.faulted) ==> exact
    ensures Framed(plan, old(live.nodes), live.nodes) && RunTrace(plan, old(live.nodes), live.nodes)
    ensures exact ==> (r.Some? <==> Stages(plan) && forall p | p in Staged(plan) && p in old(live.nodes) ::
                                      Staged(plan)[p].Dir? == old(live.nodes)[p].Dir?)
    ensures exact && r.Some? ==> live.nodes == Synced(plan, old(live.nodes))
    ensures exact && r.Some? ==> Mirrors(plan, live.nodes) && CountsChanges(r.value, old(live.nodes), live.nodes)
  {
    hide Mirrors, Framed, CountsChanges, RunTrace, Stages, Staged, Synced, OrphansOf, AddedSet,
         ModifiedSet, PlanOk;
    ghost var before := live.nodes;
    r, exact := ExecutePlan(plan, staging, live);
    TraceFramed(plan, before, live.nodes);
    if exact && r.Some? {
      SyncedMirrors(plan, before);
      SyncedCounts(plan, before, r.value);
    }
  }

  lemma SyncedAgain(plan: SyncPlan, live: Tree)
    requires PlanOk(plan) && TreeOk(live) && Stages(plan) && Mergeable(live, Staged(plan))
    ensures Mergeable(Synced(plan, live), Staged(plan)) && TreeOk(Synced(plan, live))
    ensures Differing(Synced(plan, live), Synced(plan, Synced(plan, live))) == {}
    ensures AddedSet(Synced(plan, live), Staged(plan)) == {} && ModifiedSet(Synced(plan, live), Staged(plan)) == {}
    ensures OrphansOf(plan, Synced(plan, live)) == {}
  {
    hide After, Synced, Staged, Stages, AddedSet, ModifiedSet, OrphanSet, Differing;
    PlanTrees(plan, live, live);
    AfterIsTree(live, Staged(plan), RulesOf(plan), RootsOf(plan));
    PlanTrees(plan, Synced(plan, live), live);
    SecondRunCounts(live, Staged(plan), RulesOf(plan), RootsOf(plan));
    Idempotent(live, Staged(plan), RulesOf(plan), RootsOf(plan), Synced(plan, live), Synced(plan, Synced(plan, live)));
  }

  /** The same plan twice: the second run succeeds, reports three zeros and changes no file. */
  method SyncTwice(plan: SyncPlan, staging: FileTree, live: FileTree)
    returns (first: Option<SyncResult>, second: Option<SyncResult>, ghost between: Tree, ghost exact: bool)
    requires PlanOk(plan) && !plan.dryRun && staging != live && staging.Valid() && live.Valid()
    modifies staging, live
    ensures staging.healthy && live.healthy && !old(staging.faulted) && !old(live.faulted) ==> exact
    ensures exact && first.Some? ==>
              second.Some? && second.value.filesAdded == second.value.filesModified == second.value.filesDeleted == 0
    ensures exact && first.Some? ==> Mirrors(plan, between) && Differing(between, live.nodes) == {}
  {
    hide Mirrors, RunTrace, Stages, Staged, Synced, Mergeable, OrphansOf, AddedSet, ModifiedSet, PlanOk, Differing;
    ghost var before := live.nodes;
    ghost var exactFirst;
    first, exactFirst := ExecutePlan(plan, staging, live);
    between := live.nodes;
    if exactFirst && first.Some? {
      SyncedMirrors(plan, before);
      SyncedAgain(plan, before);
    }
    second, exact := ExecutePlan(plan, staging, live);
    exact := exact && exactFirst;
  }

  /** A preview and then the run: the diff lists exactly what the run creates, rewrites and
      removes, and the preview itself changes nothing. */
  method PreviewThenSync(plan: SyncPlan, staging: FileTree, live: FileTree)
    returns (preview: Option<SyncResult>, r: Option<SyncResult>, ghost exact: bool)
    requires PlanOk(plan) && !plan.dryRun && staging != live && staging.Valid() && live.Valid()
    modifies staging, live
    ensures staging.healthy && live.healthy && !old(staging.faulted) && !old(live.faulted) ==> exact
    ensures exact && r.Some? ==> preview.Some? && preview.value.diff.Some?
    ensures exact && r.Some? ==>
              var diff := preview.value.diff.value;
              && Lists(diff.added, Created(old(live.nodes), live.nodes))
              && Lists(diff.modified, Rewritten(old(live.nodes), live.nodes))
              && Lists(diff.deleted, Removed(old(live.nodes), live.nodes))
    ensures exact && r.Some? ==>
              && preview.value.filesAdded == r.value.filesAdded
              && preview.value.filesModified == r.value.filesModified
              && preview.value.filesDeleted == r.value.filesDeleted
  {
    hide RunTrace, Stages, Staged, Synced, Mergeable, OrphanSet, AddedSet, ModifiedSet, PlanOk, After,
         Created, Rewritten, Removed, DiffAdded, DiffModified;
    ghost var before := live.nodes;
    var dry := plan.(dryRun := true);
    SamePlan(plan, dry);
    ghost var exactPreview;
    preview, exactPreview := ExecutePlan(dry, staging, live);
    r, exact := ExecutePlan(plan, staging, live);
    exact := exact && exactPreview;
    if exact && r.Some? {
      PlanTrees(plan, before, before);
      DryRunPredicts(before, Staged(plan), RulesOf(plan), RootsOf(plan));
      CountedSets(before, Staged(plan), RulesOf(plan), RootsOf(plan));
    }
  }

  lemma {:induction false} SameStage(plan: SyncPlan, dry: SyncPlan, rules: Rules, n: nat)
    requires dry == plan.(dryRun := true) && n <= |plan.mappings|
    ensures StageTree(dry, rules, n) == StageTree(plan, rules, n)
    ensures StageOk(dry, rules, n) <==> StageOk(plan, rules, n)
  {
    if n > 0 {
      SameStage(plan, dry, rules, n - 1);
    }
  }

  lemma SamePlan(plan: SyncPlan, dry: SyncPlan)
    requires dry == plan.(dryRun := true) && PlanOk(plan)
    ensures PlanOk(dry) && Staged(dry) == Staged(plan) && (Stages(dry) <==> Stages(plan))
    ensures RulesOf(dry) == RulesOf(plan) && RootsOf(dry) == RootsOf(plan)
  {
    SameStage(plan, dry, RulesOf(plan), |plan.mappings|);
  }

  /** Nothing that a stopped run left behind keeps the next one from succeeding. */
  ghost predicate Unblocked(plan: SyncPlan, before: Tree, now: Tree) {
    !exists p :: Blocks(before, now, Staged(plan), p)
  }

  /** A run that stopped anywhere, then a new process with the same plan, on the trees as the
      first one has left them and on disks that work: wherever the first run could have
      succeeded, the second one does exactly if no temporary file stands in the place of a
      directory; it then mirrors staging, and leaves what one uninterrupted run would have, up
      to temporary files off the managed, unpruned paths. */
  method SyncAfterCrash(plan: SyncPlan, staging: FileTree, live: FileTree)
    returns (r: Option<SyncResult>, after: Tree)
    requires PlanOk(plan) && !plan.dryRun && staging != live && staging.Valid() && live.Valid()
    requires Stages(plan) && Mergeable(live.nodes, Staged(plan))
    modifies staging, live
    ensures RunTrace(plan, old(live.nodes), live.nodes)
    ensures r.Some? <==> Unblocked(plan, old(live.nodes), live.nodes)
    ensures r.Some? ==> Mirrors(plan, after)
    ensures r.Some? ==> forall p ::
              && (p in NonDirs(Synced(plan, old(live.nodes))) ==>
                    SameAt(after, Synced(plan, old(live.nodes)), p))
              && (p in NonDirs(after) && p !in Synced(plan, old(live.nodes)) ==>
                    Leftover(Staged(plan), p) && !(Managed(RootsOf(plan), p) && ClearWay(RulesOf(plan), p)))
  {
    hide RunTrace, Trace, Stages, Staged, Synced, Mergeable, OrphansOf, OrphanSet, AddedSet, ModifiedSet, PlanOk, After,
         Mirrors, Blocks, Managed, ClearWay, NonDirs, Leftover, Runnable;
    ghost var before := live.nodes;
    ghost var exact;
    r, exact := ExecutePlan(plan, staging, live);
    var crashed := live.nodes;
    var newStaging := new FileTree(staging.nodes, true);
    var newLive := new FileTree(crashed, true);
    r, exact := ExecutePlan(plan, newStaging, newLive);
    after := newLive.nodes;
    Recovers(plan, before, crashed);
    if r.Some? {
      SyncedMirrors(plan, crashed);
      ghost var st, rules, roots := Staged(plan), RulesOf(plan), RootsOf(plan);
      forall p
        ensures p in NonDirs(Synced(plan, before)) ==> SameAt(after, Synced(plan, before), p)
        ensures p in NonDirs(after) && p !in Synced(plan, before) ==>
                  Leftover(st, p) && !(Managed(roots, p) && ClearWay(rules, p))
      {
        CrashConvergence(before, crashed, st, rules, roots, p);
      }
    }
  }

  lemma Recovers(plan: SyncPlan, before: Tree, crashed: Tree)
    requires PlanOk(plan) && TreeOk(before) && TreeOk(crashed) && RunTrace(plan, before, crashed)
    requires Stages(plan) && Mergeable(before, Staged(plan))
    ensures Mergeable(crashed, Staged(plan)) <==> Unblocked(plan, before, crashed)
    ensures Trace(before, crashed, Staged(plan), RulesOf(plan), RootsOf(plan))
    ensures Runnable(before, Staged(plan))
    ensures Runnable(crashed, Staged(plan)) <==> Mergeable(crashed, Staged(plan))
    ensures Synced(plan, before) == After(before, Staged(plan), RulesOf(plan), RootsOf(plan))
    ensures Synced(plan, crashed) == After(crashed, Staged(plan), RulesOf(plan), RootsOf(plan))
  {
    hide RunTrace, Trace, Stages, Staged, Synced, Mergeable, After, Blocks;
    PlanTrees(plan, before, crashed);
    PlanTrees(plan, crashed, crashed);
    Recoverable(before, crashed, Staged(plan), RulesOf(plan), RootsOf(plan));
  }

  // ------------------------------------------------------------- reserved names

  /** No temporary file bears this name. */
  ghost predicate NoTempName(name: string) {
    forall s: string | s != "" :: !(s + TEMP_MARK <= name)
  }

  lemma ReservedAreNoTemps()
    ensures NoTempName(RESOURCES_NAME) && NoTempName(STAGING_NAME)
  {
    assert |RESOURCES_NAME| == 10 && |TEMP_MARK| == 12 && |STAGING_NAME| == 13;
    assert STAGING_NAME[1] == 's' && TEMP_MARK[0] == '.';
    forall s: string | s != "" ensures !(s + TEMP_MARK <= STAGING_NAME) {
      assert |s| == 1 ==> (s + TEMP_MARK)[1] == '.';
    }
  }

  /** No run of any plan, wherever it stops, touches a path with a reserved component: none is
      written, removed or created. */
  lemma ReservedUntouched(plan: SyncPlan, before: Tree, now: Tree, name: string, p: Path)
    requires PlanOk(plan) && TreeOk(before) && RunTrace(plan, before, now)
    requires Reserved(RulesOf(plan), name) && NoTempName(name)
    requires p != [] && IsClean(p) && name in p
    ensures p in now <==> p in before
    ensures p in before ==> SameAt(now, before, p)
  {
    hide RunTrace, Trace, Staged, Stages, Reserved, Managed, ClearWay, NoTempName;
    var st, rules := Staged(plan), RulesOf(plan);
    PlanTrees(plan, before, now);
    ReservedIsPruned(rules, name, p);
    if p in st {
      NothingReservedStaged(plan, name, p);
    }
    if p in before {
      Frame(before, now, st, rules, RootsOf(plan), p);
    } else if p in now {
      CrashSafe(before, now, st, rules, RootsOf(plan), p);
      var s :| s in st && st[s].File? && TempFor(s, p);
      NothingReservedStaged(plan, name, s);
      TempIsElsewhere(s, p, name);
    }
  }

  lemma TempIsElsewhere(s: Path, tmp: Path, name: string)
    requires TempFor(s, tmp) && IsClean(s) && name !in s && NoTempName(name)
    ensures name !in tmp
  {
    assert IsName(s[|s| - 1]);
    assert tmp == Parent(tmp) + [tmp[|tmp| - 1]] && s == Parent(s) + [s[|s| - 1]];
  }

  lemma NothingReservedStaged(plan: SyncPlan, name: string, q: Path)
    requires PlanOk(plan) && Reserved(RulesOf(plan), name) && q in Staged(plan)
    ensures name !in q
  {
    NoReservedStaged(plan, RulesOf(plan), name, |plan.mappings|, q);
  }

  /** Protected paths are never overwritten, deleted or added by any plan, and neither is
      anything in a staging directory that lies inside the live one. */
  lemma ProtectedUntouched(plan: SyncPlan, before: Tree, now: Tree, p: Path)
    requires PlanOk(plan) && TreeOk(before) && RunTrace(plan, before, now)
    requires p != [] && IsClean(p) && (RESOURCES_NAME in p || STAGING_NAME in p)
    ensures p in now <==> p in before
    ensures p in before ==> SameAt(now, before, p)
  {
    ReservedNames(plan);
    ReservedAreNoTemps();
    ReservedUntouched(plan, before, now, if RESOURCES_NAME in p then RESOURCES_NAME else STAGING_NAME, p);
  }
}
