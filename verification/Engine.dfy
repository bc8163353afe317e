/** `ExecutePlan`: stage, then merge and clean up, or diff. */
module Engine {
  import opened Options
  import opened Paths
  import opened Exclude
  import opened FileTrees
  import opened SyncPlans
  import opened Staging
  import opened Orphans
  import opened Cleanup
  import opened Merge
  import opened DryRun

  datatype SyncResult = SyncResult(filesAdded: nat, filesModified: nat, filesDeleted: nat, diff: Option<DryRunDiff>)

  ghost function RulesOf(plan: SyncPlan): Rules {
    Rules(plan.glob, FirstOccurrences(Trimmed(plan.excludePatterns) + HARDCODED_EXCLUDES))
  }

  ghost function RootsOf(plan: SyncPlan): set<string> {
    set i | 0 <= i < |plan.mappings| :: plan.mappings[i].destination
  }

  /** The staging tree of the whole plan. */
  ghost function Staged(plan: SyncPlan): Tree {
    StageTree(plan, RulesOf(plan), |plan.mappings|)
  }

  ghost predicate Stages(plan: SyncPlan) {
    StageOk(plan, RulesOf(plan), |plan.mappings|)
  }

  /** The orphans of a live run: those of the merged tree. */
  ghost function OrphansOf(plan: SyncPlan, live: Tree): set<Path> {
    OrphanSet(live + Staged(plan), Staged(plan), RulesOf(plan), RootsOf(plan))
  }

  /** The live tree after a successful live run. */
  ghost function Synced(plan: SyncPlan, live: Tree): Tree {
    Without(live + Staged(plan), OrphansOf(plan, live), RootsOf(plan))
  }

  /** A live run stopped at an arbitrary point: nothing happened, or part of the merge,
      or the whole merge and part of the cleanup. */
  ghost predicate RunTrace(plan: SyncPlan, before: Tree, now: Tree) {
    || now == before
    || (Stages(plan) && (
      || MergeTrace(before, now, Staged(plan))
      || (Mergeable(before, Staged(plan)) &&
          CleanTrace(before + Staged(plan), now, OrphansOf(plan, before), RootsOf(plan)))))
  }

  /** `computeManagedRoots`: the destinations as they are written. */
  method ComputeManagedRoots(plan: SyncPlan) returns (roots: set<string>)
    ensures roots == RootsOf(plan)
  {
    roots := {};
    for i := 0 to |plan.mappings|
      invariant roots == set j | 0 <= j < i :: plan.mappings[j].destination
    {
      roots := roots + {plan.mappings[i].destination};
    }
  }

  /** Phase 2 of a live run. */
  method SyncLive(plan: SyncPlan, rules: Rules, roots: set<string>, staging: FileTree, live: FileTree)
    returns (r: Option<SyncResult>)
    requires staging != live && staging.Valid() && live.Valid() && Stages(plan)
    requires rules == RulesOf(plan) && roots == RootsOf(plan) && staging.nodes == Staged(plan)
    requires NoLinks(Staged(plan))
    modifies live, staging`faulted
    ensures live.Valid() && Steady(old(live.faulted), live.faulted, live.healthy)
    ensures Steady(old(staging.faulted), staging.faulted, staging.healthy)
    ensures RunTrace(plan, old(live.nodes), live.nodes)
    ensures !staging.faulted && !live.faulted ==> r.Some? == Mergeable(old(live.nodes), Staged(plan))
    ensures r.Some? && !staging.faulted && !live.faulted ==>
              && live.nodes == Synced(plan, old(live.nodes))
              && r.value.filesAdded == |AddedSet(old(live.nodes), Staged(plan))|
              && r.value.filesModified == |ModifiedSet(old(live.nodes), Staged(plan))|
              && r.value.filesDeleted == |OrphansOf(plan, old(live.nodes))|
  {
    hide MergeTrace, CleanTrace, OrphanSet, Without, Mergeable, StageTree, StageOk, AddedSet, ModifiedSet;
    ghost var before := live.nodes;
    var ok, added, modified := MergeStagingToLive(staging, live);
    if !ok {
      return None;
    }
    var deleted;
    ok, deleted := CleanOrphans(staging, live, rules, roots);
    if !ok {
      return None;
    }
    return Some(SyncResult(added, modified, deleted, None));
  }

  /** A dry-run result carries its diff and counts the lists. */
  ghost predicate CountsLists(r: SyncResult) {
    && r.diff.Some?
    && r.filesAdded == |r.diff.value.added|
    && r.filesModified == |r.diff.value.modified|
    && r.filesDeleted == |r.diff.value.deleted|
  }

  /** The diff of staging against a live tree. */
  ghost predicate IsDiff(plan: SyncPlan, live: Tree, diff: DryRunDiff) {
    && Lists(diff.added, DiffAdded(live, Staged(plan)))
    && Lists(diff.modified, DiffModified(live, Staged(plan)))
    && Lists(diff.deleted, OrphanSet(live, Staged(plan), RulesOf(plan), RootsOf(plan)))
  }

  /** Phase 2 of a dry run. */
  method DiffLive(plan: SyncPlan, rules: Rules, roots: set<string>, staging: FileTree, live: FileTree)
    returns (r: Option<SyncResult>)
    requires staging != live && staging.Valid() && live.Valid()
    requires rules == RulesOf(plan) && roots == RootsOf(plan) && staging.nodes == Staged(plan)
    requires NoLinks(Staged(plan))
    modifies live`faulted, staging`faulted
    ensures Steady(old(live.faulted), live.faulted, live.healthy)
    ensures Steady(old(staging.faulted), staging.faulted, staging.healthy)
    ensures r.Some? ==> CountsLists(r.value)
    ensures !staging.faulted && !live.faulted ==> r.Some? && IsDiff(plan, live.nodes, r.value.diff.value)
  {
    var ok, diff := ComputeDryRunDiff(staging, live, rules, roots);
    if !ok {
      return None;
    }
    return Some(SyncResult(|diff.added|, |diff.modified|, |diff.deleted|, Some(diff)));
  }

  /** `ExecutePlan`. `None` is an error return; `exact` says that no call faulted before the
      final removal of staging, whose result the code ignores. */
  method ExecutePlan(plan: SyncPlan, staging: FileTree, live: FileTree)
    returns (r: Option<SyncResult>, ghost exact: bool)
    requires PlanOk(plan) && staging != live && staging.Valid() && live.Valid()
    modifies staging, live
    ensures staging.Valid() && live.Valid() && (!staging.faulted && !live.faulted ==> exact)
    ensures staging.healthy && live.healthy && !old(staging.faulted) && !old(live.faulted) ==> exact
    ensures Steady(old(live.faulted), live.faulted, live.healthy)
    ensures Steady(old(staging.faulted), staging.faulted, staging.healthy)
    ensures plan.dryRun ==> live.nodes == old(live.nodes)
    ensures RunTrace(plan, old(live.nodes), live.nodes)
    ensures exact ==> r.Some? == (Stages(plan) && (plan.dryRun || Mergeable(old(live.nodes), Staged(plan))))
    ensures exact && r.Some? && !plan.dryRun ==>
              && live.nodes == Synced(plan, old(live.nodes))
              && r.value.filesAdded == |AddedSet(old(live.nodes), Staged(plan))|
              && r.value.filesModified == |ModifiedSet(old(live.nodes), Staged(plan))|
              && r.value.filesDeleted == |OrphansOf(plan, old(live.nodes))|
    ensures r.Some? && plan.dryRun ==> CountsLists(r.value)
    ensures exact && r.Some? && plan.dryRun ==> IsDiff(plan, old(live.nodes), r.value.diff.value)
    ensures !staging.faulted && r.Some? ==> staging.nodes == map[]
  {
    hide MergeTrace, CleanTrace, OrphanSet, Without, Mergeable, StageTree, StageOk, AddedSet, ModifiedSet,
         IsDiff, CountsLists, PlanOk;
    var excludes := MergeExcludes(plan.excludePatterns);
    var rules := Rules(plan.glob, excludes);
    var ok := staging.RemoveAll();
    if !ok {
      return None, false;
    }
    var staged;
    ok, staged := StageAll(staging, plan, rules);
    if !ok {
      return None, !staging.faulted && !live.faulted;
    }
    StageTreeOk(plan, rules, |plan.mappings|);
    var roots := ComputeManagedRoots(plan);
    if plan.dryRun {
      r := DiffLive(plan, rules, roots, staging, live);
    } else {
      r := SyncLive(plan, rules, roots, staging, live);
    }
    exact := !staging.faulted && !live.faulted;
    if r.Some? {
      ok := staging.RemoveAll();
    }
  }
}
