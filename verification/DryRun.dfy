/** Phase 2 of a dry run: the diff of staging against live, which writes nothing. */
module DryRun {
  import opened Paths
  import opened FileTrees
  import opened SyncPlans
  import opened Walks
  import opened Orphans
  import opened Cleanup
  import opened Merge

  /** `DryRunDiff`. */
  datatype DryRunDiff = DryRunDiff(added: seq<Path>, modified: seq<Path>, deleted: seq<Path>)

  /** The list holds the members of the set, each once. */
  ghost predicate Lists(s: seq<Path>, members: set<Path>) {
    (set x | x in s) == members && |s| == |members|
  }

  lemma ListOneMore(s: seq<Path>, members: set<Path>, x: Path)
    requires Lists(s, members) && x !in members
    ensures Lists(s + [x], members + {x})
  {
    assert (set y | y in s + [x]) == (set y | y in s) + {x};
  }

  /** Staged files whose live path does not exist. */
  ghost function DiffAdded(live: Tree, staging: Tree): set<Path> {
    set p | p in staging && staging[p].File? && StatOf(live, p) == NotExist
  }

  /** Staged files whose live path answers, but not with an equal regular file. */
  ghost function DiffModified(live: Tree, staging: Tree): set<Path> {
    set p | p in staging && staging[p].File? && StatOf(live, p) != NotExist && !(p in live && live[p] == staging[p])
  }

  ghost predicate ListedSoFar(members: set<Path>, visited: set<Path>, s: seq<Path>) {
    Lists(s, members * visited)
  }

  lemma ListedVisit(members: set<Path>, visited: set<Path>, s: seq<Path>, p: Path)
    requires ListedSoFar(members, visited, s) && p !in visited
    ensures ListedSoFar(members, visited + {p}, if p in members then s + [p] else s)
  {
    assert members * (visited + {p}) == if p in members then members * visited + {p} else members * visited;
    if p in members {
      ListOneMore(s, members * visited, p);
    }
  }

  lemma ListedNothing(members: set<Path>)
    ensures ListedSoFar(members, {}, [])
  {
    assert members * {} == {};
  }

  lemma ListedAll(members: set<Path>, visited: set<Path>, s: seq<Path>)
    requires ListedSoFar(members, visited, s) && members <= visited
    ensures Lists(s, members)
  {
    assert members * visited == members;
  }

  lemma InDiff(live: Tree, staging: Tree, p: Path)
    requires p in staging && TreeOk(staging)
    ensures p in DiffAdded(live, staging) <==> staging[p].File? && StatOf(live, p) == NotExist
    ensures p in DiffModified(live, staging) <==>
            staging[p].File? && StatOf(live, p) != NotExist && !(p in live && live[p] == staging[p])
    ensures [] !in DiffAdded(live, staging) && [] !in DiffModified(live, staging)
  {
  }

  lemma RootNotInDiff(live: Tree, staging: Tree)
    requires TreeOk(staging)
    ensures [] !in DiffAdded(live, staging) && [] !in DiffModified(live, staging)
  {
  }

  lemma DiffVisited(live: Tree, staging: Tree, visited: set<Path>)
    requires TreeOk(staging) && WalkInv(staging, StagingDoors(staging), visited, {})
    ensures DiffAdded(live, staging) <= visited && DiffModified(live, staging) <= visited
  {
    AllVisited(staging, visited);
  }

  /** The first walk of `computeDryRunDiff`. */
  method DiffStaged(staging: FileTree, live: FileTree) returns (ok: bool, added: seq<Path>, modified: seq<Path>)
    requires staging != live && staging.Valid() && live.Valid()
    requires forall p | p in staging.nodes :: staging.nodes[p] != Symlink
    modifies live`faulted, staging`faulted
    ensures Steady(old(live.faulted), live.faulted, live.healthy)
    ensures Steady(old(staging.faulted), staging.faulted, staging.healthy)
    ensures !staging.faulted && !live.faulted ==>
              && ok
              && Lists(added, DiffAdded(live.nodes, staging.nodes))
              && Lists(modified, DiffModified(live.nodes, staging.nodes))
  {
    hide TreeOk, WalkInv, StagingDoors, KidsOf, ChildrenOf, DiffAdded, DiffModified, ListedSoFar, Lists, StatOf;
    ghost var a, m := DiffAdded(live.nodes, staging.nodes), DiffModified(live.nodes, staging.nodes);
    ghost var visited: set<Path> := {};
    var pending: set<Path> := {[]};
    added, modified := [], [];
    WalkStart(staging.nodes, StagingDoors(staging.nodes));
    ListedNothing(a);
    ListedNothing(m);
    RootNotInDiff(live.nodes, staging.nodes);
    while pending != {}
      invariant Steady(old(live.faulted), live.faulted, live.healthy)
      invariant Steady(old(staging.faulted), staging.faulted, staging.healthy)
      invariant WalkInv(staging.nodes, StagingDoors(staging.nodes), visited, pending)
      invariant !staging.faulted && !live.faulted ==>
                  ListedSoFar(a, visited, added) && ListedSoFar(m, visited, modified)
      decreases staging.nodes.Keys + {[]} - visited
    {
      var p :| p in pending;
      PendingFacts(staging.nodes, StagingDoors(staging.nodes), visited, pending, p);
      WalkStep(staging.nodes, StagingDoors(staging.nodes), visited, pending, p);
      if !staging.faulted && !live.faulted {
        ListedVisit(a, visited, added, p);
        ListedVisit(m, visited, modified, p);
      }
      if p != [] {
        InDiff(live.nodes, staging.nodes, p);
        if staging.nodes[p] != Dir {
          var stat := live.Lstat(p);
          if stat == NotExist {
            added := added + [p];
          } else {
            var equal := live.FilesEqual(staging.nodes[p], p);
            if !equal {
              modified := modified + [p];
            }
          }
        }
      }
      StagingDoorIff(staging.nodes, p);
      var listed: set<Path> := {};
      if p == [] || staging.nodes[p] == Dir {
        ok, listed := staging.ReadDir(p);
        if !ok {
          return;
        }
      }
      visited := visited + {p};
      pending := pending - {p} + listed;
    }
    ok := true;
    DiffVisited(live.nodes, staging.nodes, visited);
    if !staging.faulted && !live.faulted {
      ListedAll(a, visited, added);
      ListedAll(m, visited, modified);
    }
  }

  lemma LivePending(live: Tree, rules: Rules, roots: set<string>, visited: set<Path>, pending: set<Path>, p: Path)
    requires WalkInv(live, LiveDoors(live, rules, roots), visited, pending) && p in pending && TreeOk(live)
    ensures (p == [] || (p in live && IsClean(p))) && p !in visited
    ensures visited <= live.Keys + {[]}
    ensures !Pruned(rules, Render(p)) ==> ClearWay(rules, p)
  {
    if !Pruned(rules, Render(p)) {
      ReachedOnClearWay(live, rules, roots, visited, pending, p);
    }
  }

  /** The second walk of `computeDryRunDiff`. */
  method DiffDeleted(staging: FileTree, live: FileTree, rules: Rules, roots: set<string>)
    returns (ok: bool, deleted: seq<Path>)
    requires staging != live && live.Valid()
    modifies live`faulted, staging`faulted
    ensures Steady(old(live.faulted), live.faulted, live.healthy)
    ensures Steady(old(staging.faulted), staging.faulted, staging.healthy)
    ensures !staging.faulted && !live.faulted ==>
              ok && Lists(deleted, OrphanSet(live.nodes, staging.nodes, rules, roots))
  {
    hide TreeOk, WalkInv, LiveDoors, KidsOf, ChildrenOf, OrphanSet, Orphan, ListedSoFar, Lists, StatOf,
         Managed, LeadsToRoot, ClearWay, Pruned;
    ghost var orphans := OrphanSet(live.nodes, staging.nodes, rules, roots);
    ghost var visited: set<Path> := {};
    var pending: set<Path> := {[]};
    deleted := [];
    WalkStart(live.nodes, LiveDoors(live.nodes, rules, roots));
    ListedNothing(orphans);
    while pending != {}
      invariant Steady(old(live.faulted), live.faulted, live.healthy)
      invariant Steady(old(staging.faulted), staging.faulted, staging.healthy)
      invariant WalkInv(live.nodes, LiveDoors(live.nodes, rules, roots), visited, pending)
      invariant !staging.faulted && !live.faulted ==> ListedSoFar(orphans, visited, deleted)
      decreases live.nodes.Keys + {[]} - visited
    {
      var p :| p in pending;
      LivePending(live.nodes, rules, roots, visited, pending, p);
      WalkStep(live.nodes, LiveDoors(live.nodes, rules, roots), visited, pending, p);
      if !staging.faulted && !live.faulted {
        ListedVisit(orphans, visited, deleted, p);
      }
      var door, file := true, false;
      if p != [] {
        door, file := Classify(live.nodes[p], p, rules, roots);
      }
      if file {
        OrphanIff(live.nodes, staging.nodes, rules, roots, p);
        var stat := staging.Lstat(p);
        if stat == NotExist {
          deleted := deleted + [p];
        }
      } else {
        NoOrphan(live.nodes, staging.nodes, rules, roots, p);
      }
      DoorIff(live.nodes, rules, roots, p, door);
      var listed: set<Path> := {};
      if door {
        ok, listed := live.ReadDir(p);
        if !ok {
          return;
        }
      }
      visited := visited + {p};
      pending := pending - {p} + listed;
    }
    ok := true;
    AllOrphansVisited(live.nodes, staging.nodes, rules, roots, visited);
    if !staging.faulted && !live.faulted {
      ListedAll(orphans, visited, deleted);
    }
  }

  /** `computeDryRunDiff`. */
  method ComputeDryRunDiff(staging: FileTree, live: FileTree, rules: Rules, roots: set<string>)
    returns (ok: bool, diff: DryRunDiff)
    requires staging != live && staging.Valid() && live.Valid()
    requires forall p | p in staging.nodes :: staging.nodes[p] != Symlink
    modifies live`faulted, staging`faulted
    ensures Steady(old(live.faulted), live.faulted, live.healthy)
    ensures Steady(old(staging.faulted), staging.faulted, staging.healthy)
    ensures !staging.faulted && !live.faulted ==>
              && ok
              && Lists(diff.added, DiffAdded(live.nodes, staging.nodes))
              && Lists(diff.modified, DiffModified(live.nodes, staging.nodes))
              && Lists(diff.deleted, OrphanSet(live.nodes, staging.nodes, rules, roots))
  {
    var added, modified, deleted := [], [], [];
    ok, added, modified := DiffStaged(staging, live);
    if ok {
      ok, deleted := DiffDeleted(staging, live, rules, roots);
    }
    diff := DryRunDiff(added, modified, deleted);
  }
}
