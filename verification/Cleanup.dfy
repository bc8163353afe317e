/** Phase 2b of a live sync: removing orphans, in place, while walking the live tree. */
module Cleanup {
  import opened Paths
  import opened FileTrees
  import opened SyncPlans
  import opened Walks
  import opened Orphans

  /** No emptied directory is left when the climb stops at one that is not emptied. */
  lemma StopHere(before: Tree, now: Tree, gone: set<Path>, roots: set<string>, f: Path, dir: Path)
    requires TreeOk(before) && f in before && f in gone && dir < f && dir != []
    requires (forall q | q in now :: q != []) && !Emptied(before, gone, roots, dir)
    requires ClimbedTo(before, now, gone, roots, f, |dir|)
    ensures NoneEmptied(before, now, gone, roots)
  {
    forall q | q in now ensures !Emptied(before, gone, roots, q) {
      if Emptied(before, gone, roots, q) {
        assert q <= dir;
        ClimbStops(before, gone, roots, f, dir, q);
      }
    }
  }

  lemma RemovedOnTheClimb(before: Tree, now: Tree, gone: set<Path>, roots: set<string>, f: Path, dir: Path)
    requires dir != [] && dir < f && dir in now && Emptied(before, gone, roots, dir)
    requires Shrunk(before, now, gone, roots)
    ensures Shrunk(before, now - {dir}, gone, roots)
    ensures ClimbedTo(before, now, gone, roots, f, |dir|) ==>
              ClimbedTo(before, now - {dir}, gone, roots, f, |dir| - 1)
  {
    var now' := now - {dir};
    forall q: Path | q < f && |q| == |dir| ensures q == dir {
      assert q == f[..|dir|];
    }
  }

  /** One step of the climb: whether `dir` was removed. */
  method RemoveIfEmpty(live: FileTree, ghost before: Tree, ghost gone: set<Path>, f: Path, dir: Path, roots: set<string>,
                       ghost exact: bool)
    returns (removed: bool)
    requires live.Valid() && TreeOk(before) && f in before && f in gone && dir < f && dir != []
    requires forall x | x in gone :: x in before && before[x].File?
    requires DirAt(live.nodes, dir) && Shrunk(before, live.nodes, gone, roots)
    requires exact && !live.faulted ==> ClimbedTo(before, live.nodes, gone, roots, f, |dir|)
    modifies live
    ensures live.Valid() && Steady(old(live.faulted), live.faulted, live.healthy)
    ensures Shrunk(before, live.nodes, gone, roots)
    ensures removed ==> DirAt(live.nodes, Parent(dir))
    ensures removed && exact && !live.faulted ==> ClimbedTo(before, live.nodes, gone, roots, f, |dir| - 1)
    ensures !removed && exact && !live.faulted ==> NoneEmptied(before, live.nodes, gone, roots)
  {
    ghost var now := live.nodes;
    ParentIsDir(now, dir);
    RootTests(roots, dir);
    if !IsUnderManagedRoot(Render(dir), roots) {
      if exact && !live.faulted {
        StopHere(before, now, gone, roots, f, dir);
      }
      return false;
    }
    var ok, entries := live.ReadDir(dir);
    if !ok || entries != {} {
      if exact && !live.faulted {
        if Emptied(before, gone, roots, dir) {
          EmptiedIsEmpty(before, now, gone, roots, f, dir);
        }
        StopHere(before, now, gone, roots, f, dir);
      }
      return false;
    }
    EmptyIsEmptied(before, now, gone, roots, f, dir);
    RemovedOnTheClimb(before, now, gone, roots, f, dir);
    removed := live.Remove(dir);
  }

  /** The climb after the file `f` was removed: delete empty parents while they are managed. */
  method Climb(live: FileTree, ghost before: Tree, ghost gone: set<Path>, f: Path, roots: set<string>, ghost exact: bool)
    requires live.Valid() && TreeOk(before) && f != [] && f in before && f in gone
    requires forall x | x in gone :: x in before && before[x].File?
    requires DirAt(live.nodes, Parent(f)) && Shrunk(before, live.nodes, gone, roots)
    requires exact && !live.faulted ==> ClimbedTo(before, live.nodes, gone, roots, f, |f| - 1)
    modifies live
    ensures live.Valid() && Steady(old(live.faulted), live.faulted, live.healthy)
    ensures Shrunk(before, live.nodes, gone, roots)
    ensures exact && !live.faulted ==> NoneEmptied(before, live.nodes, gone, roots)
  {
    var dir := Parent(f);
    while dir != []
      invariant dir < f && DirAt(live.nodes, dir)
      invariant live.Valid() && Steady(old(live.faulted), live.faulted, live.healthy)
      invariant Shrunk(before, live.nodes, gone, roots)
      invariant exact && !live.faulted ==> ClimbedTo(before, live.nodes, gone, roots, f, |dir|)
      decreases |dir|
    {
      var removed := RemoveIfEmpty(live, before, gone, f, dir, roots, exact);
      if !removed {
        return;
      }
      dir := Parent(dir);
    }
  }

  // ------------------------------------------------------------ cleanOrphans

  /** The live directories the cleanup walk goes into. */
  ghost function LiveDoors(live: Tree, rules: Rules, roots: set<string>): set<Path> {
    set p | p in live.Keys + {[]} && (p == [] || (
      live[p].Dir? && !Pruned(rules, Render(p)) && (Managed(roots, p) || LeadsToRoot(roots, p))))
  }

  /** Skipping directories hides no orphan: the way to one leads through doors only. */
  lemma WayToOrphan(live: Tree, rules: Rules, roots: set<string>, p: Path)
    requires TreeOk(live) && p in live && Managed(roots, p) && ClearWay(rules, p)
    ensures Open(LiveDoors(live, rules, roots), p)
  {
    forall k | 0 <= k < |p| ensures p[..k] in LiveDoors(live, rules, roots) {
      WayToManaged(roots, p, k);
      if k > 0 {
        assert p[..k] in live;
      }
    }
  }

  /** And the walk reaches managed files on a clear way only. */
  lemma ReachedOnClearWay(live: Tree, rules: Rules, roots: set<string>, visited: set<Path>, pending: set<Path>, p: Path)
    requires WalkInv(live, LiveDoors(live, rules, roots), visited, pending)
    requires p in pending && !Pruned(rules, Render(p))
    ensures ClearWay(rules, p)
  {
    forall k | 0 < k <= |p| ensures !Pruned(rules, Render(p[..k])) {
      if k < |p| {
        WayOpen(live, LiveDoors(live, rules, roots), visited, pending, p, k);
      } else {
        assert p[..k] == p;
      }
    }
  }

  /** What cleanup has established with `visited` behind it and the files `gone` removed. */
  ghost predicate CleanedSoFar(before: Tree, now: Tree, gone: set<Path>, orphans: set<Path>, roots: set<string>,
                               visited: set<Path>, exact: bool)
  {
    && gone <= orphans * visited
    && Shrunk(before, now, gone, roots)
    && (exact ==> gone == orphans * visited && NoneEmptied(before, now, gone, roots))
  }

  /** The climb never removes an entry the walk has yet to visit. */
  lemma UnvisitedStays(before: Tree, now: Tree, doors: set<Path>, gone: set<Path>, roots: set<string>,
                       visited: set<Path>, pending: set<Path>, p: Path)
    requires WalkInv(before, doors, visited, pending) && p in before && p !in visited
    requires gone <= visited && Shrunk(before, now, gone, roots)
    ensures p in now && now[p] == before[p]
  {
    forall x | x in gone && p < x ensures x[..|p|] == p && x[..|p|] in visited {
      WayOpen(before, doors, visited, pending, x, |p|);
    }
  }

  /** So a directory is listed in full. */
  lemma ListedInFull(before: Tree, now: Tree, doors: set<Path>, gone: set<Path>, roots: set<string>,
                     visited: set<Path>, pending: set<Path>, p: Path)
    requires WalkInv(before, doors, visited, pending) && p !in visited && (p == [] || p in before)
    requires gone <= visited && Shrunk(before, now, gone, roots)
    ensures ChildrenOf(now, p) == ChildrenOf(before, p)
    ensures DirAt(before, p) ==> DirAt(now, p)
  {
    forall c | c in ChildrenOf(before, p) ensures c in now {
      if c in visited {
        WayOpen(before, doors, visited, pending, c, |p|);
      }
      UnvisitedStays(before, now, doors, gone, roots, visited, pending, c);
    }
    if p != [] {
      UnvisitedStays(before, now, doors, gone, roots, visited, pending, p);
    }
  }

  /** Removing one more orphan, before the climb. */
  lemma OneMoreGone(before: Tree, now: Tree, gone: set<Path>, roots: set<string>, f: Path, exact: bool)
    requires TreeOk(before) && f in before && before[f].File? && f !in gone && f in now
    requires Shrunk(before, now, gone, roots)
    requires exact ==> NoneEmptied(before, now, gone, roots)
    ensures Shrunk(before, now - {f}, gone + {f}, roots)
    ensures exact ==> ClimbedTo(before, now - {f}, gone + {f}, roots, f, |f| - 1)
  {
    forall q | q in before {
      EmptiedElsewhere(before, gone, roots, f, q);
    }
  }

  /** The callback of `cleanOrphans` at a managed regular file. */
  method RemoveIfOrphan(staging: FileTree, live: FileTree, ghost before: Tree, ghost gone: set<Path>,
                        p: Path, roots: set<string>)
    returns (ok: bool, removed: bool)
    requires staging != live && live.Valid() && TreeOk(before) && p !in gone && p != []
    requires p in live.nodes && live.nodes[p].File? && p in before && before[p].File?
    requires forall x | x in gone :: x in before && before[x].File?
    requires Shrunk(before, live.nodes, gone, roots)
    requires !staging.faulted && !live.faulted ==> NoneEmptied(before, live.nodes, gone, roots)
    modifies live, staging`faulted
    ensures live.Valid() && Steady(old(live.faulted), live.faulted, live.healthy)
    ensures Steady(old(staging.faulted), staging.faulted, staging.healthy)
    ensures !staging.faulted && !live.faulted ==> ok && removed == (StatOf(staging.nodes, p) == NotExist)
    ensures removed ==> StatOf(staging.nodes, p) == NotExist
    ensures Shrunk(before, live.nodes, if removed then gone + {p} else gone, roots)
    ensures !staging.faulted && !live.faulted ==>
              NoneEmptied(before, live.nodes, if removed then gone + {p} else gone, roots)
  {
    hide Emptied, Shrunk, NoneEmptied, ClimbedTo, TreeOk, ChildrenOf, StatOf;
    var stat := staging.Lstat(p);
    if stat != NotExist {
      return true, false;
    }
    ghost var now := live.nodes;
    FileHasNoChildren(now, p);
    ParentIsDir(now, p);
    OneMoreGone(before, now, gone, roots, p, !staging.faulted && !live.faulted);
    removed := live.Remove(p);
    if !removed {
      return false, false;
    }
    Climb(live, before, gone + {p}, p, roots, !staging.faulted);
    ok := true;
  }

  /** One more entry visited. */
  lemma VisitedOneMore(before: Tree, now: Tree, gone: set<Path>, gone': set<Path>, orphans: set<Path>,
                       roots: set<string>, visited: set<Path>, exact: bool, p: Path, removed: bool)
    requires gone <= orphans * visited && p !in visited
    requires gone' == if removed then gone + {p} else gone
    requires removed ==> p in orphans
    requires exact ==> gone == orphans * visited && (removed <==> p in orphans)
    requires Shrunk(before, now, gone', roots)
    requires exact ==> NoneEmptied(before, now, gone', roots)
    ensures CleanedSoFar(before, now, gone', orphans, roots, visited + {p}, exact)
  {
  }

  lemma NothingCleaned(before: Tree, orphans: set<Path>, roots: set<string>, exact: bool)
    ensures CleanedSoFar(before, before, {}, orphans, roots, {}, exact)
  {
  }

  lemma CleanedFacts(before: Tree, now: Tree, gone: set<Path>, orphans: set<Path>, roots: set<string>,
                     visited: set<Path>, exact: bool)
    requires CleanedSoFar(before, now, gone, orphans, roots, visited, exact)
    ensures gone <= orphans * visited && Shrunk(before, now, gone, roots)
    ensures exact ==> gone == orphans * visited && NoneEmptied(before, now, gone, roots)
  {
  }

  lemma WalkFacts(t: Tree, doors: set<Path>, visited: set<Path>, pending: set<Path>, p: Path)
    requires WalkInv(t, doors, visited, pending) && p in pending
    ensures (p == [] || p in t) && p !in visited
    ensures visited <= t.Keys + {[]}
  {
  }

  lemma OrphansAreFiles(live: Tree, staging: Tree, rules: Rules, roots: set<string>)
    ensures forall x | x in OrphanSet(live, staging, rules, roots) :: x in live && live[x].File?
  {
  }

  lemma DoorIff(live: Tree, rules: Rules, roots: set<string>, p: Path, door: bool)
    requires p == [] || p in live
    requires door == (p == [] || (live[p].Dir? && !Pruned(rules, Render(p)) &&
                                  (Managed(roots, p) || LeadsToRoot(roots, p))))
    ensures KidsOf(live, LiveDoors(live, rules, roots), p) == if door then ChildrenOf(live, p) else {}
    ensures door ==> DirAt(live, p)
  {
  }

  lemma OrphanIff(live: Tree, staging: Tree, rules: Rules, roots: set<string>, p: Path)
    requires p in live && live[p].File? && Managed(roots, p) && ClearWay(rules, p)
    ensures p in OrphanSet(live, staging, rules, roots) <==> StatOf(staging, p) == NotExist
  {
  }

  lemma AllClean(before: Tree, now: Tree, orphans: set<Path>, roots: set<string>)
    requires Shrunk(before, now, orphans, roots) && NoneEmptied(before, now, orphans, roots)
    ensures now == Without(before, orphans, roots)
  {
  }

  /** The callback of `cleanOrphans` at any entry but the root. */
  method VisitLive(staging: FileTree, live: FileTree, rules: Rules, roots: set<string>, p: Path,
                   ghost before: Tree, ghost gone: set<Path>, ghost visited: set<Path>, ghost pending: set<Path>)
    returns (ok: bool, removed: bool, door: bool)
    requires staging != live && live.Valid() && TreeOk(before) && p != [] && p in pending
    requires WalkInv(before, LiveDoors(before, rules, roots), visited, pending)
    requires CleanedSoFar(before, live.nodes, gone, OrphanSet(before, staging.nodes, rules, roots), roots,
                          visited, !staging.faulted && !live.faulted)
    modifies live, staging`faulted
    ensures live.Valid() && Steady(old(live.faulted), live.faulted, live.healthy)
    ensures Steady(old(staging.faulted), staging.faulted, staging.healthy)
    ensures p in before && p !in visited
    ensures door == (before[p].Dir? && !Pruned(rules, Render(p)) && (Managed(roots, p) || LeadsToRoot(roots, p)))
    ensures door ==> !removed
    ensures !staging.faulted && !live.faulted ==> ok
    ensures CleanedSoFar(before, live.nodes, if removed then gone + {p} else gone,
                         OrphanSet(before, staging.nodes, rules, roots), roots,
                         visited + {p}, !staging.faulted && !live.faulted)
  {
    hide CleanedSoFar, Shrunk, Emptied, NoneEmptied, OrphanSet, Orphan, LiveDoors, WalkInv, ChildrenOf,
         Managed, LeadsToRoot, ClearWay, StatOf, Pruned;
    ghost var orphans, doors := OrphanSet(before, staging.nodes, rules, roots), LiveDoors(before, rules, roots);
    WalkFacts(before, doors, visited, pending, p);
    CleanedFacts(before, live.nodes, gone, orphans, roots, visited, !staging.faulted && !live.faulted);
    OrphansAreFiles(before, staging.nodes, rules, roots);
    UnvisitedStays(before, live.nodes, doors, gone, roots, visited, pending, p);
    var file;
    door, file := Classify(live.nodes[p], p, rules, roots);
    if file {
      ReachedOnClearWay(before, rules, roots, visited, pending, p);
      OrphanIff(before, staging.nodes, rules, roots, p);
      ok, removed := RemoveIfOrphan(staging, live, before, gone, p, roots);
    } else {
      NoOrphan(before, staging.nodes, rules, roots, p);
      ok, removed := true, false;
    }
    VisitedOneMore(before, live.nodes, gone, if removed then gone + {p} else gone, orphans, roots, visited,
                   !staging.faulted && !live.faulted, p, removed);
  }

  /** A tree partly cleaned is the trace of a cleanup. */
  lemma CleanedIsTrace(before: Tree, now: Tree, gone: set<Path>, orphans: set<Path>, roots: set<string>,
                       visited: set<Path>, exact: bool)
    requires CleanedSoFar(before, now, gone, orphans, roots, visited, exact)
    requires forall x | x in orphans :: x in before && before[x].File?
    ensures CleanTrace(before, now, orphans, roots)
  {
    StoppedClean(before, now, gone, orphans, roots);
  }

  /** One step of the walk: visit `p` and list it if it is a door. */
  method CleanStep(staging: FileTree, live: FileTree, rules: Rules, roots: set<string>, p: Path,
                   ghost before: Tree, ghost gone: set<Path>, ghost visited: set<Path>, ghost pending: set<Path>)
    returns (ok: bool, removed: bool, listed: set<Path>)
    requires staging != live && live.Valid() && TreeOk(before) && p in pending
    requires WalkInv(before, LiveDoors(before, rules, roots), visited, pending)
    requires CleanedSoFar(before, live.nodes, gone, OrphanSet(before, staging.nodes, rules, roots), roots,
                          visited, !staging.faulted && !live.faulted)
    modifies live, staging`faulted
    ensures live.Valid() && Steady(old(live.faulted), live.faulted, live.healthy)
    ensures Steady(old(staging.faulted), staging.faulted, staging.healthy)
    ensures !staging.faulted && !live.faulted ==> ok
    ensures CleanedSoFar(before, live.nodes, if removed then gone + {p} else gone,
                         OrphanSet(before, staging.nodes, rules, roots), roots,
                         visited + {p}, !staging.faulted && !live.faulted)
    ensures ok ==> WalkInv(before, LiveDoors(before, rules, roots), visited + {p}, pending - {p} + listed)
  {
    hide CleanedSoFar, Shrunk, Emptied, NoneEmptied, OrphanSet, Orphan, LiveDoors, WalkInv, ChildrenOf,
         Managed, LeadsToRoot, ClearWay, StatOf, Pruned, TreeOk, KidsOf;
    ghost var orphans, doors := OrphanSet(before, staging.nodes, rules, roots), LiveDoors(before, rules, roots);
    ghost var exact := !staging.faulted && !live.faulted;
    WalkFacts(before, doors, visited, pending, p);
    WalkStep(before, doors, visited, pending, p);
    CleanedFacts(before, live.nodes, gone, orphans, roots, visited, exact);
    var door := true;
    if p != [] {
      ok, removed, door := VisitLive(staging, live, rules, roots, p, before, gone, visited, pending);
    } else {
      NoOrphan(before, staging.nodes, rules, roots, p);
      VisitedOneMore(before, live.nodes, gone, gone, orphans, roots, visited, exact, p, false);
      ok, removed := true, false;
    }
    listed := {};
    DoorIff(before, rules, roots, p, door);
    if ok && door {
      CleanedFacts(before, live.nodes, gone, orphans, roots, visited + {p}, !staging.faulted && !live.faulted);
      ListedInFull(before, live.nodes, doors, gone, roots, visited, pending, p);
      ok, listed := live.ReadDir(p);
    }
    LessExact(before, live.nodes, if removed then gone + {p} else gone, orphans, roots, visited + {p},
              !staging.faulted && !live.faulted);
  }

  lemma LessExact(before: Tree, now: Tree, gone: set<Path>, orphans: set<Path>, roots: set<string>,
                  visited: set<Path>, exact: bool)
    ensures forall e | CleanedSoFar(before, now, gone, orphans, roots, visited, e) && (exact ==> e) ::
              CleanedSoFar(before, now, gone, orphans, roots, visited, exact)
  {
  }

  /** The walk of `cleanOrphans`, up to its end or to the first failure. */
  method CleanWalk(staging: FileTree, live: FileTree, rules: Rules, roots: set<string>)
    returns (ok: bool, deleted: nat, ghost gone: set<Path>, ghost visited: set<Path>)
    requires staging != live && live.Valid()
    modifies live, staging`faulted
    ensures live.Valid() && Steady(old(live.faulted), live.faulted, live.healthy)
    ensures Steady(old(staging.faulted), staging.faulted, staging.healthy)
    ensures CleanedSoFar(old(live.nodes), live.nodes, gone, OrphanSet(old(live.nodes), staging.nodes, rules, roots),
                         roots, visited, !staging.faulted && !live.faulted)
    ensures ok ==> WalkInv(old(live.nodes), LiveDoors(old(live.nodes), rules, roots), visited, {})
    ensures !staging.faulted && !live.faulted ==> ok
    ensures deleted == |gone|
  {
    hide CleanedSoFar, OrphanSet, LiveDoors, WalkInv, TreeOk;
    ghost var before := live.nodes;
    ghost var orphans := OrphanSet(before, staging.nodes, rules, roots);
    gone, visited, deleted, ok := {}, {}, 0, true;
    var pending: set<Path> := {[]};
    WalkStart(before, LiveDoors(before, rules, roots));
    NothingCleaned(before, orphans, roots, !staging.faulted && !live.faulted);
    while pending != {}
      invariant live.Valid() && Steady(old(live.faulted), live.faulted, live.healthy)
      invariant Steady(old(staging.faulted), staging.faulted, staging.healthy)
      invariant WalkInv(before, LiveDoors(before, rules, roots), visited, pending) && ok
      invariant CleanedSoFar(before, live.nodes, gone, orphans, roots, visited, !staging.faulted && !live.faulted)
      invariant deleted == |gone|
      decreases before.Keys + {[]} - visited
    {
      var p :| p in pending;
      WalkFacts(before, LiveDoors(before, rules, roots), visited, pending, p);
      CleanedFacts(before, live.nodes, gone, orphans, roots, visited, !staging.faulted && !live.faulted);
      var removed, listed;
      ok, removed, listed := CleanStep(staging, live, rules, roots, p, before, gone, visited, pending);
      if removed {
        deleted := deleted + 1;
        gone := gone + {p};
      }
      visited := visited + {p};
      if !ok {
        return;
      }
      pending := pending - {p} + listed;
    }
  }

  /** `cleanOrphans`: remove the live files that are under managed roots but not in staging. */
  method CleanOrphans(staging: FileTree, live: FileTree, rules: Rules, roots: set<string>)
    returns (ok: bool, deleted: nat)
    requires staging != live && live.Valid()
    modifies live, staging`faulted
    ensures live.Valid() && Steady(old(live.faulted), live.faulted, live.healthy)
    ensures Steady(old(staging.faulted), staging.faulted, staging.healthy)
    ensures CleanTrace(old(live.nodes), live.nodes, OrphanSet(old(live.nodes), staging.nodes, rules, roots), roots)
    ensures !staging.faulted && !live.faulted ==>
              ok && deleted == |OrphanSet(old(live.nodes), staging.nodes, rules, roots)|
    ensures !staging.faulted && !live.faulted ==>
              live.nodes == Without(old(live.nodes), OrphanSet(old(live.nodes), staging.nodes, rules, roots), roots)
  {
    hide CleanedSoFar, OrphanSet, LiveDoors, WalkInv, TreeOk, CleanTrace, Without;
    ghost var before := live.nodes;
    ghost var orphans := OrphanSet(before, staging.nodes, rules, roots);
    ghost var gone, visited;
    ok, deleted, gone, visited := CleanWalk(staging, live, rules, roots);
    OrphansAreFiles(before, staging.nodes, rules, roots);
    CleanedIsTrace(before, live.nodes, gone, orphans, roots, visited, !staging.faulted && !live.faulted);
    if !staging.faulted && !live.faulted {
      CleanedFacts(before, live.nodes, gone, orphans, roots, visited, true);
      AllOrphansVisited(before, staging.nodes, rules, roots, visited);
      assert gone == orphans;
      AllClean(before, live.nodes, orphans, roots);
    }
  }

  /** How the callback sorts entries: directories to go into, files to check. */
  method Classify(n: Node, p: Path, rules: Rules, roots: set<string>) returns (door: bool, file: bool)
    requires p != [] && IsClean(p)
    ensures door == (n.Dir? && !Pruned(rules, Render(p)) && (Managed(roots, p) || LeadsToRoot(roots, p)))
    ensures file == (n.File? && !Pruned(rules, Render(p)) && Managed(roots, p))
  {
    RootTests(roots, p);
    if n == Symlink || Pruned(rules, Render(p)) {
      return false, false;
    }
    if !IsUnderManagedRoot(Render(p), roots) {
      return n == Dir && IsAncestorOfManagedRoot(Render(p), roots), false;
    }
    return n == Dir, n != Dir;
  }

  lemma NoOrphan(live: Tree, staging: Tree, rules: Rules, roots: set<string>, p: Path)
    requires p == [] || (p in live && !(live[p].File? && !Pruned(rules, Render(p)) && Managed(roots, p)))
    requires TreeOk(live)
    ensures p !in OrphanSet(live, staging, rules, roots)
  {
    assert p[..|p|] == p;
  }

  lemma StoppedClean(before: Tree, now: Tree, gone: set<Path>, orphans: set<Path>, roots: set<string>)
    requires Shrunk(before, now, gone, roots) && gone <= orphans
    requires forall x | x in orphans :: x in before && before[x].File?
    ensures CleanTrace(before, now, orphans, roots)
  {
    assert orphans - now.Keys == gone;
  }

  lemma AllOrphansVisited(live: Tree, staging: Tree, rules: Rules, roots: set<string>, visited: set<Path>)
    requires TreeOk(live) && WalkInv(live, LiveDoors(live, rules, roots), visited, {})
    ensures OrphanSet(live, staging, rules, roots) <= visited
  {
    forall p | p in OrphanSet(live, staging, rules, roots) ensures p in visited {
      WayToOrphan(live, rules, roots, p);
      WalkDone(live, LiveDoors(live, rules, roots), visited, p);
    }
  }
}
