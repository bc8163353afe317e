/** Phase 2a of a live sync: copying staging over the live tree. */
module Merge {
  import opened Paths
  import opened FileTrees
  import opened Walks

  /** No staged path meets a live entry of the other kind: directories lie over
      directories, files over files and links. */
  ghost predicate Mergeable(live: Tree, staging: Tree) {
    forall p | p in staging && p in live :: staging[p].Dir? == live[p].Dir?
  }

  function AddedSet(live: Tree, staging: Tree): set<Path> {
    set p | p in staging && staging[p].File? && p !in live
  }

  function ModifiedSet(live: Tree, staging: Tree): set<Path> {
    set p | p in staging && staging[p].File? && p in live && live[p] != staging[p]
  }

  /** The part of staging the walk has visited. */
  function Seen(staging: Tree, visited: set<Path>): Tree {
    map p | p in staging && p in visited :: staging[p]
  }

  /** A temporary file beside some staged file. */
  ghost predicate Leftover(staging: Tree, p: Path) {
    exists s | s in staging && staging[s].File? :: TempFor(s, p)
  }

  /** A merge that stopped at an arbitrary point: every entry is as it was or as staged,
      and what is new is staged or a temporary file. */
  ghost predicate MergeTrace(before: Tree, now: Tree, staging: Tree) {
    && (forall p | p in before :: p in now && (now[p] == before[p] || (p in staging && now[p] == staging[p])))
    && (forall p | p in now && p !in before ::
          (p in staging && now[p] == staging[p]) || (now[p].File? && Leftover(staging, p)))
  }

  lemma MergeTraceCopy(before: Tree, mid: Tree, now: Tree, staging: Tree, p: Path)
    requires TreeOk(staging) && p in staging && staging[p].File? && TreeOk(now)
    requires MergeTrace(before, mid, staging) && CopyTrace(mid, now, p, staging[p].content)
    ensures MergeTrace(before, now, staging)
  {
    forall q | q in now && q !in mid && q < p ensures q in staging && staging[q].Dir? {
      assert p[..|q|] == q;
    }
    forall q | q in now && q !in before
      ensures (q in staging && now[q] == staging[q]) || (now[q].File? && Leftover(staging, q))
    {
    }
  }

  lemma MergeTraceMkdir(before: Tree, mid: Tree, now: Tree, staging: Tree, p: Path)
    requires TreeOk(staging) && p in staging && staging[p].Dir? && TreeOk(now)
    requires MergeTrace(before, mid, staging)
    requires forall q | q in mid :: q in now && now[q] == mid[q]
    requires forall q | q in now && q !in mid :: q <= p && now[q].Dir?
    ensures MergeTrace(before, now, staging)
  {
    forall q | q in now && q !in mid ensures q in staging && staging[q].Dir? {
      assert p[..|q|] == q;
      assert |q| == |p| ==> q == p;
    }
  }

  /** What the merge walk has established with `visited` behind it. */
  ghost predicate MergedSoFar(before: Tree, now: Tree, staging: Tree, visited: set<Path>) {
    now == before + Seen(staging, visited) && Mergeable(before, Seen(staging, visited))
  }

  ghost function StagingDoors(staging: Tree): set<Path> {
    set p | p in staging.Keys + {[]} && (p == [] || staging[p].Dir?)
  }

  lemma WayThroughStaging(staging: Tree, p: Path)
    requires TreeOk(staging) && p in staging
    ensures Open(StagingDoors(staging), p)
  {
    forall k | 0 <= k < |p| ensures p[..k] in StagingDoors(staging) {
      if k > 0 {
        assert p[..k] in staging;
      }
    }
  }

  /** The directories above a pending entry are already live. */
  lemma ParentsLive(before: Tree, now: Tree, staging: Tree, visited: set<Path>, pending: set<Path>, p: Path, k: nat)
    requires TreeOk(staging) && WalkInv(staging, StagingDoors(staging), visited, pending)
    requires MergedSoFar(before, now, staging, visited) && p in pending && 0 < k < |p|
    ensures p[..k] in now && now[p[..k]].Dir?
  {
    WayOpen(staging, StagingDoors(staging), visited, pending, p, k);
  }

  lemma SeenOneMore(staging: Tree, visited: set<Path>, p: Path)
    requires p in staging && p !in visited
    ensures Seen(staging, visited + {p}) == Seen(staging, visited)[p := staging[p]]
    ensures p !in Seen(staging, visited)
  {
  }

  /** A directory or file put at `p`, where the parents are live. */
  lemma MergePut(before: Tree, now: Tree, staging: Tree, visited: set<Path>, p: Path)
    requires MergedSoFar(before, now, staging, visited) && p in staging && p !in visited
    requires p in before ==> staging[p].Dir? == before[p].Dir?
    ensures MergedSoFar(before, now[p := staging[p]], staging, visited + {p})
  {
    SeenOneMore(staging, visited, p);
  }

  lemma MkdirOne(t: Tree, p: Path)
    requires p != [] && forall k | 0 < k < |p| :: p[..k] in t && t[p[..k]].Dir?
    ensures CanMkdir(t, Parent(p)) && PutDirs(t, Parent(p)) == t
    ensures CanMkdir(t, p) <==> (p in t ==> t[p].Dir?)
    ensures CanMkdir(t, p) ==> PutDirs(t, p) == t[p := Dir]
  {
    assert p[..|p|] == p;
    forall k | 0 < k <= |Parent(p)| ensures Parent(p)[..k] == p[..k] {
    }
    PrefixesStep(p, |p| - 1);
    assert forall q | q in Prefixes(Parent(p)) :: q in t;
  }

  /** The callback of `mergeStagingToLive`: whether the entry was written, and whether it existed before. */
  method MergeEntry(live: FileTree, staging: Tree, p: Path, ghost before: Tree,
                    ghost visited: set<Path>, ghost pending: set<Path>)
    returns (ok: bool, written: bool, existed: bool)
    requires live.Valid() && TreeOk(staging) && p in staging && staging[p] != Symlink && p in pending
    requires WalkInv(staging, StagingDoors(staging), visited, pending)
    requires MergeTrace(before, live.nodes, staging) && MergedSoFar(before, live.nodes, staging, visited)
    modifies live
    ensures live.Valid() && Steady(old(live.faulted), live.faulted, live.healthy)
    ensures MergeTrace(before, live.nodes, staging)
    ensures !live.faulted ==> ok == (p in before ==> staging[p].Dir? == before[p].Dir?)
    ensures ok ==> MergedSoFar(before, live.nodes, staging, visited + {p})
    ensures !live.faulted && ok && staging[p].File? ==>
              && written == (p !in before || before[p] != staging[p])
              && existed == (p in before)
    ensures staging[p].Dir? ==> !written
  {
    hide TreeOk, MergeTrace, CopyTrace, MergedSoFar, WalkInv, StagingDoors;
    ghost var now, n := live.nodes, staging[p];
    assert IsClean(p) && p != [] by {
      EntryClean(staging, p);
    }
    EntryFacts(before, now, staging, visited, pending, p);
    written, existed := false, false;
    if staging[p] == Dir {
      ok := live.MkdirAll(p);
      MergeTraceMkdir(before, now, live.nodes, staging, p);
    } else {
      var stat := live.Lstat(p);
      existed := stat.Found?;
      var copied := live.CopyFile(staging[p], p);
      MergeTraceCopy(before, now, live.nodes, staging, p);
      ok := copied != Failed;
      written := copied == Written;
    }
    if ok {
      if !n.Dir? && !written {
        assert now[p := n] == now;
      }
      MergePut(before, now, staging, visited, p);
    }
  }

  lemma EntryClean(t: Tree, p: Path)
    requires TreeOk(t) && p in t
    ensures IsClean(p) && p != []
  {
  }

  lemma EntryFacts(before: Tree, now: Tree, staging: Tree, visited: set<Path>, pending: set<Path>, p: Path)
    requires TreeOk(staging) && WalkInv(staging, StagingDoors(staging), visited, pending)
    requires MergedSoFar(before, now, staging, visited) && p in pending && p in staging
    ensures p !in visited && (p in now <==> p in before) && (p in before ==> now[p] == before[p])
    ensures CanMkdir(now, Parent(p)) && PutDirs(now, Parent(p)) == now
    ensures CanMkdir(now, p) <==> (p in now ==> now[p].Dir?)
    ensures CanMkdir(now, p) ==> PutDirs(now, p) == now[p := Dir]
    ensures StatOf(now, p).Found? <==> p in now
  {
    forall k | 0 < k < |p| ensures p[..k] in now && now[p[..k]].Dir? {
      ParentsLive(before, now, staging, visited, pending, p, k);
    }
    MkdirOne(now, p);
  }

  /** The counters so far. */
  ghost predicate CountedSoFar(before: Tree, staging: Tree, visited: set<Path>, added: nat, modified: nat) {
    added == |AddedSet(before, staging) * visited| && modified == |ModifiedSet(before, staging) * visited|
  }

  lemma CountStep(s: set<Path>, visited: set<Path>, p: Path)
    requires p !in visited
    ensures |s * (visited + {p})| == |s * visited| + if p in s then 1 else 0
  {
    assert s * (visited + {p}) == if p in s then s * visited + {p} else s * visited;
  }

  lemma CountOneMore(before: Tree, staging: Tree, visited: set<Path>, added: nat, modified: nat,
                     p: Path, written: bool, existed: bool)
    requires CountedSoFar(before, staging, visited, added, modified) && p !in visited
    requires p == [] ==> p !in staging && !written
    requires p != [] ==> p in staging && (staging[p].Dir? ==> !written)
    requires p != [] && staging[p].File? ==>
               written == (p !in before || before[p] != staging[p]) && existed == (p in before)
    requires p != [] ==> staging[p] != Symlink
    ensures CountedSoFar(before, staging, visited + {p},
                         if written && !existed then added + 1 else added,
                         if written && existed then modified + 1 else modified)
  {
    CountStep(AddedSet(before, staging), visited, p);
    CountStep(ModifiedSet(before, staging), visited, p);
  }

  lemma NothingMerged(before: Tree, staging: Tree)
    ensures MergedSoFar(before, before, staging, {}) && MergeTrace(before, before, staging)
    ensures CountedSoFar(before, staging, {}, 0, 0)
  {
    assert Seen(staging, {}) == map[];
    assert AddedSet(before, staging) * {} == {} && ModifiedSet(before, staging) * {} == {};
  }

  lemma RootMerged(before: Tree, now: Tree, staging: Tree, visited: set<Path>)
    requires TreeOk(staging)
    ensures MergedSoFar(before, now, staging, visited) ==> MergedSoFar(before, now, staging, visited + {[]})
  {
    assert Seen(staging, visited + {[]}) == Seen(staging, visited);
  }

  lemma AllVisited(staging: Tree, visited: set<Path>)
    requires TreeOk(staging) && WalkInv(staging, StagingDoors(staging), visited, {})
    ensures staging.Keys <= visited
  {
    forall p | p in staging ensures p in visited {
      WayThroughStaging(staging, p);
      WalkDone(staging, StagingDoors(staging), visited, p);
    }
  }

  lemma AllMerged(before: Tree, now: Tree, staging: Tree, visited: set<Path>)
    requires TreeOk(staging) && WalkInv(staging, StagingDoors(staging), visited, {})
    requires MergedSoFar(before, now, staging, visited)
    ensures Mergeable(before, staging) && now == before + staging
  {
    AllVisited(staging, visited);
    assert Seen(staging, visited) == staging;
  }

  lemma AllCounted(before: Tree, staging: Tree, visited: set<Path>, added: nat, modified: nat)
    requires TreeOk(staging) && WalkInv(staging, StagingDoors(staging), visited, {})
    requires CountedSoFar(before, staging, visited, added, modified)
    ensures added == |AddedSet(before, staging)| && modified == |ModifiedSet(before, staging)|
  {
    AllVisited(staging, visited);
    assert AddedSet(before, staging) * visited == AddedSet(before, staging);
    assert ModifiedSet(before, staging) * visited == ModifiedSet(before, staging);
  }

  lemma StagingDoorIff(staging: Tree, p: Path)
    requires p == [] || p in staging
    ensures KidsOf(staging, StagingDoors(staging), p) ==
            if p == [] || staging[p].Dir? then ChildrenOf(staging, p) else {}
    ensures DirAt(staging, p) <==> (p == [] || staging[p].Dir?)
  {
  }

  /** One visit of the walk, with the counters. */
  method MergeVisit(staging: FileTree, live: FileTree, p: Path, counts: (nat, nat), ghost before: Tree,
                    ghost visited: set<Path>, ghost pending: set<Path>)
    returns (ok: bool, counts': (nat, nat))
    requires staging != live && staging.Valid() && live.Valid() && p in pending
    requires forall q | q in staging.nodes :: staging.nodes[q] != Symlink
    requires WalkInv(staging.nodes, StagingDoors(staging.nodes), visited, pending)
    requires MergeTrace(before, live.nodes, staging.nodes) && MergedSoFar(before, live.nodes, staging.nodes, visited)
    requires !staging.faulted && !live.faulted ==> CountedSoFar(before, staging.nodes, visited, counts.0, counts.1)
    modifies live
    ensures live.Valid() && Steady(old(live.faulted), live.faulted, live.healthy)
    ensures MergeTrace(before, live.nodes, staging.nodes)
    ensures !ok && !live.faulted ==> !Mergeable(before, staging.nodes)
    ensures ok ==> MergedSoFar(before, live.nodes, staging.nodes, visited + {p})
    ensures ok && !staging.faulted && !live.faulted ==>
              CountedSoFar(before, staging.nodes, visited + {p}, counts'.0, counts'.1)
  {
    hide TreeOk, MergeTrace, MergedSoFar, CountedSoFar, WalkInv, StagingDoors, AddedSet, ModifiedSet;
    PendingFacts(staging.nodes, StagingDoors(staging.nodes), visited, pending, p);
    counts' := counts;
    var written, existed := false, false;
    if p != [] {
      ok, written, existed := MergeEntry(live, staging.nodes, p, before, visited, pending);
      if !ok {
        return;
      }
    } else {
      ok := true;
      RootMerged(before, live.nodes, staging.nodes, visited);
    }
    if !staging.faulted && !live.faulted {
      CountOneMore(before, staging.nodes, visited, counts.0, counts.1, p, written, existed);
    }
    if written {
      counts' := if existed then (counts.0, counts.1 + 1) else (counts.0 + 1, counts.1);
    }
  }

  /** `mergeStagingToLive`: copy what differs, counting what was added and what was modified. */
  method MergeStagingToLive(staging: FileTree, live: FileTree) returns (ok: bool, added: nat, modified: nat)
    requires staging != live && staging.Valid() && live.Valid()
    requires forall p | p in staging.nodes :: staging.nodes[p] != Symlink
    modifies live, staging`faulted
    ensures live.Valid() && Steady(old(live.faulted), live.faulted, live.healthy)
    ensures Steady(old(staging.faulted), staging.faulted, staging.healthy)
    ensures MergeTrace(old(live.nodes), live.nodes, staging.nodes)
    ensures !staging.faulted && !live.faulted ==> ok == Mergeable(old(live.nodes), staging.nodes)
    ensures ok ==> Mergeable(old(live.nodes), staging.nodes) && live.nodes == old(live.nodes) + staging.nodes
    ensures ok && !staging.faulted && !live.faulted ==>
              && added == |AddedSet(old(live.nodes), staging.nodes)|
              && modified == |ModifiedSet(old(live.nodes), staging.nodes)|
  {
    hide TreeOk, MergeTrace, MergedSoFar, CountedSoFar, WalkInv, StagingDoors, KidsOf, ChildrenOf, AddedSet,
         ModifiedSet, Mergeable;
    ghost var before := live.nodes;
    ghost var visited: set<Path> := {};
    var pending: set<Path> := {[]};
    var counts: (nat, nat) := (0, 0);
    added, modified := 0, 0;
    WalkStart(staging.nodes, StagingDoors(staging.nodes));
    NothingMerged(before, staging.nodes);
    while pending != {}
      invariant live.Valid() && Steady(old(live.faulted), live.faulted, live.healthy)
      invariant Steady(old(staging.faulted), staging.faulted, staging.healthy)
      invariant WalkInv(staging.nodes, StagingDoors(staging.nodes), visited, pending)
      invariant MergeTrace(before, live.nodes, staging.nodes)
      invariant MergedSoFar(before, live.nodes, staging.nodes, visited)
      invariant !staging.faulted && !live.faulted ==>
                  CountedSoFar(before, staging.nodes, visited, counts.0, counts.1)
      decreases staging.nodes.Keys + {[]} - visited
    {
      var p :| p in pending;
      PendingFacts(staging.nodes, StagingDoors(staging.nodes), visited, pending, p);
      WalkStep(staging.nodes, StagingDoors(staging.nodes), visited, pending, p);
      ok, counts := MergeVisit(staging, live, p, counts, before, visited, pending);
      if !ok {
        return;
      }
      StagingDoorIff(staging.nodes, p);
      var listed: set<Path> := {};
      if p == [] || staging.nodes[p] == Dir {
        ok, listed := staging.ReadDir(p);
        if !ok {
          return;
        }
      }
      visited := visited + {p};
      pending := pending - {p} + listed;
    }
    ok := true;
    added, modified := counts.0, counts.1;
    AllMerged(before, live.nodes, staging.nodes, visited);
    if !staging.faulted && !live.faulted {
      AllCounted(before, staging.nodes, visited, added, modified);
    }
  }

  lemma PendingFacts(t: Tree, doors: set<Path>, visited: set<Path>, pending: set<Path>, p: Path)
    requires WalkInv(t, doors, visited, pending) && p in pending && TreeOk(t)
    ensures (p == [] || p in t) && p !in visited && [] !in t
    ensures visited <= t.Keys + {[]}
  {
  }
}
