/** Managed roots, orphans and the directories that emptying removes: the specification
    of orphan cleanup, stated without a walk. */
module Orphans {
  import opened Paths
  import opened FileTrees
  import opened SyncPlans

  /** `isUnderManagedRoot`. */
  predicate IsUnderManagedRoot(relPath: string, managedRoots: set<string>) {
    exists root | root in managedRoots :: StringUnder(relPath, root)
  }

  /** `isAncestorOfManagedRoot`. */
  predicate IsAncestorOfManagedRoot(relPath: string, managedRoots: set<string>) {
    exists root | root in managedRoots :: StringAbove(relPath, root)
  }

  /** The path lies at or below a root, component by component. */
  ghost predicate Managed(roots: set<string>, p: Path) {
    exists root | root in roots :: Split(root) <= p
  }

  /** The path lies strictly above a root. */
  ghost predicate LeadsToRoot(roots: set<string>, p: Path) {
    exists root | root in roots :: p < Split(root)
  }

  /** The string tests are the component tests on every path a tree can list. */
  lemma RootTests(roots: set<string>, p: Path)
    requires p != [] && IsClean(p)
    ensures IsUnderManagedRoot(Render(p), roots) <==> Managed(roots, p)
    ensures IsAncestorOfManagedRoot(Render(p), roots) <==> LeadsToRoot(roots, p)
  {
    forall root | root in roots
      ensures StringUnder(Render(p), root) <==> Split(root) <= p
      ensures StringAbove(Render(p), root) <==> p < Split(root)
    {
      StringUnderIsPrefix(p, root);
      StringAboveIsPrefix(p, root);
    }
  }

  /** Every path on the way to a managed path is managed or leads to a root. */
  lemma WayToManaged(roots: set<string>, p: Path, k: nat)
    requires Managed(roots, p) && k <= |p|
    ensures Managed(roots, p[..k]) || LeadsToRoot(roots, p[..k])
  {
    var root :| root in roots && Split(root) <= p;
    if |Split(root)| <= k {
      assert Split(root) <= p[..k];
    } else {
      assert p[..k] < Split(root);
    }
  }

  lemma ManagedBelow(roots: set<string>, p: Path, q: Path)
    requires Managed(roots, p) && p <= q
    ensures Managed(roots, q)
  {
    var root :| root in roots && Split(root) <= p;
    assert Split(root) <= q;
  }

  /** Nothing on the way from the live root down to `p` is pruned. */
  ghost predicate ClearWay(rules: Rules, p: Path) {
    forall k | 0 < k <= |p| :: !Pruned(rules, Render(p[..k]))
  }

  /** A regular live file under a managed root, on a clear way, that staging lacks. */
  ghost predicate Orphan(live: Tree, staging: Tree, rules: Rules, roots: set<string>, p: Path) {
    && p in live && live[p].File?
    && Managed(roots, p) && ClearWay(rules, p)
    && StatOf(staging, p) == NotExist
  }

  ghost function OrphanSet(live: Tree, staging: Tree, rules: Rules, roots: set<string>): set<Path> {
    set p | p in live && Orphan(live, staging, rules, roots, p)
  }

  /** Some removed file was below. */
  ghost predicate LostBelow(gone: set<Path>, d: Path) {
    exists x | x in gone :: d < x
  }

  /** A removed file, or a directory that lost one. */
  ghost predicate GoneOrHollow(live: Tree, gone: set<Path>, q: Path)
    requires q in live
  {
    q in gone || (live[q].Dir? && LostBelow(gone, q))
  }

  /** A managed directory that lost a file and has nothing left: every entry below it is a
      removed file or a directory that lost a file too. */
  ghost predicate Emptied(live: Tree, gone: set<Path>, roots: set<string>, d: Path) {
    && d in live && live[d].Dir? && Managed(roots, d) && LostBelow(gone, d)
    && forall q | q in live && d < q :: GoneOrHollow(live, gone, q)
  }

  /** The tree after removing the files `gone` and the directories that empties. */
  ghost function Without(live: Tree, gone: set<Path>, roots: set<string>): Tree {
    map q | q in live && q !in gone && !Emptied(live, gone, roots, q) :: live[q]
  }

  /** A cleanup that stopped at an arbitrary point: some orphans are gone, and no other
      entry is, except directories that this emptied. */
  ghost predicate CleanTrace(before: Tree, now: Tree, orphans: set<Path>, roots: set<string>) {
    && (forall q | q in now :: q in before && now[q] == before[q])
    && (forall q | q in before && q !in now :: q in orphans || Emptied(before, orphans - now.Keys, roots, q))
  }

  // -------------------------------------------------------------- the climb

  lemma EmptiedBelow(live: Tree, gone: set<Path>, roots: set<string>, a: Path, d: Path)
    requires TreeOk(live) && Emptied(live, gone, roots, a) && a < d && d in live
    requires live[d].Dir? && LostBelow(gone, d)
    ensures Emptied(live, gone, roots, d)
  {
    ManagedBelow(roots, a, d);
    forall q | q in live && d < q ensures GoneOrHollow(live, gone, q) {
      assert a < q;
    }
  }

  /** So far the files `gone` were removed, and besides them only directories that this empties. */
  ghost predicate Shrunk(live: Tree, now: Tree, gone: set<Path>, roots: set<string>) {
    && (forall q | q in now :: q in live && now[q] == live[q] && q !in gone)
    && (forall q | q in live && q !in gone && q !in now :: Emptied(live, gone, roots, q))
  }

  /** No directory that is to be removed is still there. */
  ghost predicate NoneEmptied(live: Tree, now: Tree, gone: set<Path>, roots: set<string>) {
    forall q | q in now :: !Emptied(live, gone, roots, q)
  }

  /** While the climb stands at a directory `n` deep, the emptied directories that are still
      there lie above `f` and are not deeper. */
  ghost predicate ClimbedTo(live: Tree, now: Tree, gone: set<Path>, roots: set<string>, f: Path, n: nat) {
    forall q | q in now && Emptied(live, gone, roots, q) :: q < f && |q| <= n
  }

  /** A directory that is to be removed has nothing left in it when the climb gets there. */
  lemma EmptiedIsEmpty(live: Tree, now: Tree, gone: set<Path>, roots: set<string>, f: Path, dir: Path)
    requires TreeOk(live) && Shrunk(live, now, gone, roots) && ClimbedTo(live, now, gone, roots, f, |dir|)
    requires Emptied(live, gone, roots, dir)
    ensures ChildrenOf(now, dir) == {}
  {
    forall c | c in ChildrenOf(live, dir) ensures c !in now {
      assert dir < c;
      if c !in gone {
        EmptiedBelow(live, gone, roots, dir, c);
      }
    }
  }

  lemma ChildGone(live: Tree, now: Tree, gone: set<Path>, roots: set<string>, dir: Path, c: Path)
    requires Shrunk(live, now, gone, roots) && ChildrenOf(now, dir) == {}
    requires c in ChildrenOf(live, dir)
    ensures c in gone || Emptied(live, gone, roots, c)
  {
    assert c !in ChildrenOf(now, dir);
  }

  lemma BelowGone(live: Tree, gone: set<Path>, roots: set<string>, c: Path, q: Path)
    requires TreeOk(live) && c in live && q in live && c <= q
    requires c in gone ==> live[c].File?
    requires c in gone || Emptied(live, gone, roots, c)
    ensures GoneOrHollow(live, gone, q)
  {
    if c in gone {
      NothingBelowFile(live, c);
    } else if c != q {
      assert c < q;
    }
  }

  /** And a directory with nothing left in it is to be removed. */
  lemma EmptyIsEmptied(live: Tree, now: Tree, gone: set<Path>, roots: set<string>, f: Path, dir: Path)
    requires TreeOk(live) && Shrunk(live, now, gone, roots)
    requires f in gone && f in live && dir < f && dir != [] && Managed(roots, dir)
    requires forall x | x in gone :: x in live && live[x].File?
    requires ChildrenOf(now, dir) == {}
    ensures Emptied(live, gone, roots, dir)
  {
    assert f[..|dir|] == dir;
    assert LostBelow(gone, dir);
    forall q | q in live && dir < q ensures GoneOrHollow(live, gone, q) {
      hide *;
      HollowBelow(live, now, gone, roots, dir, q);
    }
  }

  lemma HollowBelow(live: Tree, now: Tree, gone: set<Path>, roots: set<string>, dir: Path, q: Path)
    requires TreeOk(live) && Shrunk(live, now, gone, roots) && ChildrenOf(now, dir) == {}
    requires forall x | x in gone :: x in live && live[x].File?
    requires q in live && dir < q
    ensures GoneOrHollow(live, gone, q)
  {
    hide Emptied, Shrunk, LostBelow, GoneOrHollow;
    var c := q[..|dir| + 1];
    ChildTowards(live, dir, q);
    ChildGone(live, now, gone, roots, dir, c);
    assert c <= q;
    BelowGone(live, gone, roots, c, q);
  }

  /** Where the climb stops, nothing further up is to be removed. */
  lemma ClimbStops(live: Tree, gone: set<Path>, roots: set<string>, f: Path, dir: Path, a: Path)
    requires TreeOk(live) && f in live && f in gone && dir < f && a <= dir && a != []
    requires !Emptied(live, gone, roots, dir)
    ensures !Emptied(live, gone, roots, a)
  {
    if Emptied(live, gone, roots, a) && a != dir {
      assert f[..|dir|] == dir;
      EmptiedBelow(live, gone, roots, a, dir);
    }
  }

  /** Removing one more file changes nothing for directories that are not above it. */
  lemma EmptiedElsewhere(live: Tree, gone: set<Path>, roots: set<string>, f: Path, d: Path)
    requires TreeOk(live) && f in live && live[f].File? && f !in gone
    ensures !(d < f) ==> (Emptied(live, gone + {f}, roots, d) <==> Emptied(live, gone, roots, d))
    ensures d < f ==> !Emptied(live, gone, roots, d)
  {
    if !(d < f) {
      forall q | q in live && d <= q ensures LostBelow(gone + {f}, q) <==> LostBelow(gone, q) {
        assert !(q < f);
      }
    }
  }
}
