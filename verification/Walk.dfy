/** `filepath.WalkDir`, as far as callbacks can tell.

    A walk visits the root, and visits an entry after the directory that lists it. The
    model keeps the listed but unvisited entries in a set `pending` and visits them in any
    order; the depth-first, lexical order of the library is one of these. A directory whose
    callback does not answer SkipDir is a door: its entries are listed. */
module Walks {
  import opened Paths
  import opened FileTrees

  /** Part of the way through a walk of `t`. */
  ghost predicate WalkInv(t: Tree, doors: set<Path>, visited: set<Path>, pending: set<Path>) {
    && visited + pending <= t.Keys + {[]}
    && visited !! pending
    && [] in visited + pending
    && (forall q | q in t && q != [] && Parent(q) in visited && Parent(q) in doors :: q in visited + pending)
    && (forall q | q in visited + pending && q != [] :: Parent(q) in visited && Parent(q) in doors)
  }

  function KidsOf(t: Tree, doors: set<Path>, p: Path): set<Path> {
    if p in doors then ChildrenOf(t, p) else {}
  }

  lemma WalkStart(t: Tree, doors: set<Path>)
    requires TreeOk(t)
    ensures WalkInv(t, doors, {}, {[]})
  {
  }

  lemma WalkStep(t: Tree, doors: set<Path>, visited: set<Path>, pending: set<Path>, p: Path)
    requires TreeOk(t) && WalkInv(t, doors, visited, pending) && p in pending
    ensures WalkInv(t, doors, visited + {p}, pending - {p} + KidsOf(t, doors, p))
  {
    var visited', pending' := visited + {p}, pending - {p} + KidsOf(t, doors, p);
    forall q | q in t && q != [] && Parent(q) in visited' && Parent(q) in doors ensures q in visited' + pending' {
      if Parent(q) == p {
        assert q in ChildrenOf(t, p);
      }
    }
    forall q | q in KidsOf(t, doors, p) ensures q !in visited' && Parent(q) == p {
    }
  }

  /** Everything above a listed entry was visited, and was a door. */
  lemma {:induction false} WayOpen(t: Tree, doors: set<Path>, visited: set<Path>, pending: set<Path>, q: Path, k: nat)
    requires WalkInv(t, doors, visited, pending)
    requires q in visited + pending && k < |q|
    ensures q[..k] in visited && q[..k] in doors
  {
    if k < |q| - 1 {
      WayOpen(t, doors, visited, pending, Parent(q), k);
      assert Parent(q)[..k] == q[..k];
    }
  }

  /** The way to `q` leads through doors only. */
  ghost predicate Open(doors: set<Path>, q: Path) {
    forall k | 0 <= k < |q| :: q[..k] in doors
  }

  /** When nothing is pending, the walk has visited the entries behind open doors and no others. */
  lemma {:induction false} WalkDone(t: Tree, doors: set<Path>, visited: set<Path>, q: Path)
    requires TreeOk(t) && WalkInv(t, doors, visited, {}) && (q == [] || q in t)
    ensures q in visited <==> Open(doors, q)
  {
    if q in visited {
      forall k | 0 <= k < |q| ensures q[..k] in doors {
        WayOpen(t, doors, visited, {}, q, k);
      }
    }
    if q != [] && Open(doors, q) {
      ParentIsDir(t, q);
      var p := Parent(q);
      assert p in doors;
      assert Open(doors, p) by {
        forall k | 0 <= k < |p| ensures p[..k] in doors {
          assert p[..k] == q[..k];
        }
      }
      WalkDone(t, doors, visited, p);
    }
  }
}
