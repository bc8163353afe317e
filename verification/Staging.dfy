/** Phase 1 of a sync: building the staging tree from the ordered mappings. */
module Staging {
  import opened Options
  import opened Paths
  import opened FileTrees
  import opened SyncPlans
  import opened Walks

  // ------------------------------------------------- one more entry on top

  lemma OneMorePath(s: set<Path>, q: Path)
    ensures Closure(s + {q}) == Closure(s) + Prefixes(q)
  {
  }

  /** Where a path of the closure carries a file of the entries, it is an entry of its own. */
  lemma FilesEndPaths(e: Tree, s: set<Path>, q: Path)
    requires EntriesOk(e) && s <= e.Keys && q in Closure(s) && q in e && !e[q].Dir?
    ensures q in s
  {
    var r, k :| r in s && 0 < k <= |r| && q == r[..k];
    assert k == |r| && r[..k] == r;
  }

  lemma SelfInClosure(s: set<Path>)
    requires [] !in s
    ensures s <= Closure(s)
  {
    forall q | q in s ensures q in Closure(s) {
      assert q[..|q|] == q;
      InClosure(s, q, |q|);
    }
  }

  /** A clash with part of a contribution is a clash with the contribution. */
  lemma CompatibleMonotone(t: Tree, part: Tree, whole: Tree)
    requires EntriesOk(whole) && Compatible(t, whole)
    requires forall q | q in part :: q in whole && part[q] == whole[q]
    ensures Compatible(t, part)
  {
    forall q | q in Closure(part.Keys) && q in t && !t[q].Dir? ensures q in part && part[q].File? {
      var r, k :| r in part.Keys && 0 < k <= |r| && q == r[..k];
      InClosure(whole.Keys, r, k);
      FilesEndPaths(whole, part.Keys, q);
    }
  }

  /** Putting one entry into a tree, directories above it included. */
  function Put(t: Tree, q: Path, n: Node): Tree
    requires q != []
  {
    if n.File? then PutDirs(t, Parent(q))[q := n] else PutDirs(t, q)
  }

  ghost predicate CanPut(t: Tree, q: Path, n: Node)
    requires q != []
  {
    if n.File? then CanMkdir(t, Parent(q)) && !DirAt(t, q) else CanMkdir(t, q)
  }

  /** The entries `e'` are `e` and one more, `n` at `q`. */
  ghost predicate NextEntry(e: Tree, e': Tree, q: Path, n: Node) {
    && q != [] && q !in e && e'.Keys == e.Keys + {q} && e'[q] == n
    && (forall r | r in e :: e'[r] == e[r])
    && EntriesOk(e')
  }

  lemma PrefixesSplit(q: Path)
    requires q != []
    ensures Prefixes(q) == Prefixes(Parent(q)) + {q} && q !in Prefixes(Parent(q))
  {
    PrefixesStep(q, |q| - 1);
    assert q[..|q|] == q;
  }

  lemma NextClosure(e: Tree, e': Tree, q: Path, n: Node)
    requires NextEntry(e, e', q, n)
    ensures Closure(e'.Keys) == Closure(e.Keys) + Prefixes(q)
    ensures e.Keys <= Closure(e.Keys)
    ensures n.File? ==> q !in Closure(e.Keys)
  {
    OneMorePath(e.Keys, q);
    assert [] !in e.Keys by {
      assert forall r | r in e :: r in e';
    }
    SelfInClosure(e.Keys);
    if n.File? && q in Closure(e.Keys) {
      FilesEndPaths(e', e.Keys, q);
    }
  }

  /** The directories an entry needs. */
  function Above(q: Path, n: Node): Path
    requires q != []
  {
    if n.File? then Parent(q) else q
  }

  /** Directories that could be made are over nothing but directories. */
  lemma DirsFit(t: Tree, e: Tree, p: Path)
    requires CanMkdir(Overlay(t, e), p) && e.Keys <= Closure(e.Keys)
    ensures forall r | r in Prefixes(p) :: (r in t ==> t[r].Dir?) && (r in e ==> !e[r].File?)
  {
    var o := Overlay(t, e);
    forall r | r in Prefixes(p) && r in o ensures o[r].Dir? {
      var k :| 0 < k <= |p| && r == p[..k];
    }
  }

  /** And directories that clash with nothing can be made. */
  lemma PrefixesFit(t: Tree, e: Tree, e': Tree, q: Path, p: Path)
    requires EntriesOk(e') && Compatible(t, e') && q in e' && p <= q && q !in e
    requires p == q ==> e'[q].Dir?
    requires forall r | r in e :: r in e' && e'[r] == e[r]
    ensures CanMkdir(Overlay(t, e), p)
  {
    var o := Overlay(t, e);
    forall k | 0 < k <= |p| && p[..k] in o ensures o[p[..k]].Dir? {
      var r := p[..k];
      assert r == q[..k];
      InClosure(e'.Keys, q, k);
      assert k == |q| ==> r == q;
      assert r in e' ==> e'[r].Dir?;
    }
  }

  lemma OverlayAt(t: Tree, e: Tree, r: Path)
    ensures r in Overlay(t, e) <==> r in t || r in Closure(e.Keys)
    ensures r in Overlay(t, e) ==>
              Overlay(t, e)[r] == if r in e && e[r].File? then e[r] else if r in t then t[r] else Dir
  {
  }

  lemma PutDirsAtPath(o: Tree, p: Path, r: Path)
    ensures r in PutDirs(o, p) <==> r in o || r in Prefixes(p)
    ensures r in PutDirs(o, p) ==> PutDirs(o, p)[r] == if r in o then o[r] else Dir
  {
  }

  lemma PutLookup(t: Tree, e: Tree, e': Tree, q: Path, n: Node, r: Path)
    requires q != [] && q !in e && e'.Keys == e.Keys + {q} && e'[q] == n && (r in e ==> e'[r] == e[r])
    requires n == Dir || n.File?
    requires Closure(e'.Keys) == Closure(e.Keys) + Prefixes(q)
    requires Prefixes(q) == Prefixes(Parent(q)) + {q}
    requires e.Keys <= Closure(e.Keys)
    requires forall r | r in Prefixes(Above(q, n)) :: (r in t ==> t[r].Dir?) && (r in e ==> !e[r].File?)
    ensures r in Put(Overlay(t, e), q, n) <==> r in Overlay(t, e')
    ensures r in Overlay(t, e') ==> Put(Overlay(t, e), q, n)[r] == Overlay(t, e')[r]
  {
    hide Overlay, PutDirs, Closure, Prefixes;
    OverlayAt(t, e, r);
    OverlayAt(t, e', r);
    PutDirsAtPath(Overlay(t, e), Above(q, n), r);
  }

  lemma PutCompatible(t: Tree, e: Tree, e': Tree, q: Path, n: Node)
    requires q != [] && q !in e && e'.Keys == e.Keys + {q} && e'[q] == n && (forall r | r in e :: e'[r] == e[r])
    requires n == Dir || n.File?
    requires CanPut(Overlay(t, e), q, n) && Compatible(t, e) && NoLinks(t)
    requires Closure(e'.Keys) == Closure(e.Keys) + Prefixes(q)
    requires Prefixes(q) == Prefixes(Parent(q)) + {q}
    requires forall r | r in Prefixes(Above(q, n)) :: (r in t ==> t[r].Dir?) && (r in e ==> !e[r].File?)
    ensures Compatible(t, e')
  {
    hide PutDirs, CanMkdir, Closure, Prefixes, Overlay;
    OverlayAt(t, e, q);
    forall r | r in Closure(e.Keys) + Prefixes(q) && r in t && !t[r].Dir? ensures r in e' && e'[r].File? {
      if r in Closure(e.Keys) {
        assert r in e && e[r].File?;
      }
    }
    if n.File? && q in t {
      assert q in Overlay(t, e);
    }
  }

  /** The next entry can be put exactly when it clashes with nothing, and putting it
      is laying it over with the rest. */
  lemma PutNext(t: Tree, e: Tree, e': Tree, q: Path, n: Node)
    requires NextEntry(e, e', q, n) && Compatible(t, e) && NoLinks(t) && (n == Dir || n.File?)
    ensures CanPut(Overlay(t, e), q, n) ==> Compatible(t, e') && Put(Overlay(t, e), q, n) == Overlay(t, e')
    ensures Compatible(t, e') ==> CanPut(Overlay(t, e), q, n)
  {
    hide Overlay, PutDirs, Closure, Prefixes, EntriesOk, CanMkdir, Compatible, NoLinks;
    NextClosure(e, e', q, n);
    PrefixesSplit(q);
    if CanPut(Overlay(t, e), q, n) {
      DirsFit(t, e, Above(q, n));
      PutCompatible(t, e, e', q, n);
      forall r
        ensures r in Put(Overlay(t, e), q, n) <==> r in Overlay(t, e')
        ensures r in Overlay(t, e') ==> Put(Overlay(t, e), q, n)[r] == Overlay(t, e')[r]
      {
        PutLookup(t, e, e', q, n, r);
      }
    }
    if Compatible(t, e') {
      PrefixesFit(t, e, e', q, Above(q, n));
      if n.File? {
        NotADirectory(t, e, e', q);
      }
    }
  }

  lemma NotADirectory(t: Tree, e: Tree, e': Tree, q: Path)
    requires q in e' && e'[q].File? && Compatible(t, e') && q != [] && q !in Closure(e.Keys)
    ensures !DirAt(Overlay(t, e), q)
  {
  }

  // ------------------------------------------------------------ the methods

  /** Whether one file can be staged at `q` over the tree `t`. */
  ghost predicate FileStageable(t: Tree, template: Option<Rewrite>, m: Mapping, src: Node, q: Path)
    requires q != []
  {
    src.File? && Transform(template, m, q, src.content).Some? && CanPut(t, q, src)
  }

  lemma AlreadyThere(t: Tree, q: Path)
    requires TreeOk(t) && q in t
    ensures CanMkdir(t, Parent(q)) && PutDirs(t, Parent(q)) == t
  {
    NothingToPut(t, q, |q| - 1);
    forall k | 0 < k <= |Parent(q)| && Parent(q)[..k] in t ensures t[Parent(q)[..k]].Dir? {
      assert Parent(q)[..k] == q[..k];
    }
  }

  /** Copy, template and patch one file: the common middle of `stageSingleFile` and `stageDirectory`. */
  method StageFile(staging: FileTree, template: Option<Rewrite>, m: Mapping, src: Node, q: Path) returns (ok: bool)
    requires staging.Valid() && q != [] && IsClean(q)
    modifies staging
    ensures staging.Valid() && Steady(old(staging.faulted), staging.faulted, staging.healthy)
    ensures !staging.faulted ==> ok == FileStageable(old(staging.nodes), template, m, src, q)
    ensures ok ==> FileStageable(old(staging.nodes), template, m, src, q)
    ensures ok ==> staging.nodes ==
                   Put(old(staging.nodes), q, File(Transform(template, m, q, src.content).value))
  {
    hide PutDirs, CanMkdir, TreeOk, CopyTrace;
    ghost var t := staging.nodes;
    var copied := staging.CopyFile(src, q);
    if q in t && t[q] == src {
      AlreadyThere(t, q);
    }
    if copied == Failed {
      return false;
    }
    ghost var base := PutDirs(t, Parent(q));
    assert staging.nodes == base[q := src];
    var content := src.content;
    if m.template && template.Some? {
      var templated := template.value(q, content);
      if templated == None {
        return false;
      }
      content := templated.value;
      ok := staging.WriteFile(q, content);
      if !ok {
        return false;
      }
    }
    assert staging.nodes == base[q := File(content)];
    if m.applyPatches.Some? {
      var patched := m.applyPatches.value(q, content);
      if patched == None {
        return false;
      }
      content := patched.value;
      ok := staging.WriteFile(q, content);
      if !ok {
        return false;
      }
    }
    assert staging.nodes == base[q := File(content)];
    return true;
  }

  /** The tracked set names exactly the staged files. */
  ghost predicate Tracks(staged: set<string>, t: Tree) {
    (set s | s in staged :: Parts(s)) == Files(t)
  }

  lemma TrackOneMore(staged: set<string>, t: Tree, s: string, q: Path, c: Content)
    requires Tracks(staged, t) && Parts(s) == q && q != []
    ensures Tracks(staged + {s}, Put(t, q, File(c)))
  {
    var t' := Put(t, q, File(c));
    forall r ensures r in Files(t') <==> r in Files(t) + {q} {
      PutDirsAtPath(t, Parent(q), r);
    }
    var all, before := (set x | x in staged + {s} :: Parts(x)), (set x | x in staged :: Parts(x));
    assert all == before + {q};
  }

  lemma TrackDir(staged: set<string>, t: Tree, q: Path)
    requires Tracks(staged, t)
    ensures Tracks(staged, PutDirs(t, q))
  {
    forall r ensures r in Files(PutDirs(t, q)) <==> r in Files(t) {
      PutDirsAtPath(t, q, r);
    }
  }

  /** Staging one mapping over `t` goes well exactly under these conditions. */
  ghost predicate CanStage(t: Tree, template: Option<Rewrite>, rules: Rules, m: Mapping) {
    Stageable(template, rules, m) && Compatible(t, Contribution(template, rules, m))
  }

  lemma EmptyOverlay(t: Tree)
    ensures Overlay(t, map[]) == t && Compatible(t, map[])
  {
    assert Closure({}) == {};
  }

  /** A mapping with a single item. */
  lemma OneItem(t: Tree, q: Path, n: Node)
    requires TreeOk(t) && NoLinks(t) && q != [] && IsClean(q) && n.File?
    ensures CanPut(t, q, n) <==> Compatible(t, map[q := n])
    ensures CanPut(t, q, n) ==> Put(t, q, n) == Overlay(t, map[q := n])
  {
    EmptyOverlay(t);
    PutNext(t, map[], map[q := n], q, n);
  }

  /** `stageSingleFile`. */
  method StageSingleFile(staging: FileTree, template: Option<Rewrite>, rules: Rules, m: Mapping, staged: set<string>)
    returns (ok: bool, staged': set<string>)
    requires MappingOk(m) && m.kind == "file"
    requires staging.Valid() && NoLinks(staging.nodes) && Tracks(staged, staging.nodes)
    modifies staging
    ensures staging.Valid() && Steady(old(staging.faulted), staging.faulted, staging.healthy)
    ensures !staging.faulted ==> ok == CanStage(old(staging.nodes), template, rules, m)
    ensures ok ==> CanStage(old(staging.nodes), template, rules, m)
    ensures ok ==> staging.nodes == Overlay(old(staging.nodes), Contribution(template, rules, m))
    ensures ok ==> Tracks(staged', staging.nodes)
  {
    ghost var t, e := staging.nodes, Contribution(template, rules, m);
    staged' := staged;
    if Pruned(rules, m.destination) {
      assert e == map[];
      EmptyOverlay(t);
      return true, staged';
    }
    var q := Parts(m.destination);
    if m.source == Missing || q == [] {
      // no source to copy, or the rename would replace the staging directory itself
      return false, staged';
    }
    ok := StageFile(staging, template, m, m.source.root, q);
    if Stageable(template, rules, m) {
      assert Items(rules, m)[q] == m.source.root;
      assert e == map[q := File(Transform(template, m, q, m.source.root.content).value)];
      OneItem(t, q, e[q]);
    }
    if ok {
      assert Stageable(template, rules, m);
      TrackOneMore(staged, t, m.destination, q, e[q].content);
      staged' := staged + {m.destination};
    }
  }

  /** The part of a directory mapping's contribution that the walk has visited. */
  function Done(e: Tree, dest: Path, visited: set<Path>): Tree {
    map q | q in e && dest <= q && q[|dest|..] in visited :: e[q]
  }

  /** The source directories the walk goes into. */
  ghost function SourceDoors(rules: Rules, m: Mapping): set<Path>
    requires m.source.Existing?
  {
    set rel | rel in m.source.below.Keys + {[]} &&
              (rel == [] || (m.source.below[rel].Dir? && !Pruned(rules, Render(Parts(m.destination) + rel))))
  }

  lemma JoinedPath(dest: Path, rel: Path)
    ensures dest <= dest + rel && (dest + rel)[|dest|..] == rel
    ensures forall q: Path | dest <= q && q[|dest|..] == rel :: q == dest + rel
  {
  }

  /** The walk reaches an entry behind open doors only, so nothing above it is pruned. */
  lemma KeptOnTheWay(rules: Rules, m: Mapping, visited: set<Path>, pending: set<Path>, rel: Path)
    requires m.source.Existing? && m.kind != "file"
    requires WalkInv(m.source.below, SourceDoors(rules, m), visited, pending)
    requires rel in pending && rel in m.source.below && m.source.below[rel] != Symlink
    requires !Pruned(rules, Render(Parts(m.destination) + rel))
    ensures KeptBelow(rules, Parts(m.destination), rel)
    ensures Parts(m.destination) + rel in Items(rules, m)
    ensures Items(rules, m)[Parts(m.destination) + rel] == m.source.below[rel]
  {
    var dest, doors := Parts(m.destination), SourceDoors(rules, m);
    forall k | 0 < k <= |rel| ensures !Pruned(rules, Render(dest + rel[..k])) {
      if k < |rel| {
        WayOpen(m.source.below, doors, visited, pending, rel, k);
      } else {
        assert rel[..k] == rel;
      }
    }
    JoinedPath(dest, rel);
    assert dest + rel in DestPaths(m);
  }

  lemma NothingDone(e: Tree, dest: Path, visited: set<Path>, rel: Path)
    requires dest + rel !in e
    ensures Done(e, dest, visited + {rel}) == Done(e, dest, visited)
  {
    JoinedPath(dest, rel);
  }

  lemma OneMoreDone(e: Tree, dest: Path, visited: set<Path>, rel: Path)
    requires EntriesOk(e) && dest + rel in e && rel !in visited
    ensures NextEntry(Done(e, dest, visited), Done(e, dest, visited + {rel}), dest + rel, e[dest + rel])
  {
    JoinedPath(dest, rel);
    var a, b := Done(e, dest, visited), Done(e, dest, visited + {rel});
    assert b.Keys == a.Keys + {dest + rel};
  }

  lemma AllDone(rules: Rules, m: Mapping, template: Option<Rewrite>, visited: set<Path>)
    requires MappingOk(m) && m.source.Existing? && m.kind != "file"
    requires WalkInv(m.source.below, SourceDoors(rules, m), visited, {})
    ensures Done(Contribution(template, rules, m), Parts(m.destination), visited) == Contribution(template, rules, m)
    ensures forall q | q in Items(rules, m) :: q[|Parts(m.destination)|..] in visited
  {
    var e, dest, doors := Contribution(template, rules, m), Parts(m.destination), SourceDoors(rules, m);
    forall q | q in Items(rules, m) ensures q[|dest|..] in visited {
      var rel := q[|dest|..];
      assert Open(doors, rel) by {
        forall k | 0 <= k < |rel| ensures rel[..k] in doors {
        }
      }
      WalkDone(m.source.below, doors, visited, rel);
    }
  }

  /** The callback of `stageDirectory` at an entry that is neither a link nor pruned. */
  method StageEntry(staging: FileTree, template: Option<Rewrite>, m: Mapping, rel: Path, staged: set<string>)
    returns (ok: bool, staged': set<string>)
    requires MappingOk(m) && m.source.Existing? && rel in m.source.below && m.source.below[rel] != Symlink
    requires staging.Valid() && Tracks(staged, staging.nodes)
    modifies staging
    ensures staging.Valid() && Steady(old(staging.faulted), staging.faulted, staging.healthy)
    ensures var q, n := Parts(m.destination) + rel, m.source.below[rel];
            && (!staging.faulted ==> ok == if n.File? then FileStageable(old(staging.nodes), template, m, n, q)
                                           else CanPut(old(staging.nodes), q, n))
            && (ok ==> CanPut(old(staging.nodes), q, n))
            && (ok && n.File? ==> Transform(template, m, q, n.content).Some?)
            && (ok && n.File? ==>
                  staging.nodes == Put(old(staging.nodes), q, File(Transform(template, m, q, n.content).value)))
            && (ok && !n.File? ==> staging.nodes == Put(old(staging.nodes), q, n))
    ensures ok ==> Tracks(staged', staging.nodes)
  {
    var q, n := Parts(m.destination) + rel, m.source.below[rel];
    ghost var t := staging.nodes;
    staged' := staged;
    assert IsClean(q);
    if n == Dir {
      ok := staging.MkdirAll(q);
      TrackDir(staged, t, q);
      return;
    }
    ok := StageFile(staging, template, m, n, q);
    if ok {
      PartsOfRender(q);
      staged' := staged + {Render(q)};
      TrackOneMore(staged, t, Render(q), q, Transform(template, m, q, n.content).value);
    }
  }

  /** What the walk of `stageDirectory` has established when `visited` is behind it. */
  ghost predicate StagedSoFar(t: Tree, now: Tree, e: Tree, dest: Path, visited: set<Path>) {
    now == Overlay(t, Done(e, dest, visited)) && Compatible(t, Done(e, dest, visited)) && NoLinks(now)
  }

  ghost predicate TransformsDone(template: Option<Rewrite>, rules: Rules, m: Mapping, visited: set<Path>) {
    var items := Items(rules, m);
    forall q | q in items && items[q].File? && q[|Parts(m.destination)|..] in visited ::
      Transform(template, m, q, items[q].content).Some?
  }

  lemma DestIsPrefix(rules: Rules, m: Mapping, q: Path)
    requires m.kind != "file" && q in Items(rules, m)
    ensures Parts(m.destination) <= q && q == Parts(m.destination) + q[|Parts(m.destination)|..]
  {
  }

  lemma EntryStaged(t: Tree, now: Tree, now': Tree, e: Tree, dest: Path, visited: set<Path>, rel: Path)
    requires TreeOk(t) && NoLinks(t) && EntriesOk(e) && dest + rel in e && rel !in visited
    requires StagedSoFar(t, now, e, dest, visited) && dest + rel != []
    requires CanPut(now, dest + rel, e[dest + rel]) && now' == Put(now, dest + rel, e[dest + rel])
    ensures StagedSoFar(t, now', e, dest, visited + {rel})
  {
    var d, d' := Done(e, dest, visited), Done(e, dest, visited + {rel});
    OneMoreDone(e, dest, visited, rel);
    PutNext(t, d, d', dest + rel, e[dest + rel]);
    assert NoLinks(now') by {
      forall r | r in now' ensures now'[r] != Symlink {
        OverlayAt(t, d', r);
      }
    }
  }

  lemma EntryClashes(t: Tree, now: Tree, e: Tree, dest: Path, visited: set<Path>, rel: Path)
    requires TreeOk(t) && NoLinks(t) && EntriesOk(e) && dest + rel in e && rel !in visited
    requires StagedSoFar(t, now, e, dest, visited) && dest + rel != []
    requires !CanPut(now, dest + rel, e[dest + rel])
    ensures !Compatible(t, e)
  {
    var d, d' := Done(e, dest, visited), Done(e, dest, visited + {rel});
    OneMoreDone(e, dest, visited, rel);
    PutNext(t, d, d', dest + rel, e[dest + rel]);
    if Compatible(t, e) {
      CompatibleMonotone(t, d', e);
    }
  }

  lemma NothingStaged(t: Tree, e: Tree, dest: Path, template: Option<Rewrite>, rules: Rules, m: Mapping)
    requires NoLinks(t)
    ensures StagedSoFar(t, t, e, dest, {}) && TransformsDone(template, rules, m, {})
  {
    EmptyOverlay(t);
    assert Done(e, dest, {}) == map[];
  }

  lemma SourceFacts(rules: Rules, m: Mapping, visited: set<Path>, pending: set<Path>, rel: Path)
    requires MappingOk(m) && m.source.Existing?
    requires WalkInv(m.source.below, SourceDoors(rules, m), visited, pending) && rel in pending
    ensures rel !in visited && (rel == [] || rel in m.source.below)
    ensures visited <= m.source.below.Keys + {[]}
    ensures KidsOf(m.source.below, SourceDoors(rules, m), rel) ==
            if rel == [] || (m.source.below[rel].Dir? && !Pruned(rules, Render(Parts(m.destination) + rel)))
            then ChildrenOf(m.source.below, rel) else {}
  {
  }

  /** One visit of the walk, which says whether to list a directory. */
  method StageVisit(staging: FileTree, template: Option<Rewrite>, rules: Rules, m: Mapping, rel: Path,
                    staged: set<string>, ghost t: Tree, ghost visited: set<Path>, ghost pending: set<Path>)
    returns (ok: bool, staged': set<string>, door: bool)
    requires MappingOk(m) && m.kind != "file" && m.source.Existing? && rel in pending && rel != []
    requires WalkInv(m.source.below, SourceDoors(rules, m), visited, pending)
    requires TreeOk(t) && NoLinks(t) && staging.Valid() && Tracks(staged, staging.nodes)
    requires StagedSoFar(t, staging.nodes, Contribution(template, rules, m), Parts(m.destination), visited)
    requires TransformsDone(template, rules, m, visited)
    modifies staging
    ensures staging.Valid() && Steady(old(staging.faulted), staging.faulted, staging.healthy)
    ensures rel in m.source.below
    ensures door == (m.source.below[rel].Dir? && !Pruned(rules, Render(Parts(m.destination) + rel)))
    ensures ok ==> StagedSoFar(t, staging.nodes, Contribution(template, rules, m), Parts(m.destination), visited + {rel})
    ensures ok ==> TransformsDone(template, rules, m, visited + {rel}) && Tracks(staged', staging.nodes)
    ensures !ok && !staging.faulted ==> !CanStage(t, template, rules, m)
  {
    hide TreeOk, WalkInv, SourceDoors, StagedSoFar, TransformsDone, Tracks, EntriesOk, KeptBelow, Compatible,
         PutDirs, CanMkdir, ChildrenOf;
    var dest := Parts(m.destination);
    ghost var e, now, q := Contribution(template, rules, m), staging.nodes, dest + rel;
    SourceFacts(rules, m, visited, pending, rel);
    DirContributionOk(template, rules, m);
    staged' := staged;
    var n := m.source.below[rel];
    if n == Symlink || Pruned(rules, Render(dest + rel)) {
      SkippedIsNoItem(template, rules, m, rel);
      SkippedStaged(t, now, e, dest, visited, rel);
      StillTransformed(template, rules, m, visited, rel);
      return true, staged', false;
    }
    KeptOnTheWay(rules, m, visited, pending, rel);
    ok, staged' := StageEntry(staging, template, m, rel, staged);
    door := n == Dir;
    if ok {
      EntryStaged(t, now, staging.nodes, e, dest, visited, rel);
      StillTransformed(template, rules, m, visited, rel);
    } else if !CanPut(now, q, n) {
      EntryClashes(t, now, e, dest, visited, rel);
    }
  }

  lemma SkippedStaged(t: Tree, now: Tree, e: Tree, dest: Path, visited: set<Path>, rel: Path)
    requires StagedSoFar(t, now, e, dest, visited) && dest + rel !in e
    ensures StagedSoFar(t, now, e, dest, visited + {rel})
  {
    NothingDone(e, dest, visited, rel);
  }

  lemma DirectoryStaged(t: Tree, now: Tree, template: Option<Rewrite>, rules: Rules, m: Mapping, visited: set<Path>)
    requires MappingOk(m) && m.source.Existing? && m.kind != "file"
    requires WalkInv(m.source.below, SourceDoors(rules, m), visited, {})
    requires StagedSoFar(t, now, Contribution(template, rules, m), Parts(m.destination), visited)
    requires TransformsDone(template, rules, m, visited)
    ensures CanStage(t, template, rules, m) && now == Overlay(t, Contribution(template, rules, m))
  {
    AllDone(rules, m, template, visited);
  }

  /** `stageDirectory`: walk the source, skipping links, pruning excluded and protected paths. */
  method StageDirectory(staging: FileTree, template: Option<Rewrite>, rules: Rules, m: Mapping, staged: set<string>)
    returns (ok: bool, staged': set<string>)
    requires MappingOk(m) && m.kind != "file"
    requires staging.Valid() && NoLinks(staging.nodes) && Tracks(staged, staging.nodes)
    modifies staging
    ensures staging.Valid() && Steady(old(staging.faulted), staging.faulted, staging.healthy)
    ensures !staging.faulted ==> ok == CanStage(old(staging.nodes), template, rules, m)
    ensures ok ==> CanStage(old(staging.nodes), template, rules, m)
    ensures ok ==> staging.nodes == Overlay(old(staging.nodes), Contribution(template, rules, m))
    ensures ok ==> Tracks(staged', staging.nodes)
  {
    staged' := staged;
    if m.source == Missing {
      return false, staged';
    }
    hide Contribution, Items, Overlay, Compatible, StagedSoFar, TransformsDone, WalkInv, SourceDoors, Tracks, KidsOf;
    var src, dest := m.source.below, Parts(m.destination);
    ghost var t, e := staging.nodes, Contribution(template, rules, m);
    ghost var visited: set<Path> := {};
    var pending: set<Path> := {[]};
    WalkStart(src, SourceDoors(rules, m));
    NothingStaged(t, e, dest, template, rules, m);
    while pending != {}
      invariant staging.Valid() && Steady(old(staging.faulted), staging.faulted, staging.healthy)
      invariant WalkInv(src, SourceDoors(rules, m), visited, pending)
      invariant StagedSoFar(t, staging.nodes, e, dest, visited)
      invariant TransformsDone(template, rules, m, visited) && Tracks(staged', staging.nodes)
      decreases src.Keys + {[]} - visited
    {
      var rel :| rel in pending;
      WalkStep(src, SourceDoors(rules, m), visited, pending, rel);
      SourceFacts(rules, m, visited, pending, rel);
      var door := true;
      if rel != [] {
        ok, staged', door := StageVisit(staging, template, rules, m, rel, staged', t, visited, pending);
        if !ok {
          return;
        }
      } else {
        SkippedIsNoItem(template, rules, m, rel);
        SkippedStaged(t, staging.nodes, e, dest, visited, rel);
        StillTransformed(template, rules, m, visited, rel);
      }
      var listed: set<Path> := {};
      if door {
        var failed := staging.Fault();
        if failed {
          return false, staged';
        }
        listed := ChildrenOf(src, rel);
      }
      visited := visited + {rel};
      pending := pending - {rel} + listed;
    }
    DirectoryStaged(t, staging.nodes, template, rules, m, visited);
    ok := true;
  }

  lemma SkippedIsNoItem(template: Option<Rewrite>, rules: Rules, m: Mapping, rel: Path)
    requires MappingOk(m) && m.source.Existing? && m.kind != "file"
    requires rel == [] || (rel in m.source.below &&
      (m.source.below[rel] == Symlink || Pruned(rules, Render(Parts(m.destination) + rel))))
    ensures Parts(m.destination) + rel !in Contribution(template, rules, m)
  {
    JoinedPath(Parts(m.destination), rel);
    assert rel[..|rel|] == rel;
  }

  lemma StillTransformed(template: Option<Rewrite>, rules: Rules, m: Mapping, visited: set<Path>, rel: Path)
    requires MappingOk(m) && m.source.Existing? && m.kind != "file"
    requires TransformsDone(template, rules, m, visited)
    requires var q, items := Parts(m.destination) + rel, Items(rules, m);
             q in items && items[q].File? ==> Transform(template, m, q, items[q].content).Some?
    ensures TransformsDone(template, rules, m, visited + {rel})
  {
    var items := Items(rules, m);
    forall q | q in items && items[q].File? && q[|Parts(m.destination)|..] in visited + {rel}
      ensures Transform(template, m, q, items[q].content).Some?
    {
      DestIsPrefix(rules, m, q);
    }
  }

  /** The mapping loop of `ExecutePlan`. */
  method StageAll(staging: FileTree, plan: SyncPlan, rules: Rules) returns (ok: bool, staged: set<string>)
    requires PlanOk(plan)
    requires staging.Valid() && staging.nodes == map[]
    modifies staging
    ensures staging.Valid() && Steady(old(staging.faulted), staging.faulted, staging.healthy)
    ensures !staging.faulted ==> ok == StageOk(plan, rules, |plan.mappings|)
    ensures ok ==> StageOk(plan, rules, |plan.mappings|)
    ensures ok ==> staging.nodes == StageTree(plan, rules, |plan.mappings|) && Tracks(staged, staging.nodes)
  {
    staged := {};
    for i := 0 to |plan.mappings|
      invariant staging.Valid() && Steady(old(staging.faulted), staging.faulted, staging.healthy)
      invariant StageOk(plan, rules, i) && staging.nodes == StageTree(plan, rules, i)
      invariant Tracks(staged, staging.nodes)
    {
      var m := plan.mappings[i];
      StageTreeOk(plan, rules, i);
      if m.kind == "file" {
        ok, staged := StageSingleFile(staging, plan.applyTemplate, rules, m, staged);
      } else {
        ok, staged := StageDirectory(staging, plan.applyTemplate, rules, m, staged);
      }
      if !ok {
        if !staging.faulted {
          NotStageable(plan, rules, i, |plan.mappings|);
        }
        return;
      }
    }
    ok := true;
  }

  lemma {:induction false} NotStageable(plan: SyncPlan, rules: Rules, i: nat, n: nat)
    requires i < n <= |plan.mappings|
    requires !CanStage(StageTree(plan, rules, i), plan.applyTemplate, rules, plan.mappings[i])
    ensures !StageOk(plan, rules, n)
  {
    hide Contribution, Stageable, Compatible, StageTree;
    if i < n - 1 {
      NotStageable(plan, rules, i, n - 1);
    }
  }
}
