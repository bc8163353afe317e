/** Plans, and what staging them means, as functions of the plan. */
module SyncPlans {
  import opened Options
  import opened Paths
  import opened Exclude
  import opened FileTrees

  /** A deterministic rewriting of a staged file, which may fail. */
  type Rewrite = (Path, Content) -> Option<Content>

  /** What lies at a mapping's source path. */
  datatype Source = Missing | Existing(root: Node, below: Tree)

  /** `ResolvedMapping`. */
  datatype Mapping = Mapping(
    source: Source,
    destination: string,
    kind: string,
    template: bool,
    applyPatches: Option<Rewrite>)

  /** `SyncPlan`, together with the glob matcher its patterns are read with. */
  datatype SyncPlan = SyncPlan(
    mappings: seq<Mapping>,
    excludePatterns: seq<string>,
    dryRun: bool,
    applyTemplate: Option<Rewrite>,
    glob: Glob)

  /** The patterns of one run: the glob matcher and the merged excludes. */
  datatype Rules = Rules(glob: Glob, excludes: seq<string>)

  /** Only a directory has entries below it, and the destination is relative and has no
      leading "..": what `os.Stat` finds and what `validateResolvedPath` lets through. */
  ghost predicate MappingOk(m: Mapping) {
    && !IsAbs(m.destination) && IsClean(Parts(m.destination))
    && (m.source.Existing? ==> TreeOk(m.source.below) && (m.source.root.Dir? || m.source.below == map[]))
  }

  ghost predicate PlanOk(plan: SyncPlan) {
    forall i | 0 <= i < |plan.mappings| :: MappingOk(plan.mappings[i])
  }

  predicate Pruned(rules: Rules, relPath: string) {
    ShouldExclude(rules.glob, rules.excludes, relPath) || IsProtected(rules.glob, relPath)
  }

  // ----------------------------------------------------- one mapping's share

  /** Nothing on the way from the destination down to `rel` is pruned. */
  predicate KeptBelow(rules: Rules, dest: Path, rel: Path) {
    forall k | 0 < k <= |rel| :: !Pruned(rules, Render(dest + rel[..k]))
  }

  /** The raw entries a mapping puts into staging, by destination path. */
  function Items(rules: Rules, m: Mapping): Tree {
    var dest := Parts(m.destination);
    if m.source.Missing? then map[]
    else if m.kind == "file" then
      if Pruned(rules, m.destination) then map[] else map[dest := m.source.root]
    else
      map q | q in DestPaths(m) && dest <= q
              && q[|dest|..] in m.source.below && m.source.below[q[|dest|..]] != Symlink
              && KeptBelow(rules, dest, q[|dest|..]) :: m.source.below[q[|dest|..]]
  }

  function DestPaths(m: Mapping): set<Path> {
    if m.source.Missing? then {} else set rel | rel in m.source.below :: Parts(m.destination) + rel
  }

  /** Templating, then patching, of one staged file. */
  function Transform(template: Option<Rewrite>, m: Mapping, q: Path, c: Content): Option<Content> {
    var templated := if m.template && template.Some? then template.value(q, c) else Some(c);
    if templated.Some? && m.applyPatches.Some? then m.applyPatches.value(q, templated.value) else templated
  }

  /** A mapping's contribution: its items with their final contents. */
  function Contribution(template: Option<Rewrite>, rules: Rules, m: Mapping): Tree {
    var items := Items(rules, m);
    map q | q in items ::
      if items[q].File? && Transform(template, m, q, items[q].content).Some?
      then File(Transform(template, m, q, items[q].content).value)
      else items[q]
  }

  /** Everything that can make the staging of a mapping fail before any clash does. */
  ghost predicate Stageable(template: Option<Rewrite>, rules: Rules, m: Mapping) {
    var items := Items(rules, m);
    && (m.kind == "file" && !Pruned(rules, m.destination) ==>
          m.source.Existing? && m.source.root.File? && Parts(m.destination) != [])
    && (m.kind != "file" ==> m.source.Existing?)
    && (forall q | q in items && items[q].File? :: Transform(template, m, q, items[q].content).Some?)
  }

  // ----------------------------------------------------------------- overlay

  function Closure(s: set<Path>): set<Path> {
    set q, k | q in s && 0 < k <= |q| :: q[..k]
  }

  /** Laying entries over a tree: files overwrite, missing directories appear. */
  function Overlay(t: Tree, e: Tree): Tree {
    map q | q in t.Keys + Closure(e.Keys) ::
      if q in e && e[q].File? then e[q] else if q in t then t[q] else Dir
  }

  /** No file of one is where the other needs a directory. */
  ghost predicate Compatible(t: Tree, e: Tree) {
    && (forall q | q in Closure(e.Keys) && q in t && !t[q].Dir? :: q in e && e[q].File?)
    && (forall q | q in e && e[q].File? && q in t :: !t[q].Dir?)
  }

  /** What the `i`-th mapping contributes. */
  function Share(plan: SyncPlan, rules: Rules, i: nat): Tree
    requires i < |plan.mappings|
  {
    Contribution(plan.applyTemplate, rules, plan.mappings[i])
  }

  /** Staging after the first `n` mappings: the ordered fold of their contributions. */
  function StageTree(plan: SyncPlan, rules: Rules, n: nat): Tree
    requires n <= |plan.mappings|
  {
    if n == 0 then map[]
    else Overlay(StageTree(plan, rules, n - 1), Share(plan, rules, n - 1))
  }

  /** The first `n` mappings can all be staged, each over the ones before it. */
  ghost predicate StageOk(plan: SyncPlan, rules: Rules, n: nat)
    requires n <= |plan.mappings|
  {
    n == 0 || (
      && StageOk(plan, rules, n - 1)
      && Stageable(plan.applyTemplate, rules, plan.mappings[n - 1])
      && Compatible(StageTree(plan, rules, n - 1), Share(plan, rules, n - 1)))
  }

  function Files(t: Tree): set<Path> {
    set q | q in t && t[q].File?
  }

  ghost predicate NoLinks(t: Tree) {
    forall q | q in t :: t[q] != Symlink
  }

  /** Entries that could be a tree of their own: clean, no links, no file above another entry. */
  ghost predicate EntriesOk(e: Tree) {
    && (forall q | q in e :: q != [] && IsClean(q) && e[q] != Symlink)
    && (forall q, k | q in e && 0 < k < |q| && q[..k] in e :: e[q[..k]].Dir?)
  }

  lemma DirContributionOk(template: Option<Rewrite>, rules: Rules, m: Mapping)
    requires MappingOk(m) && m.kind != "file"
    ensures EntriesOk(Contribution(template, rules, m))
  {
    var e, dest := Contribution(template, rules, m), Parts(m.destination);
    forall q, k | q in e && 0 < k < |q| && q[..k] in e ensures e[q[..k]].Dir? {
      var rel := q[|dest|..];
      assert q[..k][|dest|..] == rel[..k - |dest|];
      assert k > |dest|;
    }
  }

  lemma ContributionOk(template: Option<Rewrite>, rules: Rules, m: Mapping)
    requires MappingOk(m) && Stageable(template, rules, m)
    ensures EntriesOk(Contribution(template, rules, m))
  {
    if m.kind != "file" {
      DirContributionOk(template, rules, m);
    }
  }

  lemma InClosure(s: set<Path>, q: Path, k: nat)
    requires q in s && 0 < k <= |q|
    ensures q[..k] in Closure(s)
  {
  }

  lemma OverlayOk(t: Tree, e: Tree)
    requires TreeOk(t) && NoLinks(t) && EntriesOk(e) && Compatible(t, e)
    ensures TreeOk(Overlay(t, e)) && NoLinks(Overlay(t, e))
    ensures Files(Overlay(t, e)) == Files(t) + Files(e)
  {
    var o := Overlay(t, e);
    forall q | q in o ensures q != [] && IsClean(q) && o[q] != Symlink {
      if q !in t {
        var r, k :| r in e && 0 < k <= |r| && q == r[..k];
      }
    }
    forall q, k | q in o && 0 < k < |q| ensures q[..k] in o && o[q[..k]].Dir? {
      var p := q[..k];
      if q in t {
        assert p in t && t[p].Dir?;
      } else {
        var r, j :| r in e && 0 < j <= |r| && q == r[..j];
        assert p == r[..k];
        InClosure(e.Keys, r, k);
      }
    }
    forall q ensures q in Files(o) <==> q in Files(t) + Files(e) {
      if q in Files(e) {
        InClosure(e.Keys, q, |q|);
        assert q[..|q|] == q;
      }
    }
  }

  lemma ShareOk(plan: SyncPlan, rules: Rules, n: nat)
    requires PlanOk(plan) && 0 < n <= |plan.mappings| && StageOk(plan, rules, n)
    ensures StageOk(plan, rules, n - 1) && EntriesOk(Share(plan, rules, n - 1))
    ensures Compatible(StageTree(plan, rules, n - 1), Share(plan, rules, n - 1))
    ensures StageTree(plan, rules, n) == Overlay(StageTree(plan, rules, n - 1), Share(plan, rules, n - 1))
  {
    ContributionOk(plan.applyTemplate, rules, plan.mappings[n - 1]);
  }

  lemma EmptyStageOk(plan: SyncPlan, rules: Rules)
    ensures TreeOk(StageTree(plan, rules, 0)) && NoLinks(StageTree(plan, rules, 0))
  {
  }

  lemma {:induction false} StageTreeOk(plan: SyncPlan, rules: Rules, n: nat)
    requires PlanOk(plan) && n <= |plan.mappings| && StageOk(plan, rules, n)
    ensures TreeOk(StageTree(plan, rules, n)) && NoLinks(StageTree(plan, rules, n))
  {
    hide *;
    if n == 0 {
      EmptyStageOk(plan, rules);
    } else {
      ShareOk(plan, rules, n);
      StageTreeOk(plan, rules, n - 1);
      OverlayOk(StageTree(plan, rules, n - 1), Share(plan, rules, n - 1));
    }
  }

  /** Mapping `i` is the last of the first `n` to contribute a file at `q`. */
  ghost predicate LastWriter(plan: SyncPlan, rules: Rules, n: nat, q: Path, i: nat)
    requires n <= |plan.mappings|
  {
    && i < n
    && q in Files(Share(plan, rules, i))
    && forall j | i < j < n :: q !in Files(Share(plan, rules, j))
  }

  /** Both trees have the same entry at `q`. */
  predicate SameAt(a: Tree, b: Tree, q: Path) {
    q in a && q in b && a[q] == b[q]
  }

  lemma SameAtTrans(a: Tree, b: Tree, c: Tree, q: Path)
    requires SameAt(a, b, q) && SameAt(b, c, q)
    ensures SameAt(a, c, q)
  {
  }

  lemma OverlayFileAt(t: Tree, e: Tree, q: Path)
    requires EntriesOk(e)
    ensures q in Files(e) ==> SameAt(Overlay(t, e), e, q) && q in Files(Overlay(t, e))
    ensures q !in Files(e) ==> (q in Files(Overlay(t, e)) <==> q in Files(t))
    ensures q !in Files(e) && q in Files(t) ==> SameAt(Overlay(t, e), t, q)
  {
    if q in Files(e) {
      InClosure(e.Keys, q, |q|);
      assert q[..|q|] == q;
    }
  }

  lemma NoWriters(plan: SyncPlan, rules: Rules, q: Path, i: nat)
    ensures !LastWriter(plan, rules, 0, q, i) && q !in Files(StageTree(plan, rules, 0))
  {
  }

  lemma LastWriterStep(plan: SyncPlan, rules: Rules, n: nat, q: Path, i: nat)
    requires 0 < n <= |plan.mappings|
    ensures LastWriter(plan, rules, n, q, i) ==> i < n
    ensures LastWriter(plan, rules, n, q, i) <==>
            if q in Files(Share(plan, rules, n - 1)) then i == n - 1 else LastWriter(plan, rules, n - 1, q, i)
  {
  }

  /** The last writer wins: where some mapping contributes a file, staging has a file
      and it holds what the last such mapping contributes. */
  lemma {:induction false} LastWriterWins(plan: SyncPlan, rules: Rules, n: nat, q: Path, i: nat)
    requires PlanOk(plan) && n <= |plan.mappings| && StageOk(plan, rules, n)
    requires i < n && LastWriter(plan, rules, n, q, i)
    ensures q in Files(StageTree(plan, rules, n))
    ensures SameAt(StageTree(plan, rules, n), Share(plan, rules, i), q)
  {
    hide *;
    NoWriters(plan, rules, q, i);
    ShareOk(plan, rules, n);
    LastWriterStep(plan, rules, n, q, i);
    OverlayFileAt(StageTree(plan, rules, n - 1), Share(plan, rules, n - 1), q);
    if q !in Files(Share(plan, rules, n - 1)) {
      assert i < n - 1 by {
        LastWriterStep(plan, rules, n - 1, q, i);
      }
      LastWriterWins(plan, rules, n - 1, q, i);
      SameAtTrans(StageTree(plan, rules, n), StageTree(plan, rules, n - 1), Share(plan, rules, i), q);
    }
  }

  /** And every staged file has such a writer. */
  lemma {:induction false} StagedHasWriter(plan: SyncPlan, rules: Rules, n: nat, q: Path) returns (i: nat)
    requires PlanOk(plan) && n <= |plan.mappings| && StageOk(plan, rules, n)
    requires q in Files(StageTree(plan, rules, n))
    ensures LastWriter(plan, rules, n, q, i)
  {
    hide *;
    NoWriters(plan, rules, q, 0);
    ShareOk(plan, rules, n);
    OverlayFileAt(StageTree(plan, rules, n - 1), Share(plan, rules, n - 1), q);
    i := n - 1;
    if q !in Files(Share(plan, rules, n - 1)) {
      i := StagedHasWriter(plan, rules, n - 1, q);
    }
    LastWriterStep(plan, rules, n, q, i);
  }
}
