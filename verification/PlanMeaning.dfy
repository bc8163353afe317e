/** What a plan stages and what it leaves alone, told by its mappings and patterns only. */
module PlanMeaning {
  import opened Options
  import opened Paths
  import opened Exclude
  import opened FileTrees
  import opened SyncPlans
  import opened Staging
  import opened Orphans
  import opened Merge
  import opened Engine
  import opened SyncTheorems
  import opened SafetyTheorems
  import opened PlanTheorems
  import opened EndToEnd

  // ---------------------------------------------------------------- patterns

  /** A path is cut off exactly if one of the plan's patterns, trimmed and not blank, matches
      it, or one of its components is a reserved name. */
  lemma CutMeans(plan: SyncPlan, path: string)
    ensures Pruned(RulesOf(plan), path) <==>
              (exists u | u in plan.excludePatterns :: TrimSpace(u) != "" && Match(plan.glob, TrimSpace(u), path))
              || ".sync-staging" in Split(path) || ".resources" in Split(path)
  {
    hide Match, TrimSpace, Split;
    var rules := RulesOf(plan);
    MergedExcludes(plan.glob, plan.excludePatterns, rules.excludes, path);
    OnlyStagingExcluded(plan.glob, path);
    ProtectedIsResources(plan.glob, path);
  }

  /** The engine's own patterns, spelled out. */
  lemma ReservedLiterals()
    ensures HARDCODED_EXCLUDES == ["**/.sync-staging/**"]
    ensures PROTECTED_PATTERNS == ["**/.resources/**", "**/.resources"]
  {
    SlashedThree("**", ".sync-staging", "**");
    SlashedThree("**", ".resources", "**");
    SlashedTwo("**", ".resources");
    assert "**" + "/" + (".sync-staging" + "/" + "**") == "**/.sync-staging/**";
    assert "**" + "/" + (".resources" + "/" + "**") == "**/.resources/**";
    assert "**" + "/" + ".resources" == "**/.resources";
  }

  lemma SlashedTwo(a: string, b: string)
    ensures Slashed([a, b]) == a + "/" + b
  {
    assert [a, b][1..] == [b];
    assert Slashed([b]) == b;
  }

  lemma SlashedThree(a: string, b: string, c: string)
    ensures Slashed([a, b, c]) == a + "/" + (b + "/" + c)
  {
    assert [a, b, c][1..] == [b, c];
    SlashedTwo(b, c);
  }

  /** Nothing on the way from the live root to `p` is cut off. */
  lemma ClearMeans(plan: SyncPlan, p: Path)
    ensures ClearWay(RulesOf(plan), p) <==>
              forall k | 0 < k <= |p| ::
                && (forall u | u in plan.excludePatterns ::
                      TrimSpace(u) == "" || !Match(plan.glob, TrimSpace(u), Render(p[..k])))
                && ".sync-staging" !in Split(Render(p[..k])) && ".resources" !in Split(Render(p[..k]))
  {
    hide Match, TrimSpace, Split, Pruned, Render;
    forall k | 0 < k <= |p| {
      CutMeans(plan, Render(p[..k]));
    }
  }

  // ---------------------------------------------------------------- contributions

  /** An entry of a directory mapping's source is contributed exactly if it is no link and
      nothing from just below the destination down to it is cut off. */
  lemma ContributedIff(plan: SyncPlan, i: nat, rel: Path)
    requires PlanOk(plan) && i < |plan.mappings|
    requires plan.mappings[i].kind != "file" && plan.mappings[i].source.Existing?
    requires rel in plan.mappings[i].source.below
    ensures var m := plan.mappings[i]; var dest := Parts(m.destination);
            dest + rel in Share(plan, RulesOf(plan), i) <==>
              m.source.below[rel] != Symlink
              && forall k | 0 < k <= |rel| ::
                   && (forall u | u in plan.excludePatterns ::
                         TrimSpace(u) == "" || !Match(plan.glob, TrimSpace(u), Render(dest + rel[..k])))
                   && ".sync-staging" !in Split(Render(dest + rel[..k]))
                   && ".resources" !in Split(Render(dest + rel[..k]))
  {
    hide Match, TrimSpace, Split, Pruned, Render, Parts;
    var m, rules := plan.mappings[i], RulesOf(plan);
    var dest := Parts(m.destination);
    forall k | 0 < k <= |rel| {
      CutMeans(plan, Render(dest + rel[..k]));
    }
    JoinedPath(dest, rel);
    assert dest + rel in DestPaths(m);
    assert KeptBelow(rules, dest, rel) <==> forall k | 0 < k <= |rel| :: !Pruned(rules, Render(dest + rel[..k]));
  }

  /** And nothing else is: a directory mapping contributes only below its destination, from its source. */
  lemma ContributedFrom(plan: SyncPlan, i: nat, q: Path)
    requires PlanOk(plan) && i < |plan.mappings| && plan.mappings[i].kind != "file"
    requires q in Share(plan, RulesOf(plan), i)
    ensures var m := plan.mappings[i]; var dest := Parts(m.destination);
            m.source.Existing? && dest <= q && q[|dest|..] in m.source.below
  {
  }

  /** A file mapping contributes its destination, unless that is cut off. */
  lemma FileContributedIff(plan: SyncPlan, i: nat, q: Path)
    requires PlanOk(plan) && i < |plan.mappings| && plan.mappings[i].kind == "file"
    ensures var m := plan.mappings[i];
            q in Share(plan, RulesOf(plan), i) <==>
              q == Parts(m.destination) && m.source.Existing?
              && (forall u | u in plan.excludePatterns ::
                    TrimSpace(u) == "" || !Match(plan.glob, TrimSpace(u), m.destination))
              && ".sync-staging" !in Split(m.destination) && ".resources" !in Split(m.destination)
  {
    hide Match, TrimSpace, Split, Pruned, Parts;
    CutMeans(plan, plan.mappings[i].destination);
  }

  /** Templates first, patches second, each on what the step before it left. */
  lemma TransformMeans(template: Option<Rewrite>, m: Mapping, q: Path, c: Content, d: Content)
    ensures Transform(template, m, q, c) == Some(d) <==>
              exists mid: Content ::
                && (if m.template && template.Some? then template.value(q, c) == Some(mid) else mid == c)
                && (if m.applyPatches.Some? then m.applyPatches.value(q, mid) == Some(d) else d == mid)
  {
    if Transform(template, m, q, c) == Some(d) {
      var mid := if m.template && template.Some? then template.value(q, c).value else c;
      assert if m.template && template.Some? then template.value(q, c) == Some(mid) else mid == c;
    }
  }

  /** The raw source of what a mapping contributes at `q`. */
  function RawAt(m: Mapping, q: Path): Option<Node> {
    var dest := Parts(m.destination);
    if m.source.Missing? then None
    else if m.kind == "file" then if q == dest then Some(m.source.root) else None
    else if dest <= q && q[|dest|..] in m.source.below then Some(m.source.below[q[|dest|..]])
    else None
  }

  /** A staged file holds its source's bytes, templated if the mapping says so, then patched;
      a directory stays a directory. */
  lemma ContributionIs(plan: SyncPlan, i: nat, q: Path)
    requires PlanOk(plan) && i < |plan.mappings|
    requires Stageable(plan.applyTemplate, RulesOf(plan), plan.mappings[i])
    requires q in Share(plan, RulesOf(plan), i)
    ensures var m, n := plan.mappings[i], Share(plan, RulesOf(plan), i)[q];
            match RawAt(m, q)
            case Some(File(c)) =>
              n.File? && exists mid: Content ::
                && (if m.template && plan.applyTemplate.Some? then plan.applyTemplate.value(q, c) == Some(mid) else mid == c)
                && (if m.applyPatches.Some? then m.applyPatches.value(q, mid) == Some(n.content) else n.content == mid)
            case Some(Dir) => n == Dir
            case _ => false
  {
    hide Pruned, Parts, KeptBelow;
    var m, rules := plan.mappings[i], RulesOf(plan);
    var items := Items(rules, m);
    assert RawAt(m, q) == Some(items[q]);
    if items[q].File? {
      TransformMeans(plan.applyTemplate, m, q, items[q].content, Share(plan, rules, i)[q].content);
    }
  }

  // ---------------------------------------------------------------- the user's patterns

  /** Where some pattern of the plan matches on the way from just below the destination down to
      `q`, the mapping contributes nothing at `q`. */
  lemma MatchedIsNotContributed(plan: SyncPlan, i: nat, q: Path, u: string, k: nat)
    requires PlanOk(plan) && i < |plan.mappings| && plan.mappings[i].kind != "file"
    requires u in plan.excludePatterns && TrimSpace(u) != ""
    requires |Parts(plan.mappings[i].destination)| < k <= |q| && Match(plan.glob, TrimSpace(u), Render(q[..k]))
    ensures q !in Share(plan, RulesOf(plan), i)
  {
    hide Match, TrimSpace, Split, Render, Parts;
    if q in Share(plan, RulesOf(plan), i) {
      var dest := Parts(plan.mappings[i].destination);
      ContributedFrom(plan, i, q);
      var rel := q[|dest|..];
      assert q == dest + rel && q[..k] == dest + rel[..k - |dest|];
      ContributedIff(plan, i, rel);
    }
  }

  /** A live entry with a matched prefix that is not staged is as it was, wherever a run stops. */
  lemma MatchedIsUntouched(plan: SyncPlan, before: Tree, now: Tree, p: Path, u: string, k: nat)
    requires PlanOk(plan) && TreeOk(before) && RunTrace(plan, before, now)
    requires u in plan.excludePatterns && TrimSpace(u) != ""
    requires 0 < k <= |p| && Match(plan.glob, TrimSpace(u), Render(p[..k]))
    requires p in before && p !in Staged(plan)
    ensures SameAt(now, before, p)
  {
    hide RunTrace, Trace, Staged, Managed, ClearWay, Match, TrimSpace, Render, Stages;
    PlanTrees(plan, before, now);
    ClearMeans(plan, p);
    Frame(before, now, Staged(plan), RulesOf(plan), RootsOf(plan), p);
  }

  lemma TrimKeeps(s: string)
    requires s != "" && !IsSpace(s[0]) && !IsSpace(s[|s| - 1])
    ensures TrimSpace(s) == s
  {
  }

  /** A pattern for a name at the end of a path keeps files of that name out of every directory mapping. */
  lemma NameIsNotContributed(plan: SyncPlan, i: nat, q: Path, name: string, u: string)
    requires PlanOk(plan) && i < |plan.mappings| && plan.mappings[i].kind != "file"
    requires u in plan.excludePatterns && TrimSpace(u) == AtEnd(name) && AtEnd(name) != ""
    requires name != "**" && Literal(name) && '/' !in name
    requires |Parts(plan.mappings[i].destination)| < |q| && IsClean(q) && q[|q| - 1] == name
    ensures q !in Share(plan, RulesOf(plan), i)
  {
    hide TrimSpace, Parts, Share, Literal, Slashed;
    SplitSlashed(q);
    MatchPlain(plan.glob, ["**", name], Render(q));
    MatchLast(name, q);
    assert q[..|q|] == q;
    MatchedIsNotContributed(plan, i, q, u, |q|);
  }

  lemma GitkeepPattern()
    ensures TrimSpace("**/.gitkeep") == AtEnd(".gitkeep") && AtEnd(".gitkeep") != ""
    ensures Literal(".gitkeep") && '/' !in ".gitkeep"
  {
    SlashedTwo("**", ".gitkeep");
    assert AtEnd(".gitkeep") == "**/.gitkeep";
    TrimKeeps("**/.gitkeep");
  }

  /** What the agent always appends: no `.gitkeep` file is staged by a directory mapping. */
  lemma GitkeepIsNotContributed(plan: SyncPlan, i: nat, q: Path)
    requires PlanOk(plan) && i < |plan.mappings| && plan.mappings[i].kind != "file"
    requires "**/.gitkeep" in plan.excludePatterns
    requires |Parts(plan.mappings[i].destination)| < |q| && IsClean(q) && q[|q| - 1] == ".gitkeep"
    ensures q !in Share(plan, RulesOf(plan), i)
  {
    hide TrimSpace, Parts, Share, AtEnd, Literal;
    GitkeepPattern();
    NameIsNotContributed(plan, i, q, ".gitkeep", "**/.gitkeep");
  }

  /** Mirror in the plan's own terms: where some destination string captures the path and
      nothing on its way is cut off, a regular file is live exactly if one is staged. */
  lemma MirrorInPlainTerms(plan: SyncPlan, live: Tree, p: Path, i: nat)
    requires PlanOk(plan) && TreeOk(live) && Stages(plan) && Mergeable(live, Staged(plan))
    requires p != [] && IsClean(p) && i < |plan.mappings|
    requires Render(p) == plan.mappings[i].destination || plan.mappings[i].destination + "/" <= Render(p)
    requires forall k | 0 < k <= |p| ::
               && (forall u | u in plan.excludePatterns ::
                      TrimSpace(u) == "" || !Match(plan.glob, TrimSpace(u), Render(p[..k])))
               && ".sync-staging" !in Split(Render(p[..k])) && ".resources" !in Split(Render(p[..k]))
    ensures p in Files(Synced(plan, live)) <==> p in Files(Staged(plan))
  {
    hide Match, TrimSpace, Split, Render, Staged, Synced, Stages;
    SyncedMirrors(plan, live);
    ClearMeans(plan, p);
    assert plan.mappings[i].destination in RootsOf(plan);
    assert StringUnder(Render(p), plan.mappings[i].destination);
    RootTests(RootsOf(plan), p);
  }

  // ---------------------------------------------------------------- the whole of staging

  /** The path lies at or above some entry. */
  predicate Leads(q: Path, e: Tree) {
    q != [] && exists r | r in e.Keys :: q <= r
  }

  /** Staging holds what lies at or above some mapping's contribution, and no more. */
  lemma {:induction false} StagedIff(plan: SyncPlan, rules: Rules, n: nat, q: Path)
    requires n <= |plan.mappings|
    ensures q in StageTree(plan, rules, n) <==> exists i | 0 <= i < n :: Leads(q, Share(plan, rules, i))
  {
    hide *;
    if n == 0 {
      EmptyStage(plan, rules);
    } else {
      StagedIff(plan, rules, n - 1, q);
      StagedStep(plan, rules, n);
      OverlayAt(StageTree(plan, rules, n - 1), Share(plan, rules, n - 1), q);
      ClosureMeans(Share(plan, rules, n - 1), q);
    }
  }

  lemma EmptyStage(plan: SyncPlan, rules: Rules)
    ensures StageTree(plan, rules, 0) == map[]
  {
  }

  lemma StagedStep(plan: SyncPlan, rules: Rules, n: nat)
    requires 0 < n <= |plan.mappings|
    ensures StageTree(plan, rules, n) == Overlay(StageTree(plan, rules, n - 1), Share(plan, rules, n - 1))
  {
  }

  lemma ClosureMeans(e: Tree, q: Path)
    ensures q in Closure(e.Keys) <==> Leads(q, e)
  {
    if q in Closure(e.Keys) {
      var r, k :| r in e.Keys && 0 < k <= |r| && q == r[..k];
      assert q <= r;
    }
    if Leads(q, e) {
      var r :| r in e.Keys && q <= r;
      assert q == r[..|q|];
      InClosure(e.Keys, r, |q|);
    }
  }

  /** Two contributions do not clash: where one has a file, the other has at most a file, and
      nothing below. */
  ghost predicate Friendly(e: Tree, f: Tree) {
    && (forall q, r | q in Files(e) && r in f && q <= r :: q == r && f[r].File?)
    && (forall q, r | q in Files(f) && r in e && q <= r :: q == r && e[r].File?)
  }

  /** A contribution fits on staging so far exactly if it clashes with none of those before. */
  lemma CompatibleIff(plan: SyncPlan, rules: Rules, n: nat, e: Tree)
    requires PlanOk(plan) && n <= |plan.mappings| && StageOk(plan, rules, n) && EntriesOk(e)
    ensures Compatible(StageTree(plan, rules, n), e) <==>
              forall i | 0 <= i < n :: Friendly(Share(plan, rules, i), e)
  {
    hide Share, StageTree, Closure, StageOk, PlanOk;
    var t := StageTree(plan, rules, n);
    StageTreeOk(plan, rules, n);
    if Compatible(t, e) {
      forall i | 0 <= i < n ensures Friendly(Share(plan, rules, i), e) {
        FitsMeansFriendly(plan, rules, n, e, i);
      }
    }
    if forall i | 0 <= i < n :: Friendly(Share(plan, rules, i), e) {
      forall q | q in Closure(e.Keys) && q in t && !t[q].Dir? ensures q in e && e[q].File? {
        assert q in Files(t);
        var i := StagedHasWriter(plan, rules, n, q);
        ClosureMeans(e, q);
        var r :| r in e.Keys && q <= r;
        assert Friendly(Share(plan, rules, i), e);
      }
      forall q | q in e && e[q].File? && q in t ensures !t[q].Dir? {
        StagedIff(plan, rules, n, q);
        var i :| 0 <= i < n && Leads(q, Share(plan, rules, i));
        assert Friendly(Share(plan, rules, i), e) && q in Files(e);
        StagedFile(plan, rules, n, q, i);
      }
    }
  }

  /** What some mapping stages as a file is one. */
  lemma {:induction false} StagedFile(plan: SyncPlan, rules: Rules, n: nat, q: Path, i: nat)
    requires PlanOk(plan) && i < n <= |plan.mappings| && StageOk(plan, rules, n)
    requires q in Files(Share(plan, rules, i))
    ensures q in Files(StageTree(plan, rules, n))
  {
    hide Share, StageTree, StageOk, PlanOk, Overlay;
    ShareOk(plan, rules, n);
    OverlayFileAt(StageTree(plan, rules, n - 1), Share(plan, rules, n - 1), q);
    if i < n - 1 {
      StagedFile(plan, rules, n - 1, q, i);
    }
  }

  /** And what some mapping needs as a directory is one. */
  lemma StagedDir(plan: SyncPlan, rules: Rules, n: nat, q: Path, i: nat, r: Path)
    requires PlanOk(plan) && i < n <= |plan.mappings| && StageOk(plan, rules, n)
    requires r in Share(plan, rules, i) && q != [] && q <= r && (q == r ==> Share(plan, rules, i)[r].Dir?)
    ensures q in StageTree(plan, rules, n) && StageTree(plan, rules, n)[q].Dir?
    decreases n
  {
    hide Share, StageTree, StageOk, PlanOk, Overlay, Closure;
    ShareOk(plan, rules, n);
    StagedIff(plan, rules, n, q);
    var t, e := StageTree(plan, rules, n - 1), Share(plan, rules, n - 1);
    OverlayAt(t, e, q);
    if i < n - 1 {
      StagedDir(plan, rules, n - 1, q, i, r);
    } else {
      ClosureMeans(e, q);
      StageTreeOk(plan, rules, n);
      if q != r {
        assert q == r[..|q|];
      }
    }
  }

  lemma FitsMeansFriendly(plan: SyncPlan, rules: Rules, n: nat, e: Tree, i: nat)
    requires PlanOk(plan) && i < n <= |plan.mappings| && StageOk(plan, rules, n) && EntriesOk(e)
    requires Compatible(StageTree(plan, rules, n), e)
    ensures Friendly(Share(plan, rules, i), e)
  {
    hide Share, StageTree, Closure, StageOk, PlanOk;
    var t, s := StageTree(plan, rules, n), Share(plan, rules, i);
    forall q, r | q in Files(s) && r in e && q <= r ensures q == r && e[r].File? {
      StagedFile(plan, rules, n, q, i);
      EmptyPathIsNoFile(plan, rules, n, q);
      ClosureMeans(e, q);
      assert q in e && e[q].File?;
      assert q == r[..|q|];
    }
    forall q, r | q in Files(e) && r in s && q <= r ensures q == r && s[r].File? {
      assert s[r].File? || s[r].Dir? || s[r].Symlink?;
      StagedIff(plan, rules, n, q);
      if q != r || s[r].Dir? {
        StagedDir(plan, rules, n, q, i, r);
      } else {
        NoLinkShared(plan, rules, n, i);
      }
    }
  }

  lemma EmptyPathIsNoFile(plan: SyncPlan, rules: Rules, n: nat, q: Path)
    requires PlanOk(plan) && n <= |plan.mappings| && StageOk(plan, rules, n) && q in StageTree(plan, rules, n)
    ensures q != []
  {
    StageTreeOk(plan, rules, n);
  }

  lemma {:induction false} NoLinkShared(plan: SyncPlan, rules: Rules, n: nat, i: nat)
    requires PlanOk(plan) && i < n <= |plan.mappings| && StageOk(plan, rules, n)
    ensures EntriesOk(Share(plan, rules, i))
  {
    hide Share, PlanOk;
    if i < n - 1 {
      NoLinkShared(plan, rules, n - 1, i);
    } else {
      ShareOk(plan, rules, n);
    }
  }

  ghost predicate AllStageable(plan: SyncPlan, rules: Rules, n: nat)
    requires n <= |plan.mappings|
  {
    forall i | 0 <= i < n :: Stageable(plan.applyTemplate, rules, plan.mappings[i])
  }

  ghost predicate AllFriendly(plan: SyncPlan, rules: Rules, n: nat)
    requires n <= |plan.mappings|
  {
    forall i, j | 0 <= i < j < n :: Friendly(Share(plan, rules, i), Share(plan, rules, j))
  }

  lemma OneMoreFriendly(plan: SyncPlan, rules: Rules, n: nat)
    requires 0 < n <= |plan.mappings|
    ensures AllStageable(plan, rules, n) <==>
              AllStageable(plan, rules, n - 1) && Stageable(plan.applyTemplate, rules, plan.mappings[n - 1])
    ensures AllFriendly(plan, rules, n) <==>
              AllFriendly(plan, rules, n - 1)
              && forall i | 0 <= i < n - 1 :: Friendly(Share(plan, rules, i), Share(plan, rules, n - 1))
  {
    hide Share, Friendly, Stageable;
  }

  /** Whether a plan can be staged does not depend on the order of its mappings: every mapping
      must be stageable on its own, and no two may clash. */
  lemma {:induction false} StageOkIff(plan: SyncPlan, rules: Rules, n: nat)
    requires PlanOk(plan) && n <= |plan.mappings|
    ensures StageOk(plan, rules, n) <==> AllStageable(plan, rules, n) && AllFriendly(plan, rules, n)
  {
    hide *;
    if n == 0 {
      NothingToStage(plan, rules);
    } else {
      StageOkIff(plan, rules, n - 1);
      OneMoreFriendly(plan, rules, n);
      StageOkStep(plan, rules, n);
      if StageOk(plan, rules, n - 1) && Stageable(plan.applyTemplate, rules, plan.mappings[n - 1]) {
        ContributionIsOk(plan, rules, n - 1);
        CompatibleIff(plan, rules, n - 1, Share(plan, rules, n - 1));
      }
    }
  }

  lemma NothingToStage(plan: SyncPlan, rules: Rules)
    ensures StageOk(plan, rules, 0) && AllStageable(plan, rules, 0) && AllFriendly(plan, rules, 0)
  {
  }

  lemma StageOkStep(plan: SyncPlan, rules: Rules, n: nat)
    requires 0 < n <= |plan.mappings|
    ensures StageOk(plan, rules, n) <==>
              StageOk(plan, rules, n - 1) && Stageable(plan.applyTemplate, rules, plan.mappings[n - 1])
              && Compatible(StageTree(plan, rules, n - 1), Share(plan, rules, n - 1))
  {
    hide Share, Compatible, Stageable, StageTree;
  }

  lemma ContributionIsOk(plan: SyncPlan, rules: Rules, i: nat)
    requires PlanOk(plan) && i < |plan.mappings| && Stageable(plan.applyTemplate, rules, plan.mappings[i])
    ensures EntriesOk(Share(plan, rules, i))
  {
    ContributionOk(plan.applyTemplate, rules, plan.mappings[i]);
  }

  /** What a mapping needs on its own: a directory mapping its source; a file mapping that is
      not cut off a regular file and a destination below the live root; and every file it
      contributes a template and patches that go through. */
  lemma StageableMeans(plan: SyncPlan, i: nat)
    requires PlanOk(plan) && i < |plan.mappings|
    ensures var m, rules := plan.mappings[i], RulesOf(plan);
            Stageable(plan.applyTemplate, rules, m) <==>
              && (m.kind != "file" ==> m.source.Existing?)
              && (m.kind == "file" && !Pruned(rules, m.destination) ==>
                    m.source.Existing? && m.source.root.File? && Parts(m.destination) != [])
              && forall q, c | q in Share(plan, rules, i) && RawAt(m, q) == Some(File(c)) ::
                   exists d: Content :: Transform(plan.applyTemplate, m, q, c) == Some(d)
  {
    hide Pruned, Parts, KeptBelow, Transform;
    var m, rules := plan.mappings[i], RulesOf(plan);
    var items := Items(rules, m);
    forall q | q in items ensures RawAt(m, q) == Some(items[q]) && q in Share(plan, rules, i) {
    }
    forall q, c | q in Share(plan, rules, i) && RawAt(m, q) == Some(File(c)) ensures items[q] == File(c) {
    }
    if forall q, c | q in Share(plan, rules, i) && RawAt(m, q) == Some(File(c)) ::
         exists d: Content :: Transform(plan.applyTemplate, m, q, c) == Some(d) {
      forall q | q in items && items[q].File?
        ensures Transform(plan.applyTemplate, m, q, items[q].content).Some?
      {
        assert RawAt(m, q) == Some(File(items[q].content));
      }
    }
  }
}
