# Stoker: a verified model

Stoker keeps the configuration of Ignition gateways in step with a git repository. A controller
resolves a ref and publishes it; an agent beside every gateway fetches the repository and runs a
staged file sync. This project models the sync engine, the agent's concurrent protocols and the
controller's bookkeeping in Dafny, and proves what they promise. `dafny verify dfyconfig.toml`
checks all of it.

## What is modelled

**The sync engine** (`Paths`, `Exclude`, `FileTree`, `SyncPlan`, `Walk`, `Staging`, `Merge`, `Orphans`,
`Cleanup`, `DryRun`, `Engine`). A `FileTree` is a disk: a map from path to file, directory or link,
changed in place by one method per system call. Unless the disk is healthy throughout, every call may
fail on its own account, and a ghost flag records that one did; a process that dies after any number
of calls is a run in which all later calls fail. The phases of a sync are methods over two such trees, the staging and the live one, with
the loops, tests and counters of the code. Each is proved against a specification that knows no walk:
staging is the ordered overlay of the mappings' contributions, the orphans are a set, cleanup is that
set removed together with the directories this empties. What a sync means is then proved about the
specification (`SyncTheorems`, `SafetyTheorems`, `PlanTheorems`), told in terms of mappings and patterns
only (`PlanMeaning`), and brought back to the code as contracts
of methods that call `ExecutePlan` once, twice, after a preview and after a crash (`EndToEnd`).

Paths are strings where the code tests strings. `Paths` connects those tests with component
sequences. Patterns made of literal names and `**` are matched exactly; for patterns with wildcards
inside a component, any deterministic matcher is allowed. Template and patch functions are arbitrary
deterministic functions of path and content that may fail.

**The agent** (`AgentSync`, `Agent`, `StatusConfigMap`, `Watcher`). Each protocol is a step system over
runs (`Runs`), and its theorems hold for every interleaving. Beside it stands a class with the
fields and the control flow of the code; its methods take steps of the system only, with arbitrary
steps of the others in between, so that the theorems about runs are theorems about the code. What the
outside world answers is an input, and the results are exactly determined by it.

**The controller** (`Backoff`, `Conditions`, `RoleBinding`) and the two path checks (`PathSafety`).

## Where the code does less than one would expect

The model follows the code. Each of these is proved together with the exact condition.

- A destination is a managed root as it is written. One that is not in clean form, such as
  `projects/` in config/samples/stoker_v1alpha1_gatewaysync.yaml:24, or `.`, captures nothing, so its
  orphans are never removed (`PlanTheorems.CapturesIffClean`, `PlanTheorems.TrailingSlashKeepsOrphans`).
- docs/docs/guides/json-patches.md:153 says that a missing optional source is skipped. It becomes a
  directory mapping whose walk fails, and with it the plan (`PlanTheorems.MissingSourceFails`).
- Staging tests excludes below the destination only, cleanup from the live root; they agree exactly
  when the destination itself is not excluded (`PlanTheorems.StagedWayClear`).
- The climb may remove a directory that staging has, so the mirror property is about files. It is
  known which staged directories go, and the second run changes something exactly when one did
  (`SyncTheorems.StagedMissingIff`, `SyncTheorems.SecondRunIdleIff`, with an example in
  `SyncTheorems.StagedDirectoryCanGo`).
- A temporary file left by a stopped sync can stand in the way of a staged directory; otherwise the
  same plan can always be run again (`SafetyTheorems.Recoverable`, `SafetyTheorems.BlockCanHappen`).
- A trigger skipped as unchanged does not always mean that the recorded commit and profiles are live.
  Four things part them: a failed scan, of another commit or only of other profiles; an engine run that
  breaks off; a success for another checkout or other metadata than it records, be it the
  post-commission sync or an engine run that reads the metadata again; and a success without a merge.
  `AgentSync.MatchBreaksIff` has the exact condition, and `AgentSync.FailedScanHidesRollback`,
  `AgentSync.BrokenRunHidesRollback`, `AgentSync.RereadHidesProfiles` and
  `AgentSync.PostCommissionHidesRollback` are runs in which a skip then misleads. A change of the ref
  alone is never noticed, though templates may name it (`AgentSync.RefIsNotCompared`).
- The agent's `30s << (n-1)` overflows: from the 30th failure in a row on it is right only where one
  particular bit is clear, from the 55th on never, and where it is wrong the agent does not back off
  at all (`Backoff.AgentDelayIsDelayIff`, `Backoff.OverflowMeansNoBackoff`).
- A ref that does not resolve leaves Ready as it was, so Ready can be True beside a RefResolved that
  is not; a reconciliation that returns early or whose patch fails keeps such a pair. There is no other
  case (`Conditions.GatewaySyncStatus.Reconcile`).
- An error from `WriteStatusConfigMap` does not say that the value was not stored: it was exactly if a
  write was stored and its answer lost. Giving up after three rounds does say so
  (`StatusConfigMaps.ResultMeans`, with a run in `StatusConfigMaps.ErrorMayHaveWritten`).
- The poller announces no change that comes before its own first successful read
  (`Watchers.NoticedIffPolledBefore`).
- Subjects of a RoleBinding are compared by name only. They end up as the namespace's own service
  accounts unless the binding had the right role and names from the start, with some subject of another
  kind or namespace (`RoleBindings.Namespace.Converge`, `RoleBindings.ForeignSubjectStays`).
- The agent accepts more paths than the controller, but none that leaves its base
  (`PathSafety.AgentAcceptsMore`).

## Model

| member | source | states |
|---|---|---|
| `Paths.StringUnderIsPrefix` | internal/syncengine/plan.go:243-251 | for every root string, `rel == root` or prefix `root/` holds exactly when the root's components begin the path's, so `config` never captures `config2/x` |
| `Paths.StringAboveIsPrefix` | internal/syncengine/plan.go:257-265 | the ancestor test is the strict component-wise prefix the other way round |
| `Paths.PartsCleaned` | internal/agent/profile.go:96 | a cleaned relative path has `..` only as a leading run |
| `Exclude.ProtectedIsResources` | internal/syncengine/exclude.go:59-68 | a path is protected if and only if `.resources` is one of its components |
| `Exclude.StagingIsExcluded` | internal/syncengine/exclude.go:11-13 | whatever the user's patterns, every path with a `.sync-staging` component is excluded |
| `Exclude.MergeExcludes` | internal/syncengine/exclude.go:22-42 | the trimmed user patterns, then the hardcoded ones, blanks dropped, each at its first occurrence |
| `Exclude.FirstOccurrencesElements` | internal/syncengine/exclude.go:26-41 | merging loses no pattern but the blank ones and lists none twice |
| `Exclude.TrimSpaceMeans` | internal/syncengine/exclude.go:27 | trimming takes white space from both ends and nothing else |
| `Exclude.DoubleStarSplits` | internal/syncengine/exclude.go:50 | `**` stands for any run of components |
| `Exclude.LiteralsMatchThemselves` | internal/syncengine/exclude.go:50 | literal components match themselves, in place |
| `Exclude.OnlyStagingExcluded` | internal/syncengine/exclude.go:11-13 | on their own the hardcoded patterns exclude nothing but `.sync-staging` |
| `Exclude.MergedExcludes` | internal/syncengine/exclude.go:44-57 | the merged list excludes exactly what the trimmed user patterns or the hardcoded ones exclude |
| `FileTrees.FileTree.FilesEqual` | internal/syncengine/copy.go:70-91 | equal only for two regular files with the same bytes, never for links; exactly then when no call fails |
| `FileTrees.FileTree.ReplaceViaTemp` | internal/syncengine/copy.go:42-66 | temporary file and rename: on success the target holds the whole source, on failure every old entry is intact and at most one temporary file is new |
| `FileTrees.FileTree.CopyFile` | internal/syncengine/copy.go:18-66 | skipping an equal target leaves the contents an unconditional copy would; links are refused; at any stopping point the target holds its old or its new contents in full |
| `SyncPlans.LastWriterWins` | internal/syncengine/plan.go:67-77 | where mappings contribute a file, staging holds what the last of them contributes |
| `SyncPlans.StagedHasWriter` | internal/syncengine/plan.go:67-77 | every staged file comes from some mapping |
| `SyncPlans.OverlayOk` | internal/syncengine/plan.go:67-77 | laying a contribution over staging gives a tree again, whose files are those of both |
| `Staging.StageFile` | internal/syncengine/plan.go:196-213 | copy, template and patch one file: staging gains exactly the transformed contents, and success is exactly characterised |
| `Staging.StageSingleFile` | internal/syncengine/plan.go:121-150 | a file mapping overlays its contribution, succeeds exactly when it can, and keeps the tracked set equal to staging's files |
| `Staging.StageVisit` | internal/syncengine/plan.go:157-217 | one callback: links and pruned entries leave staging alone, a pruned directory is not entered, any other entry joins the overlay |
| `Staging.StageDirectory` | internal/syncengine/plan.go:156-218 | a directory mapping overlays exactly its unpruned regular files and directories, transformed; links are skipped |
| `Staging.StageAll` | internal/syncengine/plan.go:64-77 | staging becomes the fold of the contributions, or the plan could not be staged; the tracked set is staging's files |
| `Orphans.RootTests` | internal/syncengine/plan.go:243-265 | the tests over all roots are their component-wise meanings on every path a tree can list |
| `Orphans.WayToManaged` | internal/syncengine/plan.go:253-265 | every directory on the way to a managed path is managed or an ancestor of a root |
| `Merge.MergeEntry` | internal/syncengine/plan.go:285-306 | one merge callback puts the staged entry live and tells whether it wrote and whether the path existed |
| `Merge.MergeStagingToLive` | internal/syncengine/plan.go:268-309 | live becomes live overlaid by staging; `added` and `modified` are the sizes of the sets of new and of changed files; a stopped merge has only replaced whole files |
| `Cleanup.Classify` | internal/syncengine/plan.go:322-363 | which entries the cleanup walk enters and which it considers for removal |
| `Cleanup.UnvisitedStays` | internal/syncengine/plan.go:372-387 | removing empty parents never removes an entry the walk has yet to visit |
| `Cleanup.ListedInFull` | internal/syncengine/plan.go:313-388 | so every directory is still listed in full when the walk comes to it |
| `Cleanup.WayToOrphan` | internal/syncengine/plan.go:334-359 | skipping directories hides no orphan |
| `Cleanup.RemoveIfEmpty` | internal/syncengine/plan.go:375-386 | one step of the climb removes a managed directory exactly when removals have emptied it |
| `Cleanup.Climb` | internal/syncengine/plan.go:372-387 | the climb ends with no emptied managed directory left and nothing else removed |
| `Cleanup.RemoveIfOrphan` | internal/syncengine/plan.go:365-388 | a managed file goes exactly when staging lacks it, together with the directories that empties |
| `Cleanup.CleanOrphans` | internal/syncengine/plan.go:312-393 | in-place cleanup removes exactly the orphans and the directories that empties; `deleted` is the number of orphans; a stopped one has removed nothing else |
| `DryRun.DiffStaged` | internal/syncengine/plan.go:400-428 | lists each new and each differing staged file once |
| `DryRun.DiffDeleted` | internal/syncengine/plan.go:431-476 | lists each orphan of the unmerged live tree once |
| `DryRun.ComputeDryRunDiff` | internal/syncengine/plan.go:396-479 | the three lists, with no live entry changed |
| `Engine.ComputeManagedRoots` | internal/syncengine/plan.go:232-238 | the destinations as they are written |
| `Engine.SyncLive` | internal/syncengine/plan.go:92-107 | merge, then cleanup of the merged tree, with the three counts |
| `Engine.DiffLive` | internal/syncengine/plan.go:82-91 | the diff and the counts of its lists |
| `Engine.ExecutePlan` | internal/syncengine/plan.go:50-116 | whatever staging held before: success and the new live tree are exactly specified, a dry run changes no live path, a run stopped anywhere is a partial merge or a partial cleanup |
| `SyncTheorems.Mirror` | internal/syncengine/plan.go:92-107 | from any live tree, every staged file is live with its staged contents, and on managed unpruned paths a regular file is live if and only if staging has one |
| `SyncTheorems.MirrorDetermined` | internal/syncengine/plan.go:92-107 | files on managed unpruned paths do not depend on what was live before |
| `SyncTheorems.CountedSets` | internal/syncengine/plan.go:291-306 | the counted sets are exactly the entries that the run creates, rewrites and removes |
| `SyncTheorems.Conservation` | internal/syncengine/plan.go:98-106 | the three counts add up to the entries that differ before and after; entries after = before + added − deleted |
| `SyncTheorems.DryRunPredicts` | internal/syncengine/plan.go:396-479 | the diff names exactly what the live run creates, rewrites and removes, though cleanup then walks the merged tree |
| `SyncTheorems.Idempotent` | internal/syncengine/plan.go:50-116 | the second run reports three zeros and changes no file; from then on nothing changes |
| `SyncTheorems.StagedMissingIff` | internal/syncengine/plan.go:373-387 | a staged path is missing after the run if and only if it is a managed directory with an orphan below and nothing below but orphans and directories with an orphan below |
| `SyncTheorems.SecondRunIdleIff` | internal/syncengine/plan.go:50-116 | the second run changes nothing at all if and only if there is no such directory |
| `SyncTheorems.StagedDirectoryCanGo` | internal/syncengine/plan.go:373-387 | an example: a directory staged empty whose only live file lost its source |
| `SyncTheorems.AfterIsTree` | internal/syncengine/plan.go:312-393 | removing orphans and emptied directories leaves a tree |
| `EndToEnd.Sync` | internal/syncengine/plan.go:50-116 | one live run of the code: stopped anywhere it keeps to its frame; completed it mirrors staging and has counted exactly what it changed |
| `EndToEnd.SyncTwice` | internal/syncengine/plan.go:50-116 | the code run twice: the second run succeeds, reports three zeros and changes no file |
| `EndToEnd.PreviewThenSync` | internal/syncengine/plan.go:82-107 | the lists and counts of a dry run are exactly what the live run after it creates, rewrites and removes |
| `EndToEnd.SyncAfterCrash` | internal/syncengine/copy.go:42-63 | after a run stopped anywhere, whatever it left in staging, a new process succeeds if and only if no temporary file stands in the way of a directory, and then mirrors staging as an uninterrupted run would have |
| `EndToEnd.SyncedMirrors` | internal/syncengine/plan.go:92-107 | the live tree that `ExecutePlan` specifies mirrors staging |
| `EndToEnd.TraceFramed` | internal/syncengine/plan.go:322-359 | every stopping point of `ExecutePlan` is within the frame |
| `EndToEnd.SyncedCounts` | internal/syncengine/plan.go:98-106 | its counts are those of the entries that changed |
| `EndToEnd.Recovers` | internal/syncengine/copy.go:42-63 | a stopped run can be made good if and only if nothing blocks it |
| `SafetyTheorems.PlanTrees` | internal/syncengine/plan.go:50-116 | the outcomes of `ExecutePlan` are the trees the theorems speak about |
| `SafetyTheorems.Frame` | internal/syncengine/plan.go:322-359 | wherever a run stops, an unstaged live entry is unchanged if it is outside every root, a link, or behind a protected or excluded prefix |
| `SafetyTheorems.CrashSafe` | internal/syncengine/copy.go:42-63 | wherever a run stops, every live entry is as it was, or as staged, or a new temporary file; what vanished was an orphan or a directory emptied by orphans |
| `SafetyTheorems.Recoverable` | internal/syncengine/copy.go:42-63 | the plan can be merged again if and only if no temporary file stands where staging has a directory |
| `SafetyTheorems.BlockCanHappen` | internal/syncengine/copy.go:42-63 | plans and stopping points at which one does: a source directory named like a temporary file of the file beside it |
| `SafetyTheorems.CrashConvergence` | internal/syncengine/copy.go:42-63 | a stopped run and then a full one leave the same files and links as one uninterrupted run, but for temporary files off the managed unpruned paths |
| `SafetyTheorems.EmptyWasEmpty` | internal/syncengine/plan.go:372-387 | a managed directory empty after cleanup was empty before it |
| `SafetyTheorems.DirectoriesKept` | internal/syncengine/plan.go:372-387 | no directory outside the roots, and none without orphans below it, is removed |
| `SafetyTheorems.ManagedVisited` | internal/syncengine/plan.go:334-359 | the walk visits a managed entry if and only if no directory above it is protected or excluded |
| `PlanMeaning.ReservedLiterals` | internal/syncengine/exclude.go:11-19 | the engine's own patterns, spelled out |
| `PlanMeaning.CutMeans` | internal/syncengine/plan.go:177-188 | a path is cut off if and only if a trimmed, non-blank user pattern matches it or it has a reserved component |
| `PlanMeaning.ClearMeans` | internal/syncengine/plan.go:334-346 | the same for the whole way from the live root |
| `PlanMeaning.ContributedIff` | internal/syncengine/plan.go:157-217 | an entry of a directory's source is contributed if and only if it is no link and nothing from just below the destination down to it is cut off |
| `PlanMeaning.ContributedFrom` | internal/syncengine/plan.go:163-172 | a directory mapping contributes nothing else |
| `PlanMeaning.FileContributedIff` | internal/syncengine/plan.go:121-125 | a file mapping contributes its destination if and only if that is not cut off |
| `PlanMeaning.TransformMeans` | internal/syncengine/plan.go:203-213 | templates first, patches second, each on what the step before it left |
| `PlanMeaning.ContributionIs` | internal/syncengine/plan.go:196-213 | a contributed file holds its source's bytes, templated if the mapping says so, then patched |
| `PlanMeaning.MatchedIsNotContributed` | internal/syncengine/plan.go:177-182 | where a user pattern matches on the way down, the mapping contributes nothing |
| `PlanMeaning.MatchedIsUntouched` | internal/syncengine/plan.go:341-346 | a live entry with a matched prefix that is not staged is as it was, wherever a run stops |
| `PlanMeaning.GitkeepIsNotContributed` | internal/agent/agent.go:75 | with the pattern the agent always appends, no `.gitkeep` file is contributed |
| `PlanMeaning.MirrorInPlainTerms` | internal/syncengine/plan.go:334-370 | where a destination string captures a path and no pattern cuts it off, a regular file is live after a run if and only if one is staged |
| `PlanMeaning.StagedIff` | internal/syncengine/plan.go:67-77 | staging holds what lies at or above some mapping's contribution, and no more |
| `PlanMeaning.CompatibleIff` | internal/syncengine/plan.go:196-201 | a contribution fits on staging so far if and only if it clashes with none before it |
| `PlanMeaning.StageOkIff` | internal/syncengine/plan.go:67-77 | a plan can be staged if and only if every mapping can be on its own and no two clash, in whatever order |
| `PlanMeaning.StageableMeans` | internal/syncengine/plan.go:121-218 | what a mapping needs on its own: its source, a usable destination, templates and patches that go through |
| `PlanTheorems.ReservedNames` | internal/syncengine/exclude.go:11-19 | every path with a `.resources` or `.sync-staging` component is cut off, whatever the user's patterns |
| `PlanTheorems.ItemsUnreserved` | internal/syncengine/plan.go:123-125 | no mapping contributes a path with a reserved component |
| `PlanTheorems.NoReservedStaged` | internal/syncengine/plan.go:177-188 | no path with a reserved component is ever staged, not even as a directory |
| `PlanTheorems.ReservedIsPruned` | internal/syncengine/plan.go:334-346 | no path with a reserved component is on a clear way |
| `EndToEnd.ReservedUntouched` | internal/syncengine/plan.go:334-346 | wherever a run of any plan stops, no path with a reserved component has been written, removed or created |
| `EndToEnd.ProtectedUntouched` | internal/syncengine/exclude.go:15-19 | so protected paths, and a staging directory inside the live one, are never touched |
| `PlanTheorems.NestedStagingUntouched` | internal/agent/profile.go:134 | the staging directory that the agent puts inside the live one holds no orphan and loses no directory |
| `PlanTheorems.CapturesIffClean` | internal/syncengine/plan.go:232-251 | a contained destination captures exactly its own tree if and only if it is written in clean form and is not `.` |
| `PlanTheorems.NotCapturing` | internal/syncengine/plan.go:246 | a destination in any other form captures nothing |
| `PlanTheorems.TrailingSlashKeepsOrphans` | internal/syncengine/plan.go:235-246 | a destination with a trailing slash has no orphans, whatever is live |
| `PlanTheorems.ManagedMeans` | internal/syncengine/plan.go:232-251 | with clean destinations, the managed paths are those at or below a destination |
| `PlanTheorems.StagedWayClear` | internal/syncengine/plan.go:170-188 | staging's and cleanup's pruning agree on a directory mapping's entries if and only if the destination's own way is clear |
| `PlanTheorems.MissingSourceFails` | internal/syncengine/plan.go:157-160 | a directory mapping without a source fails the whole plan |
| `PathSafety.AcceptedIffStaysBelow` | internal/agent/profile.go:92-101 | accepted if and only if relative and never climbing above its start, component by component |
| `PathSafety.AbsoluteIsRejected` | internal/agent/profile.go:93-95 | an absolute path is accepted by neither check |
| `PathSafety.InnerTestRedundant` | internal/agent/profile.go:97 | the test for `/../` never decides |
| `PathSafety.JoinCleansTwice` | internal/agent/profile.go:161 | for every path, joining to an absolute base resolves the path's own cleaned components from the base |
| `PathSafety.AcceptedJoin` | internal/agent/profile.go:154-161 | an accepted path joined to any clean base is that base followed by the path's own components |
| `PathSafety.RejectedEscapes` | internal/agent/profile.go:92-101 | every relative path turned away would leave some base |
| `PathSafety.ControllerImpliesAgent` | internal/controller/gatewaysync_controller.go:400-413 | what the controller accepts, the agent accepts |
| `PathSafety.AgentAcceptsMore` | internal/controller/gatewaysync_controller.go:411-413 | the agent accepts more exactly by the relative paths that step back without climbing above their start |
| `PathSafety.InferMappingType` | internal/agent/profile.go:106-124 | `dir` or `file` by what is on disk, a wrong hint refused, a missing source a directory |
| `PathSafety.UsableMeans` | internal/agent/profile.go:144-174 | a mapping is usable if and only if both paths resolve and pass the check, a required source is there, and a given type is that of what is there |
| `PathSafety.BuildMappings` | internal/agent/profile.go:143-186 | the plan holds every mapping in order, each rooted in the repository and landing inside the live tree, or the first unusable one is named |
| `PathSafety.EnteredPlanOk` | internal/agent/profile.go:176-182 | such mappings, with what is on disk at their sources, make a plan that meets the engine's contract; only an optional one can lack its source |
| `StatusConfigMaps.NoLostUpdate` | internal/agent/configmap.go:87-137 | in every interleaving the object equals the sequential account of all stored writes and deletions |
| `StatusConfigMaps.EachKeyHoldsItsLastWrite` | internal/agent/configmap.go:124-136 | each key holds what its own agent last wrote since the last deletion, and is absent exactly when there is no such write |
| `StatusConfigMaps.LedgerIsLastWrite` | internal/agent/configmap.go:124-136 | the sequential account at a key is its last write |
| `StatusConfigMaps.RunsAreVersioned` | internal/agent/configmap.go:126-131 | an agent about to update either still matches the stored object in full or will be refused |
| `StatusConfigMaps.OthersKeysUntouched` | internal/agent/configmap.go:103-124 | a step of one agent leaves every other agent's key as it was |
| `StatusConfigMaps.SuccessMeansVisible` | internal/agent/configmap.go:120-132 | when a call returns nil, its value was in the map at some moment of the call |
| `StatusConfigMaps.GivingUpMeansContention` | internal/agent/configmap.go:87-139 | a call gives up only if at least three foreign changes were stored during it |
| `StatusConfigMaps.WritesOfCall` | internal/agent/configmap.go:120-137 | what a call has stored so far, by where it stands |
| `StatusConfigMaps.ResultMeans` | internal/agent/configmap.go:87-139 | nil: the value was stored; given up: it was not; any other error: it was if and only if a write of the call was stored with its answer lost |
| `StatusConfigMaps.OutcomeIs` | internal/agent/configmap.go:87-139 | a call ends in an error exactly after a fault of its own; without one it gives up after three clashes and returns nil after fewer |
| `StatusConfigMaps.ErrorMayHaveWritten` | internal/agent/configmap.go:126-131 | a run in which a call returns an error and its value is stored |
| `StatusConfigMaps.Cluster.GetObject` | internal/agent/configmap.go:88-99 | the three answers of a read and where they leave the call |
| `StatusConfigMaps.Cluster.CreateObject` | internal/agent/configmap.go:101-121 | a create is stored only where nothing was |
| `StatusConfigMaps.Cluster.UpdateObject` | internal/agent/configmap.go:126-132 | an update is stored only over the version it was based on |
| `StatusConfigMaps.Cluster.WriteStatusConfigMap` | internal/agent/configmap.go:78-140 | one call takes possible steps only, amid any steps of others, begins and ends once, and its result means what the lemmas above say about visibility, contention, storage and retries; without API trouble it errs only on an object deleted since it was read |
| `AgentSync.RunsKeepTheLock` | internal/agent/agent.go:61-65 | lock and phases agree in every run, and what the lock guards stays put for its holder |
| `AgentSync.SingleOwner` | internal/agent/agent.go:234-237 | at most one actor is inside `syncOnce`, and it holds the lock |
| `AgentSync.RecordChangesOnSuccess` | internal/agent/agent.go:656-658 | the recorded pair changes only when the lock holder's sync returns success, after a scan that succeeded or none because of a dry run or shutdown; to the checked-out commit for the watcher, to the initial one for the post-commission sync |
| `AgentSync.FailedScanFails` | internal/agent/agent.go:641-647 | a failed scan leaves the pair and, for the watcher, counts |
| `AgentSync.FailuresAreNotMasked` | internal/agent/agent.go:301-309 | after a handling that failed at any stage, the same metadata is not skipped before a sync succeeds for exactly that pair |
| `AgentSync.ErrorsAreInARow` | internal/agent/agent.go:373-380 | `consecutiveErrors` counts the failures since the watcher's last success |
| `AgentSync.WorkWaitsForDeadline` | internal/agent/agent.go:283-287 | the watcher loop fetches, syncs and scans only at or after `backoffUntil` |
| `AgentSync.NextAttemptWaits` | internal/agent/agent.go:336-338 | after the n-th failure in a row the next work comes at least the n-th delay later, min(30·2^(n−1), 300) seconds up to the 29th |
| `AgentSync.MatchBreaksIff` | internal/agent/agent.go:641-658 | record (commit and profiles) and live files stay in agreement at every step but the four kinds named above, each of which breaks it, told by what is known before the step |
| `AgentSync.SkippedIsLive` | internal/agent/agent.go:304-309 | without such steps, the commit and profiles of metadata skipped as unchanged are live; its ref too if and only if the engine last read that ref |
| `AgentSync.SuccessRestoresIff` | internal/agent/agent.go:656-658 | from any state, a merged sync of the watcher that succeeds restores the agreement if and only if the metadata the engine read names the fetched commit and the profiles of the trigger |
| `AgentSync.RereadFindsTheSame` | internal/agent/agent.go:667-674 | the engine's own read differs from the trigger's only if the metadata changed in between |
| `AgentSync.FailedScanHidesRollback` | internal/agent/agent.go:637-647 | for every other pair, with another commit or only other profiles, a run in which its scan fails and a rollback is then skipped with its files live |
| `AgentSync.BrokenRunHidesRollback` | internal/agent/agent.go:530-536 | the same for an engine run that breaks off, with mixed files live |
| `AgentSync.RereadHidesProfiles` | internal/agent/agent.go:667-674 | a run without any failure in which metadata is skipped with the files of other profiles live |
| `AgentSync.RefIsNotCompared` | internal/agent/agent.go:305 | metadata with the recorded pair and any ref is skipped with the live files as they are |
| `AgentSync.PostCommissionHidesRollback` | internal/agent/agent.go:233-237 | for every other commit and any profiles, a run in which the post-commission sync makes a rollback be skipped |
| `Agents.HolderGetsOn` | internal/agent/agent.go:301-302 | every own step of the lock holder brings it closer to the unlock |
| `Agents.Agent.Acquire` | internal/agent/agent.go:301 | the lock is taken after whatever others do first and then at most five steps of the actor that holds it; the recorded profiles are read under it |
| `Agents.Agent.SyncOnce` | internal/agent/agent.go:523-659 | success if and only if the engine run completed and the scan succeeded or there was a shutdown or dry run; the pair is set exactly then |
| `Agents.Agent.RunPlan` | internal/agent/agent.go:663-721 | the engine works with the metadata it reads itself |
| `Agents.Agent.FetchOutdated` | internal/agent/agent.go:329-345 | a failed fetch counts, delays and unlocks, and leaves the record |
| `Agents.Agent.SyncFetched` | internal/agent/agent.go:347-380 | a profile or designer obstacle neither counts nor records; otherwise as the sync ends |
| `Agents.Agent.SyncPrepared` | internal/agent/agent.go:373-380 | a failed sync counts, delays and leaves the record; success records the checked-out commit with the profiles of the trigger and clears the backoff |
| `Agents.Agent.HandleLocked` | internal/agent/agent.go:301-381 | unchanged metadata, compared with the record, is the only reason to skip |
| `Agents.Agent.HandleSyncTrigger` | internal/agent/agent.go:279-381 | one trigger amid any steps of the other actor: how it ends follows from deadline, metadata, record and the answers of git, profile, designers, engine and scan; nothing before the deadline; a failure leaves record and metadata different; success records; the backoff follows |
| `Agents.Agent.PostCommissionSync` | internal/agent/agent.go:213-245 | its own steps are one sync for the initial commit under the lock once a poll is answered, or none; it succeeds by the same answers |
| `Agents.Agent.SyncOnceLocked` | internal/agent/agent.go:234-237 | that sync, from lock to unlock |
| `Agents.PostLeavesBackoff` | internal/agent/agent.go:233-242 | none of its steps moves error count or deadline |
| `Agents.BackoffIsTheWatchers` | internal/agent/agent.go:373-380 | the failures in a row are those of the watcher's own steps |
| `Watchers.ResendNeverBlocks` | internal/agent/watcher.go:46-50 | the second send finds room, wherever the reader stands |
| `Watchers.LatestPeriodWins` | internal/agent/watcher.go:36-52 | between calls the current period waits in the channel, or is about to be set, or runs |
| `Watchers.NoLostWakeup` | internal/agent/watcher.go:60-66 | a change seen is not announced yet, or pending, or a handling has begun since |
| `Watchers.NoLostTick` | internal/agent/watcher.go:89-91 | after the fallback timer has fired, an event is pending or a handling has begun since |
| `Watchers.SeenIsHandled` | internal/agent/watcher.go:114-120 | once nothing is pending, a handling began after the change was seen and found at least that version |
| `Watchers.NoticedIffPolledBefore` | internal/agent/watcher.go:114-120 | a new version raises an event if and only if some earlier poll succeeded |
| `Watchers.Watcher.UpdatePeriod` | internal/agent/watcher.go:36-52 | never blocks, and the ticker is bound for the new period |
| `Watchers.Watcher.DrainAndResend` | internal/agent/watcher.go:44-51 | the default branch, with the reader free to run between any two of its steps |
| `Watchers.Watcher.ServeRound` | internal/agent/watcher.go:83-92 | one select: a tick is announced, without one a waiting period is taken up |
| `Watchers.Watcher.RunLoop` | internal/agent/watcher.go:76-93 | the loop's own steps are exactly its rounds; every tick has been heard or is pending; whenever no period is on its way, the ticker runs at the current one |
| `Watchers.Watcher.PollConfigMap` | internal/agent/watcher.go:97-124 | it polls once per round; every change seen in the whole run is pending or a handling has begun since |
| `Backoff.OthersDoNotMatter` | internal/controller/gatewaysync_controller.go:307-310 | events on other keys never matter |
| `Backoff.FailuresMeans` | internal/controller/gatewaysync_controller.go:321-342 | the failures that count are those after the last reset |
| `Backoff.DelaySequence` | internal/controller/gatewaysync_controller.go:301-302 | 30, 60, 120, 240, 300 seconds, and 30 without a failure |
| `Backoff.DelayMonotone` | internal/controller/gatewaysync_controller.go:301-302 | more failures never shorten the delay, which lies between 30 and 300 seconds and is 300 from the fifth on |
| `Backoff.Reconciler.RecordFailure` | internal/controller/gatewaysync_controller.go:321-335 | the map counts failures since the last reset, per key |
| `Backoff.Reconciler.ResetBackoff` | internal/controller/gatewaysync_controller.go:337-342 | the same, for a reset |
| `Backoff.Reconciler.BackoffDelay` | internal/controller/gatewaysync_controller.go:303-319 | after any history the loop returns min(30·2^(f−1), 300), 30 when f = 0 |
| `Backoff.ShiftIsDelay` | internal/agent/agent.go:337 | on unbounded integers the shift is the controller's delay |
| `Backoff.AgentDelayIsDelayIff` | internal/agent/agent.go:374 | on int64 it is so if and only if n ≤ 29, or n < 55 and bit 54 − n of 29296875 is clear |
| `Backoff.AgentDelaySequence` | internal/agent/agent.go:337 | the agent's delays up to the first overflow, in nanoseconds |
| `Backoff.OverflowMeansNoBackoff` | internal/agent/agent.go:374-375 | where it is not, the deadline is not in the future |
| `Backoff.ThirtiethOverflows` | internal/agent/agent.go:337 | the thirtieth failure in a row overflows |
| `Conditions.OneEntryPerKind` | internal/controller/gatewaysync_controller.go:813-827 | after any history of settings on an empty list there is one entry per type, in first-set order |
| `Conditions.EntryTellsHistory` | internal/controller/gatewaysync_controller.go:803-828 | each entry repeats the last setting of its type and dates from the first of the trailing run of equal statuses |
| `Conditions.IsMeansLastSetting` | internal/controller/gatewaysync_controller.go:813-827 | a type is True if and only if its last setting said so |
| `Conditions.GatewaySyncStatus.SetCondition` | internal/controller/gatewaysync_controller.go:803-828 | the in-place update is the history's list with one more setting |
| `Conditions.GatewaySyncStatus.UpdateAllGatewaysSynced` | internal/controller/gateway_discovery.go:190-231 | AllGatewaysSynced is True if and only if there are gateways and all are Synced; SidecarInjected is left alone without gateways |
| `Conditions.GatewaySyncStatus.UpdateReady` | internal/controller/gateway_discovery.go:235-265 | Ready is the conjunction of three, with the message of the first that fails |
| `Conditions.GatewaySyncStatus.UpdateBoth` | internal/controller/gatewaysync_controller.go:270-271 | Ready is True if and only if RefResolved and ProfilesValid are True, gateways exist and all are Synced |
| `Conditions.GatewaySyncStatus.Reconcile` | internal/controller/gatewaysync_controller.go:103-285 | every condition on every way through a reconciliation, early returns and a failed patch included, and exactly when Ready stands beside a RefResolved that is not True |
| `Conditions.GatewaySyncStatus.ReconcileCopy` | internal/controller/gatewaysync_controller.go:143-271 | the same for the copy of the CR before it is patched |
| `RoleBindings.SortDecides` | internal/controller/rbac.go:171-179 | equal after sorting if and only if equal as multisets |
| `RoleBindings.SubjectsEqual` | internal/controller/rbac.go:167-180 | exactly multiset equality of names |
| `RoleBindings.AccountsMeans` | internal/controller/rbac.go:132-143 | an account belongs if and only if some pod naming the CR runs under it, in whatever phase, or none names it and it is `default` |
| `RoleBindings.PhaseDoesNotMatter` | internal/controller/rbac.go:40-43 | pods that wait for their rights count like those that run |
| `RoleBindings.GrantsMeans` | internal/controller/rbac.go:98-110 | what a right binding is: the role's name, and each account as a subject's name once |
| `RoleBindings.CollectServiceAccounts` | internal/controller/rbac.go:126-151 | lists exactly those accounts, sorted, each once |
| `RoleBindings.Namespace.EnsureAgentRoleBinding` | internal/controller/rbac.go:38-120 | what one call makes of any binding, account by account; it succeeds exactly if the API calls it needs do; a failed one changes nothing; a write happens exactly when the binding is wrong |
| `RoleBindings.ForeignSubjectStays` | internal/controller/rbac.go:108-118 | a binding with the right role and name but a user of another namespace, which every call leaves as it is |
| `RoleBindings.Namespace.Converge` | internal/controller/rbac.go:38-120 | two successful calls suffice from any state, one exactly when the role reference was right, at most two ever write; exactly when subjects and role reference end up as written here |

## Left out

- Directory order: a walk visits listed entries in any order after the directory that lists them, which covers the library's.
- File modes, permissions, and links that stand for directories: a link is an entry of its own that nothing lies below.
- Cleanup.Climb: stops below the live root, which always exists; with a destination spelled `.` beside others, the code's climb could also remove a live root that has become empty.
- Staging inside the live directory: the two are separate trees in `ExecutePlan`; `PlanTheorems.NestedStagingUntouched` covers the layout the agent uses.
- Mutation of the source tree during a sync; faults while reading it count as faults of staging.
- Other processes writing to the live tree during a run of the engine.
- The matching of wildcards inside a path component, SHA-256 (equality of contents), Go templates and sjson (arbitrary functions).
- Exclude.MergeExcludes: white space outside ASCII is not trimmed.
- `discoverProjects`, durations, metrics, events, logging, health endpoints.
- Git transport and credentials: a fetch returns any commit or fails.
- The initial sync as a method: it precedes both actors and appears as the states it can leave behind, with its pair or nothing recorded and any live files.
- What else goes into templates, in `AgentSync`: pod labels and the agent's own configuration, which neither metadata nor record name.
- Agents.Agent.PostCommissionSync: the answers to its polls are a finite list, at whose end the context counts as done.
- Watchers.Watcher.RunLoop: its rounds are a finite list, at whose end the context counts as done.
- Watchers.Watcher.PollConfigMap: its polls are a finite list in the same way.
- Two calls of `WriteStatusConfigMap` for the same gateway at once: the agent's mutex rules them out.
- Reads of the status ConfigMap are current, since the agent's client has no cache.
- RoleBindings.Namespace.EnsureAgentRoleBinding: nobody else changes the binding during one call; labels and owner references are not modelled.
- Admission of pods, payload parsing, profile defaults, token exchange, webhook signatures, the requested-ref annotation.
- Generated code, Helm charts, dashboards and the documentation site.
