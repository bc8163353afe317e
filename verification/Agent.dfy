/** The agent's code over the step system of `AgentSync`: every method takes only possible
    steps, whatever the other actor and the cluster do in between. */
module Agents {
  import Runs
  import opened Backoff
  import opened AgentSync

  /** How one trigger is handled. */
  datatype Handling = BackedOff | NoMetadata | CrPaused | Unchanged | FetchFailed | NotPrepared | SyncFailed | Synced

  /** What the engine's caller meets: it cannot start it (unreadable metadata, no profile, no pod,
      no plan), the profile is paused, or the plan is executed. */
  datatype EngineAnswer = Unable | ProfilePaused(dryRun: bool) | Executed(dryRun: bool, ok: bool, touched: bool)

  predicate Completed(e: EngineAnswer) {
    e.ProfilePaused? || (e.Executed? && e.ok)
  }

  /** The engine run completed, and the scan succeeded unless there was none. */
  predicate SyncSucceeds(answers: Answers) {
    Completed(answers.engine) && (answers.shuttingDown || answers.engine.dryRun || answers.scanned)
  }

  /** What the outside world answers during one handling, in the order in which it is asked. */
  datatype Answers = Answers(
    readable: bool, fetched: bool, commit: string,
    profileFound: bool, profilePaused: bool, profileDry: bool, designersBlock: bool,
    engine: EngineAnswer, shuttingDown: bool, scanned: bool)

  predicate By(s: Step, a: Actor) {
    match s
    case Tick(_) => false
    case Publish(_) => false
    case TakeLock(b) => a == b
    case RunEngine(b, _) => a == b
    case Conclude(b, _) => a == b
    case Cancel => a.PostCommission?
    case _ => a.Watcher?
  }

  /** What actor `a` can count on while others run: its own place, the backoff fields if it
      is the watcher, and everything the mutex guards while it holds it. */
  predicate Kept(a: Actor, w: World, w': World) {
    && PhaseOf(w', a) == PhaseOf(w, a) && w'.start == w.start && w.now <= w'.now
    && (a.Watcher? ==> w'.errors == w.errors && w'.until == w.until)
    && (w.lock == Held(a) ==>
          w'.lock == w.lock && w'.record == w.record && w'.checkedOut == w.checkedOut && w'.live == w.live)
  }

  /** A world but for what the lock holder's own sync changes before it ends. */
  function Aside(w: World, from: World): World {
    w.(live := from.live, watcher := from.watcher, post := from.post)
  }

  lemma KeptThrough(a: Actor, w: World, mid: World, w': World)
    requires Kept(a, w, Aside(mid, w)) && Kept(a, mid, w') && mid.lock == Held(a) && w.lock == Held(a)
    ensures Kept(a, w, Aside(w', w)) && PhaseOf(w', a) == PhaseOf(mid, a) && w'.lock == Held(a)
    ensures w'.record == w.record
  {
  }

  lemma OthersKeep(a: Actor, w: World, s: Step)
    requires Locking(w) && Enabled(w, s) && !By(s, a)
    ensures Kept(a, w, Apply(w, s))
  {
  }

  /** Own steps the lock holder has left before it unlocks, at most. */
  function Left(p: Phase): nat {
    match p
    case Locked(_) => 5
    case Outdated(_) => 4
    case Fetched(_, _) => 3
    case Syncing(_, _) => 2
    case Scanning(_, _, _, _, _) => 1
    case _ => 0
  }

  function Other(a: Actor): Actor {
    if a.Watcher? then PostCommission else Watcher
  }

  lemma HolderGetsOn(w: World, a: Actor, s: Step)
    requires Locking(w) && Enabled(w, s) && w.lock == Held(a) && By(s, a)
    ensures Left(PhaseOf(Apply(w, s), a)) < Left(PhaseOf(w, a))
    ensures Apply(w, s).lock == if Critical(PhaseOf(Apply(w, s), a)) then Held(a) else Free
  {
  }

  function OwnSteps(a: Actor): Step -> bool {
    s => By(s, a)
  }

  lemma OneMoreInARow(steps: seq<Step>, s: Step)
    ensures InARow(steps + [s]) ==
            if Counts(s) then InARow(steps) + 1 else if Clears(s) then 0 else InARow(steps)
  {
    assert (steps + [s])[..|steps|] == steps;
  }

  /** The backoff is the watcher's own affair: whatever the post-commission sync does, the
      failures in a row are those of the watcher's own steps. */
  lemma {:induction false} BackoffIsTheWatchers(steps: seq<Step>)
    ensures InARow(steps) == InARow(Runs.Mine(steps, OwnSteps(Watcher)))
  {
    if steps == [] {
    } else {
      hide InARow, Counts, Clears, By;
      var before, s := steps[..|steps| - 1], steps[|steps| - 1];
      assert steps == before + [s];
      BackoffIsTheWatchers(before);
      OneMoreInARow(before, s);
      OneMoreInARow(Runs.Mine(before, OwnSteps(Watcher)), s);
      Runs.OneMoreMine(before, s, OwnSteps(Watcher));
      WatcherCounts(s);
    }
  }

  lemma WatcherCounts(s: Step)
    ensures Counts(s) || Clears(s) ==> By(s, Watcher)
  {
  }

  /** No step of the post-commission sync moves count or deadline. */
  lemma PostLeavesBackoff(w: World, s: Step)
    requires Enabled(w, s) && By(s, PostCommission)
    ensures Apply(w, s).errors == w.errors && Apply(w, s).until == w.until
  {
  }

  /** All that a post-commission sync does, by its result. */
  predicate OneSync(did: seq<Step>, synced: bool) {
    (did == [Cancel] && !synced)
    || (&& 2 <= |did| <= 3 && did[0] == TakeLock(PostCommission)
        && did[1].RunEngine? && did[1].a == PostCommission
        && if did[1].outcome.Broke? then |did| == 2 && !synced
           else |did| == 3 && did[2].Conclude? && did[2].a == PostCommission
                && (synced <==> did[2].ending != ScanAnswered(false)))
  }

  /** How a handling of changed metadata ends. */
  function Worked(answers: Answers): Handling {
    if !answers.fetched then FetchFailed
    else if !answers.profileFound
         || (answers.designersBlock && !answers.profilePaused && !answers.profileDry) then NotPrepared
    else if SyncSucceeds(answers) then Synced
    else SyncFailed
  }

  class Agent {
    var lastSyncedCommit: string
    var lastSyncedProfiles: string
    var consecutiveErrors: nat
    var backoffUntil: int
    var steps: seq<Step>
    const w0: World

    predicate Run()
      reads this
    {
      Start(w0) && Possible(w0, steps)
    }

    function World(): World
      requires Run()
      reads this
    {
      After(w0, steps)
    }

    /** The fields are what the run has made of them. */
    predicate Valid()
      reads this
    {
      && Run()
      && World().record == Record(lastSyncedCommit, lastSyncedProfiles)
      && World().errors == consecutiveErrors && World().until == backoffUntil
    }

    constructor (w: World)
      requires Start(w)
      ensures Valid() && w0 == w && steps == []
    {
      w0, steps := w, [];
      lastSyncedCommit, lastSyncedProfiles := w.record.commit, w.record.profiles;
      consecutiveErrors, backoffUntil := w.errors, w.until;
    }

    method Take(s: Step)
      requires Run() && Enabled(World(), s)
      modifies this`steps
      ensures Run() && steps == old(steps) + [s] && World() == Apply(old(World()), s)
      ensures Locking(old(World())) && Guarded(old(World())) && Locking(World())
    {
      RunsKeepTheLock(w0, steps);
      Runs.Extend(SYSTEM, w0, steps, s);
      steps := steps + [s];
      StepKeepsLocking(old(World()), s);
    }

    /** Takes a step of someone else and lets the fields follow. */
    method LetStep(a: Actor, s: Step)
      requires Valid() && Enabled(World(), s) && !By(s, a)
      modifies this
      ensures Valid() && steps == old(steps) + [s]
      ensures Kept(a, old(World()), World()) && World() == Apply(old(World()), s)
    {
      Take(s);
      OthersKeep(a, old(World()), s);
      var w := World();
      lastSyncedCommit, lastSyncedProfiles := w.record.commit, w.record.profiles;
      consecutiveErrors, backoffUntil := w.errors, w.until;
    }

    /** Anything the other actor, the clock and the controller may do meanwhile. */
    method Interfere(a: Actor)
      requires Valid()
      modifies this
      ensures Valid() && old(steps) <= steps && Kept(a, old(World()), World())
      ensures forall i | |old(steps)| <= i < |steps| :: !By(steps[i], a)
    {
      var more: seq<Step> := *;
      for i := 0 to |more|
        invariant Valid() && old(steps) <= steps && Kept(a, old(World()), World())
        invariant forall j | |old(steps)| <= j < |steps| :: !By(steps[j], a)
      {
        if !By(more[i], a) && Enabled(World(), more[i]) {
          LetStep(a, more[i]);
        }
      }
    }

    /** A step that the lock holder `b` can take next. */
    method NextOf(b: Actor) returns (s: Step)
      requires Run() && World().lock == Held(b)
      ensures Enabled(World(), s) && By(s, b)
    {
      RunsKeepTheLock(w0, steps);
      var ok: bool, commit: string := *, *;
      match PhaseOf(World(), b) {
        case Locked(_) => s := Compare;
        case Outdated(_) => s := Fetch(ok, commit);
        case Fetched(_, _) => s := Prepare(ok);
        case Syncing(_, _) => s := RunEngine(b, if ok then Ran(true, false) else Broke(false));
        case Scanning(_, _, _, _, dry) => s := Conclude(b, if dry then DryRun else ScanAnswered(ok));
      }
    }

    /** `syncMu.Lock()`: others go on for a while, up to the moment `from`; whoever holds the
        lock then frees it within five steps of its own. */
    method Acquire(a: Actor) returns (ghost from: nat)
      requires Valid()
      requires if a.Watcher? then World().watcher.Informed? else World().post.Idle?
      modifies this
      ensures Valid() && old(steps) < steps && steps[|steps| - 1] == TakeLock(a)
      ensures forall i | |old(steps)| <= i < |steps| - 1 :: !By(steps[i], a)
      ensures |old(steps)| <= from < |steps| <= from + 6
      ensures forall i | from <= i < |steps| - 1 :: By(steps[i], Other(a))
      ensures World().lock == Held(a)
      ensures World().now >= old(World()).now && World().start == old(World()).start
      ensures a.Watcher? ==> (World().watcher == Locked(old(World()).watcher.meta)
                              && consecutiveErrors == old(consecutiveErrors) && backoffUntil == old(backoffUntil))
      ensures a.PostCommission? ==> World().post == Syncing(Request(World()), World().start)
    {
      hide After, Possible, Start, Guarded;
      Interfere(a);
      RunsKeepTheLock(w0, steps);
      from := |steps|;
      while World().lock.Held?
        invariant Valid() && old(steps) <= steps && Kept(a, old(World()), World()) && World().lock != Held(a)
        invariant forall i | |old(steps)| <= i < |steps| :: !By(steps[i], a)
        invariant |old(steps)| <= from <= |steps|
        invariant |steps| - from + (if World().lock.Held? then Left(PhaseOf(World(), Other(a))) else 0) <= 5
        invariant forall i | from <= i < |steps| :: By(steps[i], Other(a))
        decreases if World().lock.Held? then Left(PhaseOf(World(), Other(a))) else 0, if World().lock.Held? then 1 else 0
      {
        var s := NextOf(Other(a));
        RunsKeepTheLock(w0, steps);
        HolderGetsOn(World(), Other(a), s);
        LetStep(a, s);
      }
      Take(TakeLock(a));
    }

    /** `syncOnce` under the lock: a success exactly if the engine run completed and the scan
        succeeded, unless a shutdown or a dry run makes do without one. The step that ends it,
        `last`, is taken by the caller, together with the unlock. */
    method SyncOnce(a: Actor, commit: string, profiles: string, answers: Answers) returns (ok: bool, last: Step)
      requires Valid() && World().lock == Held(a)
      requires PhaseOf(World(), a).Syncing?
      requires PhaseOf(World(), a).commit == commit && PhaseOf(World(), a).meta.profiles == profiles
      modifies this
      ensures Run() && old(steps) <= steps && Enabled(World(), last)
      ensures ok <==>
                (answers.engine.ProfilePaused? || (answers.engine.Executed? && answers.engine.ok))
                && (answers.shuttingDown || answers.engine.dryRun || answers.scanned)
      ensures last == (if !Completed(answers.engine)
                       then RunEngine(a, Broke(answers.engine.Executed? && answers.engine.touched))
                       else Conclude(a, if answers.shuttingDown then ShutDown
                                        else if answers.engine.dryRun then DryRun
                                        else ScanAnswered(answers.scanned)))
      ensures ok ==> lastSyncedCommit == commit && lastSyncedProfiles == profiles
      ensures !ok ==> World().record == Record(lastSyncedCommit, lastSyncedProfiles)
      ensures World().errors == consecutiveErrors && World().until == backoffUntil
      ensures Kept(a, old(World()), Aside(World(), old(World())))
      ensures PhaseOf(World(), a).Syncing? || PhaseOf(World(), a).Scanning?
      ensures PhaseOf(World(), a).commit == commit && PhaseOf(World(), a).meta.profiles == profiles
      ensures forall i | |old(steps)| <= i < |steps| :: !(steps[i].Conclude? && steps[i].a == a)
      ensures last.RunEngine? ==> Runs.Did(old(steps), steps, OwnSteps(a)) == []
      ensures last.Conclude? ==> exists o: Outcome :: o.Ran? && Runs.Did(old(steps), steps, OwnSteps(a)) == [RunEngine(a, o)]
    {
      hide After, Possible, Start, Guarded, Locking, Kept;
      ghost var s0, world := steps, World();
      var outcome := RunPlan(a, answers.engine);
      if outcome.Broke? {
        return false, RunEngine(a, outcome);
      }
      ghost var s1, merged := steps, World();
      Interfere(a);
      Runs.DidNothing(s0, s1, steps, OwnSteps(a));
      KeptThrough(a, world, merged, World());
      if answers.shuttingDown {
        lastSyncedCommit, lastSyncedProfiles := commit, profiles;
        return true, Conclude(a, ShutDown);
      }
      var ending := DryRun;
      if !answers.engine.dryRun {
        ending := ScanAnswered(answers.scanned);
      }
      if ending == ScanAnswered(false) {
        return false, Conclude(a, ending);
      }
      lastSyncedCommit, lastSyncedProfiles := commit, profiles;
      return true, Conclude(a, ending);
    }

    /** `syncWithProfile`: reads the metadata for itself and runs the engine. A run that breaks
        off ends the sync, which the caller records. */
    method RunPlan(a: Actor, engine: EngineAnswer) returns (outcome: Outcome)
      requires Valid() && World().lock == Held(a) && PhaseOf(World(), a).Syncing?
      modifies this
      ensures Valid() && old(steps) <= steps && World().lock == Held(a)
      ensures outcome == (if !Completed(engine) then Broke(engine.Executed? && engine.touched)
                          else Ran(engine.Executed? && !engine.dryRun, engine.dryRun))
      ensures Kept(a, old(World()), Aside(World(), old(World())))
      ensures outcome.Broke? ==> PhaseOf(World(), a) == old(PhaseOf(World(), a))
      ensures outcome.Broke? ==> Runs.Did(old(steps), steps, OwnSteps(a)) == []
      ensures outcome.Ran? ==> (var p := old(PhaseOf(World(), a));
                                PhaseOf(World(), a) == Scanning(p.meta, p.commit, World().meta, outcome.merged, outcome.dry))
      ensures outcome.Ran? ==> Runs.Did(old(steps), steps, OwnSteps(a)) == [RunEngine(a, outcome)]
      ensures forall i | |old(steps)| <= i < |steps| :: !(steps[i].Conclude? && steps[i].a == a)
    {
      hide After, Possible, Start, Guarded, Locking;
      ghost var s0 := steps;
      Interfere(a);
      Runs.DidNone(s0, OwnSteps(a));
      Runs.DidNothing(s0, s0, steps, OwnSteps(a));
      match engine {
        case Unable =>
          return Broke(false);
        case ProfilePaused(dryRun) =>
          outcome := Ran(false, dryRun);
        case Executed(dryRun, ok, touched) =>
          if !ok {
            return Broke(touched);
          }
          outcome := Ran(!dryRun, dryRun);
      }
      Runs.DidOne(s0, steps, RunEngine(a, outcome), OwnSteps(a));
      Take(RunEngine(a, outcome));
    }

    /** Counts a failure and sets the deadline after which the next trigger is handled. */
    method BackOff()
      requires Run()
      modifies this`consecutiveErrors, this`backoffUntil
      ensures consecutiveErrors == old(consecutiveErrors) + 1
      ensures backoffUntil == World().now + AgentDelay(consecutiveErrors)
    {
      consecutiveErrors := consecutiveErrors + 1;
      var delay := Min(Int64(BASE * NANOS * Pow2(consecutiveErrors - 1)), CAP * NANOS);
      backoffUntil := World().now + delay;
    }

    /** `handleSyncTrigger`. Before the deadline nothing is done; only a success moves the
        record and clears the backoff; a failed fetch or sync adds to it; nothing else does. */
    method HandleSyncTrigger(answers: Answers) returns (h: Handling)
      requires Valid() && World().watcher.Idle?
      modifies this
      ensures Valid() && World().watcher.Idle? && old(steps) <= steps && steps != []
      ensures h.BackedOff? <==> old(World().now < backoffUntil)
      ensures h.NoMetadata? <==> !old(World().now < backoffUntil) && !answers.readable
      ensures h.CrPaused? <==> !old(World().now < backoffUntil) && answers.readable && old(World()).meta.paused
      ensures h.FetchFailed? ==> !answers.fetched
      ensures h.NotPrepared? ==>
                answers.fetched && (!answers.profileFound
                                    || (answers.designersBlock && !answers.profilePaused && !answers.profileDry))
      ensures h.SyncFailed? || h.Synced? ==>
                answers.fetched && answers.profileFound
                && (answers.profilePaused || answers.profileDry || !answers.designersBlock)
                && (h.Synced? <==> SyncSucceeds(answers))
      ensures h.BackedOff? ==> steps == old(steps) + [Postpone]
      ensures h.CrPaused? || h.NoMetadata? ==> |steps| == |old(steps)| + 1
      ensures h.BackedOff? || h.CrPaused? || h.NoMetadata? ==> World().record == old(World()).record
      ensures h.Synced? ==>
                lastSyncedCommit == World().checkedOut && lastSyncedProfiles == old(World()).meta.profiles
      ensures h.Unchanged? ==> World().record == PairOf(old(World()).meta)
      ensures h.FetchFailed? || h.NotPrepared? || h.SyncFailed? ==> World().record != PairOf(old(World()).meta)
      ensures h.Synced? ==> consecutiveErrors == 0 && backoffUntil == 0 && Clears(steps[|steps| - 1])
      ensures h.FetchFailed? || h.SyncFailed? ==>
                consecutiveErrors == old(consecutiveErrors) + 1
                && backoffUntil == World().now + AgentDelay(consecutiveErrors)
                && Counts(steps[|steps| - 1])
      ensures !h.Synced? && !h.FetchFailed? && !h.SyncFailed? ==>
                consecutiveErrors == old(consecutiveErrors) && backoffUntil == old(backoffUntil)
      ensures forall i | |old(steps)| <= i < |steps| - (if h.Synced? then 1 else 0) :: !Clears(steps[i])
    {
      hide After, Possible, Start, AgentDelay, Guarded, Locking, Kept;
      if World().now < backoffUntil {
        Take(Postpone);
        return BackedOff;
      }
      var meta := World().meta;
      Take(ReadMeta(answers.readable));
      if !answers.readable {
        return NoMetadata;
      }
      if meta.paused {
        return CrPaused;
      }
      ghost var from := Acquire(Watcher);
      h := HandleLocked(meta, answers);
    }

    /** The part of `handleSyncTrigger` that runs under the mutex. */
    method HandleLocked(meta: Meta, answers: Answers) returns (h: Handling)
      requires Valid() && World().lock == Held(Watcher) && World().watcher == Locked(meta)
      modifies this
      ensures Valid() && World().watcher.Idle? && old(steps) < steps
      ensures h.Unchanged? <==> old(lastSyncedCommit) == meta.commit && old(lastSyncedProfiles) == meta.profiles
      ensures h.Unchanged? || h == Worked(answers)
      ensures h.Synced? ==> consecutiveErrors == 0 && backoffUntil == 0 && Clears(steps[|steps| - 1])
      ensures h.Synced? ==> lastSyncedCommit == World().checkedOut && lastSyncedProfiles == meta.profiles
      ensures !h.Synced? ==> lastSyncedCommit == old(lastSyncedCommit) && lastSyncedProfiles == old(lastSyncedProfiles)
      ensures h.FetchFailed? || h.SyncFailed? ==>
                consecutiveErrors == old(consecutiveErrors) + 1
                && backoffUntil == World().now + AgentDelay(consecutiveErrors)
                && Counts(steps[|steps| - 1])
      ensures h.Unchanged? || h.NotPrepared? ==>
                consecutiveErrors == old(consecutiveErrors) && backoffUntil == old(backoffUntil)
      ensures forall i | |old(steps)| <= i < |steps| - (if h.Synced? then 1 else 0) :: !Clears(steps[i])
    {
      hide After, Possible, Start, AgentDelay, Guarded, Locking;
      Take(Compare);
      if meta.commit == lastSyncedCommit && meta.profiles == lastSyncedProfiles {
        return Unchanged;
      }
      FetchOutdated(meta, answers);
      if !answers.fetched {
        return FetchFailed;
      }
      h := SyncFetched(meta, answers);
    }

    /** The fetch of `handleSyncTrigger`. */
    method FetchOutdated(meta: Meta, answers: Answers)
      requires Valid() && World().lock == Held(Watcher) && World().watcher == Outdated(meta)
      modifies this
      ensures Valid() && old(steps) < steps && steps[|steps| - 1] == Fetch(answers.fetched, answers.commit)
      ensures lastSyncedCommit == old(lastSyncedCommit) && lastSyncedProfiles == old(lastSyncedProfiles)
      ensures answers.fetched ==> World().lock == Held(Watcher) && World().watcher == Fetched(meta, answers.commit)
      ensures answers.fetched ==> consecutiveErrors == old(consecutiveErrors) && backoffUntil == old(backoffUntil)
      ensures !answers.fetched ==> World().watcher.Idle?
      ensures !answers.fetched ==> consecutiveErrors == old(consecutiveErrors) + 1
                                   && backoffUntil == World().now + AgentDelay(consecutiveErrors)
      ensures forall i | |old(steps)| <= i < |steps| :: !Clears(steps[i])
    {
      hide After, Possible, Start, AgentDelay, Guarded, Locking;
      Interfere(Watcher);
      if !answers.fetched {
        BackOff();
      }
      Take(Fetch(answers.fetched, answers.commit));
    }

    /** The part of `handleSyncTrigger` after the fetch. */
    method SyncFetched(meta: Meta, answers: Answers) returns (h: Handling)
      requires Valid() && World().lock == Held(Watcher) && World().watcher == Fetched(meta, answers.commit)
      requires answers.fetched
      modifies this
      ensures Valid() && World().watcher.Idle? && old(steps) < steps
      ensures h == Worked(answers)
      ensures h.Synced? ==> consecutiveErrors == 0 && backoffUntil == 0 && Clears(steps[|steps| - 1])
      ensures h.Synced? ==> lastSyncedCommit == answers.commit == World().checkedOut && lastSyncedProfiles == meta.profiles
      ensures !h.Synced? ==> lastSyncedCommit == old(lastSyncedCommit) && lastSyncedProfiles == old(lastSyncedProfiles)
      ensures h.SyncFailed? ==>
                consecutiveErrors == old(consecutiveErrors) + 1
                && backoffUntil == World().now + AgentDelay(consecutiveErrors)
                && Counts(steps[|steps| - 1])
      ensures h.NotPrepared? ==> consecutiveErrors == old(consecutiveErrors) && backoffUntil == old(backoffUntil)
      ensures forall i | |old(steps)| <= i < |steps| - (if h.Synced? then 1 else 0) :: !Clears(steps[i])
    {
      hide After, Possible, Start, AgentDelay, Guarded, Locking;
      Interfere(Watcher);
      var prepared := answers.profileFound;
      if prepared && !answers.profilePaused && !answers.profileDry && answers.designersBlock {
        prepared := false;
      }
      Take(Prepare(prepared));
      if !prepared {
        return NotPrepared;
      }
      h := SyncPrepared(meta, answers);
    }

    /** The sync of `handleSyncTrigger`, with the unlock. */
    method SyncPrepared(meta: Meta, answers: Answers) returns (h: Handling)
      requires Valid() && World().lock == Held(Watcher) && World().watcher == Syncing(meta, answers.commit)
      requires World().checkedOut == answers.commit
      modifies this
      ensures Valid() && World().watcher.Idle? && old(steps) < steps
      ensures h == if SyncSucceeds(answers) then Synced else SyncFailed
      ensures h.Synced? ==> consecutiveErrors == 0 && backoffUntil == 0 && Clears(steps[|steps| - 1])
      ensures h.Synced? ==> lastSyncedCommit == answers.commit == World().checkedOut && lastSyncedProfiles == meta.profiles
      ensures !h.Synced? ==> lastSyncedCommit == old(lastSyncedCommit) && lastSyncedProfiles == old(lastSyncedProfiles)
      ensures h.SyncFailed? ==>
                consecutiveErrors == old(consecutiveErrors) + 1
                && backoffUntil == World().now + AgentDelay(consecutiveErrors)
                && Counts(steps[|steps| - 1])
      ensures forall i | |old(steps)| <= i < |steps| - (if h.Synced? then 1 else 0) :: !Clears(steps[i])
    {
      hide After, Possible, Start, AgentDelay, Guarded, Locking;
      var ok, last := SyncOnce(Watcher, answers.commit, meta.profiles, answers);
      if ok {
        consecutiveErrors, backoffUntil := 0, 0;
        h := Synced;
      } else {
        BackOff();
        h := SyncFailed;
      }
      Take(last);
    }

    /** `postCommissionSync`, with the answers to its polls until the context is done: once the
        gateway answers, one sync under the lock, for the commit of the initial clone and the
        profiles recorded by then. By `PostLeavesBackoff` none of its steps moves the backoff. */
    method PostCommissionSync(polls: seq<bool>, answers: Answers) returns (synced: bool)
      requires Valid() && World().post.Idle?
      modifies this
      ensures Valid() && World().post.Ended? && old(steps) < steps
      ensures synced ==> lastSyncedCommit == w0.start
      ensures OneSync(Runs.Did(old(steps), steps, OwnSteps(PostCommission)), synced)
      ensures synced <==> true in polls && SyncSucceeds(answers)
      ensures Runs.Did(old(steps), steps, OwnSteps(PostCommission)) == [Cancel] <==> true !in polls
    {
      hide After, Possible, Start, AgentDelay, Guarded, Locking;
      ghost var s0 := steps;
      for i := 0 to |polls|
        invariant true !in polls[..i]
        invariant Valid() && World().post.Idle? && old(steps) <= steps
        invariant forall j | |old(steps)| <= j < |steps| :: !By(steps[j], PostCommission)
      {
        Interfere(PostCommission);
        if polls[i] {
          synced := SyncOnceLocked(s0, answers);
          return;
        }
      }
      assert polls[..|polls|] == polls;
      Runs.DidNothing(s0, s0, steps, OwnSteps(PostCommission));
      Runs.DidNone(s0, OwnSteps(PostCommission));
      Runs.DidOne(s0, steps, Cancel, OwnSteps(PostCommission));
      Take(Cancel);
      return false;
    }

    /** The end of `postCommissionSync`, from the lock on. */
    method SyncOnceLocked(ghost s0: seq<Step>, answers: Answers) returns (synced: bool)
      requires Valid() && World().post.Idle? && s0 <= steps
      requires forall i | |s0| <= i < |steps| :: !By(steps[i], PostCommission)
      modifies this
      ensures Valid() && World().post.Ended? && s0 < steps
      ensures synced ==> lastSyncedCommit == w0.start
      ensures OneSync(Runs.Did(s0, steps, OwnSteps(PostCommission)), synced)
      ensures Runs.Did(s0, steps, OwnSteps(PostCommission)) != [Cancel]
      ensures synced <==> SyncSucceeds(answers)
    {
      hide After, Possible, Start, AgentDelay, Guarded, Locking;
      ghost var a: Actor := PostCommission;
      ghost var from := Acquire(PostCommission);
      ghost var s1, s2 := steps[..|steps| - 1], steps;
      Runs.DidNothing(s0, s0, s1, OwnSteps(a));
      Runs.DidNone(s0, OwnSteps(a));
      assert s2 == s1 + [TakeLock(a)];
      Runs.DidOne(s0, s1, TakeLock(a), OwnSteps(a));
      StartStays(w0, steps);
      var last;
      synced, last := SyncOnce(PostCommission, w0.start, lastSyncedProfiles, answers);
      ghost var s3 := steps;
      Runs.DidBoth(s0, s2, s3, OwnSteps(a));
      Runs.DidOne(s0, s3, last, OwnSteps(a));
      Take(last);
    }
  }
}
