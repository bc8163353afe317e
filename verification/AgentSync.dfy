/** The agent's two sync actors: the watcher loop, which handles triggers, and the
    post-commission goroutine. They share one checkout, one staging directory, the
    recorded pair of commit and profiles, and a mutex; their steps interleave freely. */
module AgentSync {
  import Runs
  import opened Backoff

  /** The metadata ConfigMap; profiles are compared as raw text. */
  datatype Meta = Meta(commit: string, ref: string, profiles: string, paused: bool)

  /** `lastSyncedCommit` and `lastSyncedProfiles`. */
  datatype Record = Record(commit: string, profiles: string)

  /** What the live files were last merged from: a commit checked out, and the metadata that
      the engine run read for itself, whose profiles choose the files and whose commit and
      ref appear in templates. `Mixed` after an engine run that broke off. */
  datatype Live = Untouched | FilesOf(commit: string, applied: Meta) | Mixed

  datatype Actor = Watcher | PostCommission

  datatype Lock = Free | Held(holder: Actor)

  /** A run of the engine: broke off, maybe after touching live files, or completed.
      A dry run and a paused profile complete without merging; a dry run skips the scan. */
  datatype Outcome = Broke(touched: bool) | Ran(merged: bool, dry: bool)

  /** How a sync whose engine run completed comes to its end: with the scan's answer, or
      without a scan, because of a dry run or of a shutdown. */
  datatype Ending = ScanAnswered(ok: bool) | DryRun | ShutDown

  datatype Phase =
    | Idle
    | Informed(meta: Meta)
    | Locked(meta: Meta)
    | Outdated(meta: Meta)
    | Fetched(meta: Meta, commit: string)
    | Syncing(meta: Meta, commit: string)
    | Scanning(meta: Meta, commit: string, applied: Meta, merged: bool, dry: bool)
    | Ended

  /** `start` is the commit of the initial clone, times are in nanoseconds, and the zero
      deadline lies before every clock reading. */
  datatype World = World(
    start: string, now: nat, until: int, errors: nat, record: Record, lock: Lock,
    watcher: Phase, post: Phase, meta: Meta, checkedOut: string, live: Live)

  datatype Step =
    | Tick(d: nat)
    | Publish(meta: Meta)
    | Postpone
    | ReadMeta(ok: bool)
    | TakeLock(a: Actor)
    | Compare
    | Fetch(ok: bool, commit: string)
    | Prepare(ok: bool)
    | RunEngine(a: Actor, outcome: Outcome)
    | Conclude(a: Actor, ending: Ending)
    | Cancel

  function PairOf(m: Meta): Record {
    Record(m.commit, m.profiles)
  }

  /** What the post-commission sync is asked for: the commit of the initial clone and the
      profiles recorded by then. The ref plays no part. */
  function Request(w: World): Meta {
    Meta(w.start, "", w.record.profiles, false)
  }

  function PhaseOf(w: World, a: Actor): Phase {
    if a.Watcher? then w.watcher else w.post
  }

  function Moved(w: World, a: Actor, p: Phase): World {
    if a.Watcher? then w.(watcher := p) else w.(post := p)
  }

  /** Only a scan that fails makes a completed engine run a failure. */
  predicate Good(ending: Ending) {
    ending != ScanAnswered(false)
  }

  predicate Enabled(w: World, s: Step) {
    match s
    case Tick(_) => true
    case Publish(_) => true
    case Postpone => w.watcher.Idle? && w.now < w.until
    case ReadMeta(_) => w.watcher.Idle? && w.now >= w.until
    case TakeLock(a) => w.lock.Free? && if a.Watcher? then w.watcher.Informed? else w.post.Idle?
    case Compare => w.watcher.Locked?
    case Fetch(_, _) => w.watcher.Outdated?
    case Prepare(_) => w.watcher.Fetched?
    case RunEngine(a, outcome) => PhaseOf(w, a).Syncing? && (outcome.Ran? && outcome.merged ==> !outcome.dry)
    case Conclude(a, ending) =>
      PhaseOf(w, a).Scanning? && if PhaseOf(w, a).dry then !ending.ScanAnswered? else !ending.DryRun?
    case Cancel => w.post.Idle?
  }

  /** The deferred unlock at the end of a handling. */
  function Released(w: World, a: Actor): World {
    Moved(w, a, if a.Watcher? then Idle else Ended).(lock := Free)
  }

  /** The watcher's handling fails: count it and set the next deadline. */
  function Delayed(w: World): World {
    w.(errors := w.errors + 1, until := w.now + AgentDelay(w.errors + 1))
  }

  /** A sync ends with an error; only the watcher loop backs off. */
  function Failed(w: World, a: Actor): World {
    Released(if a.Watcher? then Delayed(w) else w, a)
  }

  function Succeeded(w: World, a: Actor, r: Record): World {
    Released((if a.Watcher? then w.(errors := 0, until := 0) else w).(record := r), a)
  }

  function Apply(w: World, s: Step): World
    requires Enabled(w, s)
  {
    match s
    case Tick(d) => w.(now := w.now + d)
    case Publish(meta) => w.(meta := meta)
    case Postpone => w
    case ReadMeta(ok) => if ok && !w.meta.paused then w.(watcher := Informed(w.meta)) else w
    case TakeLock(a) =>
      Moved(w, a, if a.Watcher? then Locked(w.watcher.meta)
                  else Syncing(Request(w), w.start)).(lock := Held(a))
    case Compare =>
      if PairOf(w.watcher.meta) == w.record then Released(w, Watcher) else w.(watcher := Outdated(w.watcher.meta))
    case Fetch(ok, commit) =>
      var w' := w.(checkedOut := commit);
      if ok then w'.(watcher := Fetched(w.watcher.meta, commit)) else Failed(w', Watcher)
    case Prepare(ok) =>
      if ok then w.(watcher := Syncing(w.watcher.meta, w.watcher.commit)) else Released(w, Watcher)
    case RunEngine(a, outcome) =>
      var p := PhaseOf(w, a);
      if outcome.Broke? then Failed(w.(live := if outcome.touched then Mixed else w.live), a)
      else Moved(w, a, Scanning(p.meta, p.commit, w.meta, outcome.merged, outcome.dry))
           .(live := if outcome.merged then FilesOf(w.checkedOut, w.meta) else w.live)
    case Conclude(a, ending) =>
      var p := PhaseOf(w, a);
      if Good(ending) then Succeeded(w, a, Record(p.commit, p.meta.profiles)) else Failed(w, a)
    case Cancel => w.(post := Ended)
  }

  /** Both actors wait; the initial sync is over and either recorded its pair or nothing,
      whatever it has made of the live files: a paused or dry-run profile records without
      merging. */
  predicate Start(w: World) {
    && w.lock.Free? && w.watcher.Idle? && w.post.Idle? && w.errors == 0 && w.until == 0
    && w.checkedOut == w.start
    && (w.record == Record("", "") || w.record.commit == w.start)
  }

  function Next(w: World, s: Step): World {
    if Enabled(w, s) then Apply(w, s) else w
  }

  const SYSTEM := Runs.System(Enabled, Next)

  predicate Possible(w0: World, steps: seq<Step>) {
    Runs.Possible(SYSTEM, w0, steps)
  }

  function After(w0: World, steps: seq<Step>): World {
    Runs.After(SYSTEM, w0, steps)
  }

  /** The world before step `i`. */
  function At(w0: World, steps: seq<Step>, i: nat): World
    requires i <= |steps|
  {
    After(w0, steps[..i])
  }

  lemma RunStepAt(w0: World, steps: seq<Step>, i: nat)
    requires Possible(w0, steps) && i < |steps|
    ensures Possible(w0, steps[..i]) && Enabled(At(w0, steps, i), steps[i])
    ensures At(w0, steps, i + 1) == Apply(At(w0, steps, i), steps[i])
  {
    Runs.StepAt(SYSTEM, w0, steps, i);
  }

  // ---------------------------------------------------------------- the lock

  /** Between lock and unlock. */
  predicate Critical(p: Phase) {
    p.Locked? || p.Outdated? || p.Fetched? || p.Syncing? || p.Scanning?
  }

  /** Inside `syncOnce`, which owns the staging directory. */
  predicate InSync(p: Phase) {
    p.Syncing? || p.Scanning?
  }

  /** The handling has seen that its metadata differs from the record. */
  predicate Committed(p: Phase) {
    p.Outdated? || p.Fetched? || p.Syncing? || p.Scanning?
  }

  /** A merge that waits for its scan. */
  predicate MergedBy(p: Phase) {
    p.Scanning? && p.merged
  }

  predicate Locking(w: World) {
    && (Critical(w.watcher) <==> w.lock == Held(Watcher))
    && (Critical(w.post) <==> w.lock == Held(PostCommission))
    && !w.watcher.Ended?
    && (w.post.Idle? || w.post.Ended? || (InSync(w.post) && w.post.commit == w.start))
  }

  /** What holds because only the lock holder touches checkout, record and deadline. */
  predicate Guarded(w: World) {
    && (!w.watcher.Idle? ==> w.now >= w.until)
    && (Committed(w.watcher) ==> PairOf(w.watcher.meta) != w.record)
    && (w.watcher.Fetched? || InSync(w.watcher) ==> w.watcher.commit == w.checkedOut)
    && (MergedBy(w.watcher) ==> w.live == FilesOf(w.checkedOut, w.watcher.applied))
    && (MergedBy(w.post) ==> w.live == FilesOf(w.checkedOut, w.post.applied))
  }

  lemma StepKeepsLocking(w: World, s: Step)
    requires Locking(w) && Enabled(w, s)
    ensures Locking(Apply(w, s))
  {
  }

  lemma StepKeepsGuarded(w: World, s: Step)
    requires Locking(w) && Guarded(w) && Enabled(w, s)
    ensures Guarded(Apply(w, s))
  {
  }

  lemma {:induction false} RunsKeepTheLock(w0: World, steps: seq<Step>)
    requires Start(w0) && Possible(w0, steps)
    ensures Locking(After(w0, steps)) && Guarded(After(w0, steps))
  {
    if steps != [] {
      var before := steps[..|steps| - 1];
      RunsKeepTheLock(w0, before);
      StepKeepsLocking(After(w0, before), steps[|steps| - 1]);
      StepKeepsGuarded(After(w0, before), steps[|steps| - 1]);
    }
  }

  /** In every interleaving at most one actor is inside `syncOnce`, and it holds the lock. */
  lemma SingleOwner(w0: World, steps: seq<Step>)
    requires Start(w0) && Possible(w0, steps)
    ensures var w := After(w0, steps);
            !(InSync(w.watcher) && InSync(w.post))
            && forall a | InSync(PhaseOf(w, a)) :: w.lock == Held(a)
  {
    RunsKeepTheLock(w0, steps);
  }

  /** The step by which actor `s.a` returns success from a sync of `r`. */
  predicate Records(w: World, s: Step, r: Record) {
    s.Conclude? && Good(s.ending) && PhaseOf(w, s.a).Scanning?
    && r == Record(PhaseOf(w, s.a).commit, PhaseOf(w, s.a).meta.profiles)
  }

  /** The recorded pair changes only when the lock holder's sync returns success, and then
      to what that sync was asked for. */
  lemma RecordChangesOnSuccess(w0: World, steps: seq<Step>, s: Step)
    requires Start(w0) && Possible(w0, steps) && Enabled(After(w0, steps), s)
    requires Apply(After(w0, steps), s).record != After(w0, steps).record
    ensures var w := After(w0, steps);
            Records(w, s, Apply(w, s).record) && w.lock == Held(s.a)
            && Apply(w, s).record.commit == (if s.a.Watcher? then w.checkedOut else w.start)
            && (s.ending == ScanAnswered(true) || s.ending == ShutDown
                || (s.ending == DryRun && PhaseOf(w, s.a).dry))
  {
    RunsKeepTheLock(w0, steps);
    StartStays(w0, steps);
  }

  lemma {:induction false} StartStays(w0: World, steps: seq<Step>)
    requires Possible(w0, steps)
    ensures After(w0, steps).start == w0.start
  {
    if steps != [] {
      StartStays(w0, steps[..|steps| - 1]);
    }
  }

  // ---------------------------------------------------------------- failures stay visible

  /** The watcher's handling of `m` ends here without success. */
  predicate FailsOn(w: World, s: Step, m: Meta) {
    && Committed(w.watcher) && w.watcher.meta == m
    && match s
       case Fetch(ok, _) => !ok
       case Prepare(ok) => !ok
       case RunEngine(a, outcome) => a.Watcher? && outcome.Broke?
       case Conclude(a, ending) => a.Watcher? && ending == ScanAnswered(false)
       case _ => false
  }

  /** Metadata `m` is skipped as unchanged. */
  predicate SkipsOn(w: World, s: Step, m: Meta) {
    s.Compare? && w.watcher == Locked(m) && PairOf(m) == w.record
  }

  lemma RecordStep(w: World, s: Step, r: Record)
    requires Enabled(w, s) && w.record != r && Apply(w, s).record == r
    ensures Records(w, s, r)
  {
  }

  /** A pair that is recorded later but not earlier was recorded by a step in between. */
  lemma {:induction false} RecordedBetween(w0: World, steps: seq<Step>, j: nat, k: nat, r: Record) returns (i: nat)
    requires Possible(w0, steps) && j <= k <= |steps|
    requires At(w0, steps, j).record != r && At(w0, steps, k).record == r
    ensures j <= i < k && Records(At(w0, steps, i), steps[i], r)
    decreases k
  {
    hide Apply, Enabled, Records, Possible, After;
    RunStepAt(w0, steps, k - 1);
    if At(w0, steps, k - 1).record == r {
      i := RecordedBetween(w0, steps, j, k - 1, r);
    } else {
      i := k - 1;
      RecordStep(At(w0, steps, i), steps[i], r);
    }
  }

  /** A handling of `m` that fails at any stage leaves the record different from `m`, and `m`
      is not skipped as unchanged before some sync has returned success for exactly that
      pair; unless `m` names the commit of the initial clone, a sync of the watcher loop. */
  lemma FailuresAreNotMasked(w0: World, steps: seq<Step>, j: nat, k: nat, m: Meta) returns (i: nat)
    requires Start(w0) && Possible(w0, steps) && j < k < |steps|
    requires FailsOn(At(w0, steps, j), steps[j], m)
    requires SkipsOn(At(w0, steps, k), steps[k], m)
    ensures j < i < k && Records(At(w0, steps, i), steps[i], PairOf(m))
    ensures m.commit != w0.start ==> steps[i].a.Watcher?
  {
    Runs.StepAt(SYSTEM, w0, steps, j);
    RunsKeepTheLock(w0, steps[..j]);
    Runs.StepAt(SYSTEM, w0, steps, j);
    i := RecordedBetween(w0, steps, j + 1, k, PairOf(m));
    Runs.StepAt(SYSTEM, w0, steps, i);
    RunsKeepTheLock(w0, steps[..i]);
    StartStays(w0, steps[..i]);
  }

  // ---------------------------------------------------------------- backoff

  /** Fetching, preparing, engine runs and scans of the watcher loop. */
  predicate Works(s: Step) {
    match s
    case Fetch(_, _) => true
    case Prepare(_) => true
    case RunEngine(a, _) => a.Watcher?
    case Conclude(a, _) => a.Watcher?
    case _ => false
  }

  /** The failures that count towards backoff: a profile that cannot be resolved and a
      designer session in the way do not. */
  predicate Counts(s: Step) {
    match s
    case Fetch(ok, _) => !ok
    case RunEngine(a, outcome) => a.Watcher? && outcome.Broke?
    case Conclude(a, ending) => a.Watcher? && ending == ScanAnswered(false)
    case _ => false
  }

  /** A success of the watcher loop. */
  predicate Clears(s: Step) {
    s.Conclude? && s.a.Watcher? && s.ending != ScanAnswered(false)
  }

  /** A scan that fails, outside a dry run and a shutdown, leaves the recorded pair as it was
      and, for the watcher loop, counts. */
  lemma FailedScanFails(w: World, a: Actor)
    requires Enabled(w, Conclude(a, ScanAnswered(false)))
    ensures var w' := Apply(w, Conclude(a, ScanAnswered(false)));
            && w'.record == w.record && !PhaseOf(w, a).dry
            && w'.errors == (if a.Watcher? then w.errors + 1 else w.errors)
  {
  }

  /** Failures since the watcher loop's last success, read off the run. */
  function InARow(steps: seq<Step>): nat {
    if steps == [] then 0
    else
      var s, before := steps[|steps| - 1], InARow(steps[..|steps| - 1]);
      if Counts(s) then before + 1 else if Clears(s) then 0 else before
  }

  lemma {:induction false} ErrorsAreInARow(w0: World, steps: seq<Step>)
    requires Start(w0) && Possible(w0, steps)
    ensures After(w0, steps).errors == InARow(steps)
  {
    if steps != [] {
      ErrorsAreInARow(w0, steps[..|steps| - 1]);
    }
  }

  lemma {:induction false} DeadlineStays(w0: World, steps: seq<Step>, j: nat, k: nat)
    requires Possible(w0, steps) && j <= k <= |steps|
    requires forall i | j <= i < k :: !Works(steps[i])
    ensures At(w0, steps, k).until == At(w0, steps, j).until
    decreases k
  {
    if j < k {
      DeadlineStays(w0, steps, j, k - 1);
      Runs.StepAt(SYSTEM, w0, steps, k - 1);
    }
  }

  /** The watcher loop works only at or after its deadline. */
  lemma WorkWaitsForDeadline(w0: World, steps: seq<Step>, s: Step)
    requires Start(w0) && Possible(w0, steps) && Enabled(After(w0, steps), s) && Works(s)
    ensures After(w0, steps).now >= After(w0, steps).until
  {
    RunsKeepTheLock(w0, steps);
  }

  lemma CountedDelay(w: World, s: Step)
    requires Enabled(w, s) && Counts(s)
    ensures Apply(w, s).until == w.now + AgentDelay(w.errors + 1)
  {
  }

  /** After the n-th failure in a row, the watcher loop's next work of any kind comes at
      least the n-th delay later; up to the 29th that is min(30 * 2^(n-1), 300) seconds. */
  lemma NextAttemptWaits(w0: World, steps: seq<Step>, j: nat, k: nat)
    requires Start(w0) && Possible(w0, steps) && j < k < |steps|
    requires Counts(steps[j]) && Works(steps[k]) && forall i | j < i < k :: !Works(steps[i])
    ensures var n := InARow(steps[..j + 1]);
            n >= 1 && At(w0, steps, k).now >= At(w0, steps, j).now + AgentDelay(n)
            && (n <= 29 ==> At(w0, steps, k).now >= At(w0, steps, j).now + Delay(n) * NANOS)
  {
    hide Apply, Enabled, Works, Possible, After, Start, AgentDelay, Delay;
    var n := InARow(steps[..j + 1]);
    assert steps[..j + 1][..j] == steps[..j] && steps[..j + 1][j] == steps[j];
    RunStepAt(w0, steps, j);
    ErrorsAreInARow(w0, steps[..j]);
    CountedDelay(At(w0, steps, j), steps[j]);
    DeadlineStays(w0, steps, j + 1, k);
    RunStepAt(w0, steps, k);
    WorkWaitsForDeadline(w0, steps[..k], steps[k]);
    AgentDelayIsDelayIff(n);
  }

  // ------------------------------------------------- what a skip says about the live files

  /** The live files are those of the commit, under the profiles, and say so. */
  predicate Agrees(live: Live, r: Record) {
    live.FilesOf? && live.commit == r.commit && PairOf(live.applied) == r
  }

  /** The live files agree with the record, or a merge waits for its scan. */
  predicate Matches(w: World) {
    Agrees(w.live, w.record) || (w.lock.Held? && MergedBy(PhaseOf(w, w.lock.holder)))
  }

  /** The steps after which record and live files part, told by what is known before them:
      an engine run that breaks off after touching files; after a merge, a failed scan unless
      checkout and applied metadata are the recorded pair, and a success unless they are the
      pair it records; without a merge, a success that records another pair. */
  predicate PartsFrom(w: World, s: Step) {
    match s
    case RunEngine(_, outcome) => outcome.Broke? && outcome.touched
    case Conclude(a, ending) =>
      var p := PhaseOf(w, a);
      p.Scanning? &&
      (var r := if Good(ending) then Record(p.commit, p.meta.profiles) else w.record;
       if p.merged then w.checkedOut != r.commit || PairOf(p.applied) != r else r != w.record)
    case _ => false
  }

  /** From a matching world, every step keeps the match unless it is one of those, and each
      of those breaks it. */
  lemma MatchBreaksIff(w0: World, steps: seq<Step>, s: Step)
    requires Start(w0) && Possible(w0, steps) && Enabled(After(w0, steps), s)
    requires Matches(After(w0, steps))
    ensures Matches(Apply(After(w0, steps), s)) <==> !PartsFrom(After(w0, steps), s)
  {
    RunsKeepTheLock(w0, steps);
    MatchStep(After(w0, steps), s);
  }

  lemma MatchStep(w: World, s: Step)
    requires Locking(w) && Guarded(w) && Enabled(w, s) && Matches(w)
    ensures Matches(Apply(w, s)) <==> !PartsFrom(w, s)
  {
    if s.RunEngine? {
      assert w.lock == Held(s.a);
    } else if s.Conclude? {
      assert w.lock == Held(s.a);
    } else if s.Compare? || s.Fetch? || s.Prepare? {
      assert w.lock == Held(Watcher);
    }
  }

  /** In a run without such steps, from a start that matches, metadata skipped as unchanged is
      live; all of it, ref included, exactly when the engine last read that ref. */
  lemma SkippedIsLive(w0: World, steps: seq<Step>, k: nat, m: Meta)
    requires Start(w0) && Matches(w0) && Possible(w0, steps) && k < |steps|
    requires forall i | 0 <= i < k :: !PartsFrom(At(w0, steps, i), steps[i])
    requires SkipsOn(At(w0, steps, k), steps[k], m)
    ensures var live := At(w0, steps, k).live;
            && live.FilesOf? && live.commit == m.commit
            && live.applied.commit == m.commit && live.applied.profiles == m.profiles
            && (live.applied == m.(paused := live.applied.paused) <==> live.applied.ref == m.ref)
  {
    MatchesUpTo(w0, steps, k);
    Runs.StepAt(SYSTEM, w0, steps, k);
    RunsKeepTheLock(w0, steps[..k]);
  }

  lemma {:induction false} MatchesUpTo(w0: World, steps: seq<Step>, k: nat)
    requires Start(w0) && Matches(w0) && Possible(w0, steps) && k <= |steps|
    requires forall i | 0 <= i < k :: !PartsFrom(At(w0, steps, i), steps[i])
    ensures Matches(At(w0, steps, k))
    decreases k
  {
    if k > 0 {
      hide Apply, Enabled, Possible, After, Start, Matches, PartsFrom;
      MatchesUpTo(w0, steps, k - 1);
      RunStepAt(w0, steps, k - 1);
      MatchBreaksIff(w0, steps[..k - 1], steps[k - 1]);
    }
  }

  /** From any world, a merged sync of the watcher loop that succeeds restores the match
      exactly when the metadata it read for itself names the commit it fetched and the
      profiles it was triggered with. */
  lemma SuccessRestoresIff(w0: World, steps: seq<Step>, ending: Ending)
    requires Start(w0) && Possible(w0, steps) && MergedBy(After(w0, steps).watcher)
    requires Enabled(After(w0, steps), Conclude(Watcher, ending)) && ending != ScanAnswered(false)
    ensures var w := After(w0, steps);
            var w' := Apply(w, Conclude(Watcher, ending));
            w'.errors == 0
            && (Matches(w') <==> PairOf(w.watcher.applied) == Record(w.watcher.commit, w.watcher.meta.profiles))
  {
    RunsKeepTheLock(w0, steps);
  }

  /** What the watcher's handling has read; a merge keeps what the engine read as well. */
  predicate ReadBy(p: Phase, m: Meta) {
    match p
    case Idle => true
    case Ended => true
    case Scanning(meta, _, applied, _, _) => meta == m && applied == m
    case _ => p.meta == m
  }

  /** The two reads differ only if the metadata changed in between. */
  lemma {:induction false} RereadFindsTheSame(w0: World, steps: seq<Step>, i: nat)
    requires Possible(w0, steps) && i < |steps| && steps[i].ReadMeta? && !At(w0, steps, i).meta.paused
    requires forall j | i < j < |steps| :: !steps[j].Publish? && !steps[j].ReadMeta?
    ensures After(w0, steps).meta == At(w0, steps, i).meta
    ensures ReadBy(After(w0, steps).watcher, After(w0, steps).meta)
  {
    var n := |steps| - 1;
    RunStepAt(w0, steps, n);
    assert steps[..n + 1] == steps;
    if i < n {
      assert steps[..n][..i] == steps[..i];
      RereadFindsTheSame(w0, steps[..n], i);
    }
  }

  // ------------------------------------------------- runs in which a skip is misleading

  /** The watcher loop's steps from reading the metadata to the call of the engine. */
  function HandlingOf(commit: string): seq<Step> {
    [ReadMeta(true), TakeLock(Watcher), Compare, Fetch(true, commit), Prepare(true)]
  }

  const MERGES := Ran(true, false)

  predicate Waiting(w: World) {
    w.lock.Free? && w.watcher.Idle? && !w.meta.paused && w.now >= w.until
  }

  lemma Append(w0: World, a: seq<Step>, s: Step, b: seq<Step>)
    requires Possible(w0, a) && Enabled(After(w0, a), s)
    requires b == a + [s]
    ensures Possible(w0, b) && After(w0, b) == Apply(After(w0, a), s)
  {
    Runs.Extend(SYSTEM, w0, a, s);
  }

  /** Metadata that is not the recorded pair is fetched and prepared. */
  lemma HandlingHappens(w0: World, steps: seq<Step>, run: seq<Step>)
    requires Possible(w0, steps) && Waiting(After(w0, steps))
    requires PairOf(After(w0, steps).meta) != After(w0, steps).record
    requires run == steps + HandlingOf(After(w0, steps).meta.commit)
    ensures var w := After(w0, steps);
            Possible(w0, run)
            && After(w0, run) == w.(lock := Held(Watcher), watcher := Syncing(w.meta, w.meta.commit),
                                    checkedOut := w.meta.commit)
  {
    var m := After(w0, steps).meta;
    var s1 := steps + [ReadMeta(true)];
    var s2 := s1 + [TakeLock(Watcher)];
    var s3 := s2 + [Compare];
    var s4 := s3 + [Fetch(true, m.commit)];
    Append(w0, steps, ReadMeta(true), s1);
    Append(w0, s1, TakeLock(Watcher), s2);
    Append(w0, s2, Compare, s3);
    Append(w0, s3, Fetch(true, m.commit), s4);
    Append(w0, s4, Prepare(true), run);
  }

  /** Publish `m` to an agent that has just started, and let it be merged. */
  lemma MergeHappens(w0: World, m: Meta) returns (run: seq<Step>)
    requires Start(w0) && !m.paused && PairOf(m) != w0.record
    ensures Possible(w0, run)
    ensures After(w0, run) == w0.(lock := Held(Watcher), watcher := Scanning(m, m.commit, m, true, false),
                                  meta := m, checkedOut := m.commit, live := FilesOf(m.commit, m))
  {
    var s1 := [] + [Publish(m)];
    var s2 := s1 + HandlingOf(m.commit);
    run := s2 + [RunEngine(Watcher, MERGES)];
    Append(w0, [], Publish(m), s1);
    HandlingHappens(w0, s1, s2);
    Append(w0, s2, RunEngine(Watcher, MERGES), run);
  }

  /** Publishing `m` to a waiting agent whose record is that pair ends in a skip. */
  lemma SkipHappens(w0: World, steps: seq<Step>, m: Meta) returns (k: nat, run: seq<Step>)
    requires Possible(w0, steps) && After(w0, steps).lock.Free? && After(w0, steps).watcher.Idle?
    requires !m.paused && PairOf(m) == After(w0, steps).record
    ensures Possible(w0, run) && steps <= run && k < |run|
    ensures SkipsOn(At(w0, run, k), run[k], m) && At(w0, run, k).live == After(w0, steps).live
  {
    var w := After(w0, steps);
    var late := if w.until > w.now then w.until - w.now else 0;
    var s1 := steps + [Tick(late)];
    var s2 := s1 + [Publish(m)];
    var s3 := s2 + [ReadMeta(true)];
    var s4 := s3 + [TakeLock(Watcher)];
    run := s4 + [Compare];
    Append(w0, steps, Tick(late), s1);
    Append(w0, s1, Publish(m), s2);
    Append(w0, s2, ReadMeta(true), s3);
    Append(w0, s3, TakeLock(Watcher), s4);
    Append(w0, s4, Compare, run);
    k := |s4|;
    assert run[..k] == s4;
  }

  /** A failed scan leaves the new files live under the old record: publish `m`, with another
      commit or only other profiles, let its scan fail, publish the recorded pair again, and it
      is skipped with the files of `m` live. */
  lemma FailedScanHidesRollback(w0: World, m: Meta, back: Meta) returns (k: nat, run: seq<Step>)
    requires Start(w0) && !m.paused && PairOf(m) != w0.record && !back.paused && PairOf(back) == w0.record
    ensures Possible(w0, run) && k < |run|
    ensures SkipsOn(At(w0, run, k), run[k], back) && At(w0, run, k).live == FilesOf(m.commit, m)
  {
    var s1 := MergeHappens(w0, m);
    var s2 := s1 + [Conclude(Watcher, ScanAnswered(false))];
    Append(w0, s1, Conclude(Watcher, ScanAnswered(false)), s2);
    k, run := SkipHappens(w0, s2, back);
  }

  /** The engine reads the metadata again. Publish `m`, and `late` just before the engine runs;
      nothing fails, yet the pair of `m` is recorded over files made with the profiles of
      `late`, and publishing `m` again is skipped. */
  lemma RereadHidesProfiles(w0: World, m: Meta, late: Meta) returns (k: nat, run: seq<Step>)
    requires Start(w0) && !m.paused && PairOf(m) != w0.record
    ensures Possible(w0, run) && k < |run|
    ensures SkipsOn(At(w0, run, k), run[k], m) && At(w0, run, k).live == FilesOf(m.commit, late)
  {
    var s1 := [] + [Publish(m)];
    var s2 := s1 + HandlingOf(m.commit);
    var s3 := s2 + [Publish(late)];
    var s4 := s3 + [RunEngine(Watcher, MERGES)];
    var s5 := s4 + [Conclude(Watcher, ScanAnswered(true))];
    Append(w0, [], Publish(m), s1);
    HandlingHappens(w0, s1, s2);
    Append(w0, s2, Publish(late), s3);
    Append(w0, s3, RunEngine(Watcher, MERGES), s4);
    Append(w0, s4, Conclude(Watcher, ScanAnswered(true)), s5);
    k, run := SkipHappens(w0, s5, m);
  }

  /** The post-commission sync records the commit of the initial clone even when another one
      is checked out and live: publishing the initial commit again is then skipped. */
  lemma PostCommissionHidesRollback(w0: World, m: Meta) returns (k: nat, run: seq<Step>)
    requires Start(w0) && !m.paused && m.commit != w0.start && PairOf(m) != w0.record
    ensures Possible(w0, run) && k < |run|
    ensures SkipsOn(At(w0, run, k), run[k], Meta(w0.start, m.ref, m.profiles, false))
    ensures At(w0, run, k).live == FilesOf(m.commit, m)
  {
    var s2 := MergeHappens(w0, m);
    var s3 := s2 + [Conclude(Watcher, ScanAnswered(true))];
    var s4 := s3 + [TakeLock(PostCommission)];
    var s5 := s4 + [RunEngine(PostCommission, MERGES)];
    var s6 := s5 + [Conclude(PostCommission, ScanAnswered(true))];
    Append(w0, s2, Conclude(Watcher, ScanAnswered(true)), s3);
    Append(w0, s3, TakeLock(PostCommission), s4);
    Append(w0, s4, RunEngine(PostCommission, MERGES), s5);
    Append(w0, s5, Conclude(PostCommission, ScanAnswered(true)), s6);
    k, run := SkipHappens(w0, s6, Meta(w0.start, m.ref, m.profiles, false));
  }

  /** An engine run that breaks off half way leaves mixed files under the old record. */
  lemma BrokenRunHidesRollback(w0: World, m: Meta, back: Meta) returns (k: nat, run: seq<Step>)
    requires Start(w0) && !m.paused && PairOf(m) != w0.record && !back.paused && PairOf(back) == w0.record
    ensures Possible(w0, run) && k < |run|
    ensures SkipsOn(At(w0, run, k), run[k], back) && At(w0, run, k).live == Mixed
  {
    var s1 := [] + [Publish(m)];
    var s2 := s1 + HandlingOf(m.commit);
    var s3 := s2 + [RunEngine(Watcher, Broke(true))];
    Append(w0, [], Publish(m), s1);
    HandlingHappens(w0, s1, s2);
    Append(w0, s2, RunEngine(Watcher, Broke(true)), s3);
    k, run := SkipHappens(w0, s3, back);
  }

  /** A ref alone is not compared: templates that name it keep the old one. */
  lemma RefIsNotCompared(w0: World, m: Meta) returns (k: nat, run: seq<Step>)
    requires Start(w0) && !m.paused && PairOf(m) == w0.record
    ensures Possible(w0, run) && k < |run|
    ensures SkipsOn(At(w0, run, k), run[k], m) && At(w0, run, k).live == w0.live
  {
    k, run := SkipHappens(w0, [], m);
  }
}
