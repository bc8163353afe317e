/** The watcher's two channels of capacity one: `resetCh` carries a new fallback period to
    the ticker loop, `syncCh` carries the news that there is something to handle. */
module Watchers {
  import Runs

  /** Where `UpdatePeriod` stands. */
  datatype Caller = Outside | Offering | Draining | Resending

  /** Where the ticker loop stands; `Resetting` holds a received period. */
  datatype Reader = NotStarted | Waiting | Resetting(d: nat)

  /** Where the poller stands; `Notifying` has seen a change of version. */
  datatype Poller = Sleeping | Notifying(seen: nat)

  /** Versions are positive; 0 stands for the empty `lastVersion`. */
  datatype World = World(
    period: nat, resetCh: seq<nat>, ticker: nat, caller: Caller, reader: Reader,
    version: nat, lastVersion: nat, poller: Poller, syncCh: bool, handling: bool)

  datatype Step =
    | Change
    | Call(d: nat)
    | Offer
    | Drain
    | Resend
    | StartRun
    | Receive
    | Reset
    | Fire
    | Poll(ok: bool)
    | Notify
    | Begin
    | Finish

  const CAPACITY: nat := 1

  /** Steps that can be taken; a send into a full channel cannot. */
  predicate Enabled(w: World, s: Step) {
    match s
    case Change => true
    case Call(_) => w.caller.Outside?
    case Offer => w.caller.Offering?
    case Drain => w.caller.Draining?
    case Resend => w.caller.Resending? && |w.resetCh| < CAPACITY
    case StartRun => w.reader.NotStarted?
    case Receive => w.reader.Waiting? && w.resetCh != []
    case Reset => w.reader.Resetting?
    case Fire => w.reader.Waiting?
    case Poll(_) => w.poller.Sleeping?
    case Notify => w.poller.Notifying?
    case Begin => w.syncCh && !w.handling
    case Finish => w.handling
  }

  function Apply(w: World, s: Step): World
    requires Enabled(w, s)
  {
    match s
    case Change => w.(version := w.version + 1)
    case Call(d) => if d == w.period then w else w.(period := d, caller := Offering)
    case Offer =>
      if |w.resetCh| < CAPACITY then w.(resetCh := w.resetCh + [w.period], caller := Outside)
      else w.(caller := Draining)
    case Drain => w.(resetCh := if w.resetCh == [] then [] else w.resetCh[1..], caller := Resending)
    case Resend => w.(resetCh := w.resetCh + [w.period], caller := Outside)
    case StartRun => w.(ticker := w.period, reader := Waiting)
    case Receive => w.(reader := Resetting(w.resetCh[0]), resetCh := w.resetCh[1..])
    case Reset => w.(ticker := w.reader.d, reader := Waiting)
    case Fire => w.(syncCh := true)
    case Poll(ok) =>
      if !ok || w.version == w.lastVersion then w
      else if w.lastVersion == 0 then w.(lastVersion := w.version)
      else w.(poller := Notifying(w.version))
    case Notify => w.(syncCh := true, lastVersion := w.poller.seen, poller := Sleeping)
    case Begin => w.(syncCh := false, handling := true)
    case Finish => w.(handling := false)
  }

  predicate Start(w: World) {
    && w.resetCh == [] && w.caller.Outside? && w.reader.NotStarted?
    && w.version > 0 && w.lastVersion == 0 && w.poller.Sleeping? && !w.syncCh && !w.handling
  }

  function Next(w: World, s: Step): World {
    if Enabled(w, s) then Apply(w, s) else w
  }

  const SYSTEM := Runs.System(Enabled, Next)

  predicate Possible(w0: World, steps: seq<Step>) {
    Runs.Possible(SYSTEM, w0, steps)
  }

  function After(w0: World, steps: seq<Step>): World {
    Runs.After(SYSTEM, w0, steps)
  }

  // ---------------------------------------------------------------- the period

  /** The period the ticker ends up with once the reader has caught up. */
  function Coming(w: World): nat
    requires !w.reader.NotStarted?
  {
    if w.resetCh != [] then w.resetCh[0]
    else if w.reader.Resetting? then w.reader.d
    else w.ticker
  }

  predicate PeriodInv(w: World) {
    && |w.resetCh| <= CAPACITY
    && (w.caller.Resending? ==> w.resetCh == [])
    && (w.caller.Outside? && !w.reader.NotStarted? ==> Coming(w) == w.period)
    && (w.caller.Outside? && w.resetCh != [] ==> w.resetCh[0] == w.period)
  }

  lemma StepKeepsPeriod(w: World, s: Step)
    requires PeriodInv(w) && Enabled(w, s)
    ensures PeriodInv(Apply(w, s))
  {
  }

  lemma {:induction false} PeriodAlways(w0: World, steps: seq<Step>)
    requires Start(w0) && Possible(w0, steps)
    ensures PeriodInv(After(w0, steps))
  {
    if steps != [] {
      PeriodAlways(w0, steps[..|steps| - 1]);
      StepKeepsPeriod(After(w0, steps[..|steps| - 1]), steps[|steps| - 1]);
    }
  }

  /** The second send of `UpdatePeriod` never blocks, wherever the reader stands. */
  lemma ResendNeverBlocks(w0: World, steps: seq<Step>)
    requires Start(w0) && Possible(w0, steps) && After(w0, steps).caller.Resending?
    ensures Enabled(After(w0, steps), Resend)
  {
    PeriodAlways(w0, steps);
  }

  /** Between calls the latest period wins: it waits in the channel, or the reader is about
      to set it, or, once the reader has nothing left to do, the ticker runs at it. */
  lemma LatestPeriodWins(w0: World, steps: seq<Step>)
    requires Start(w0) && Possible(w0, steps)
    ensures var w := After(w0, steps);
            w.caller.Outside? && !w.reader.NotStarted? ==>
              if w.resetCh != [] then w.resetCh == [w.period]
              else if w.reader.Resetting? then w.reader.d == w.period
              else w.ticker == w.period
  {
    PeriodAlways(w0, steps);
  }

  // ---------------------------------------------------------------- wakeups

  /** The poller reads a version other than its last one; the first read does not count. */
  predicate SeesChange(w: World, s: Step) {
    s == Poll(true) && w.lastVersion != 0 && w.version != w.lastVersion
  }

  /** What became of a change seen at step `i`: not announced yet, announced and pending, or
      a handling has begun since. */
  predicate Announced(w0: World, steps: seq<Step>, i: nat)
    requires Possible(w0, steps)
  {
    || (After(w0, steps).poller.Notifying? && forall k | i < k < |steps| :: steps[k] != Notify)
    || After(w0, steps).syncCh
    || BegunSince(steps, i)
  }

  predicate BegunSince(steps: seq<Step>, i: nat) {
    exists k | i < k < |steps| :: steps[k] == Begin
  }

  lemma {:induction false} NoLostWakeup(w0: World, steps: seq<Step>, i: nat)
    requires Possible(w0, steps) && i < |steps|
    requires SeesChange(After(w0, steps[..i]), steps[i])
    ensures Announced(w0, steps, i)
  {
    var n := |steps| - 1;
    if i < n {
      var before := steps[..n];
      assert before[..i] == steps[..i];
      NoLostWakeup(w0, before, i);
      if BegunSince(before, i) {
        var k :| i < k < n && before[k] == Begin;
        assert steps[k] == Begin;
      } else if steps[n] == Begin {
        assert BegunSince(steps, i);
      }
    }
  }

  lemma VersionStep(w: World, s: Step)
    requires Enabled(w, s)
    ensures w.version <= Apply(w, s).version
  {
  }

  lemma RunStepAt(w0: World, steps: seq<Step>, i: nat)
    requires Possible(w0, steps) && i < |steps|
    ensures Enabled(After(w0, steps[..i]), steps[i])
    ensures After(w0, steps[..i + 1]) == Apply(After(w0, steps[..i]), steps[i])
  {
    Runs.StepAt(SYSTEM, w0, steps, i);
  }

  lemma {:induction false} VersionsGrow(w0: World, steps: seq<Step>, i: nat, j: nat)
    requires Possible(w0, steps) && i <= j <= |steps|
    ensures After(w0, steps[..i]).version <= After(w0, steps[..j]).version
    decreases j
  {
    if i < j {
      VersionsGrow(w0, steps, i, j - 1);
      hide Apply, Enabled, Possible, After;
      RunStepAt(w0, steps, j - 1);
      VersionStep(After(w0, steps[..j - 1]), steps[j - 1]);
    }
  }

  /** No tick is lost either: after the fallback timer has fired, an event is pending or a
      handling has begun since. */
  lemma {:induction false} NoLostTick(w0: World, steps: seq<Step>, i: nat)
    requires Possible(w0, steps) && i < |steps| && steps[i] == Fire
    ensures After(w0, steps).syncCh || BegunSince(steps, i)
  {
    var n := |steps| - 1;
    if i < n {
      var before := steps[..n];
      NoLostTick(w0, before, i);
      if BegunSince(before, i) {
        var k :| i < k < n && before[k] == Begin;
        assert steps[k] == Begin;
      } else if steps[n] == Begin {
        assert BegunSince(steps, i);
      }
    }
  }

  /** Once the announcement is out and the main loop is idle with nothing pending, a handling
      has begun after the change was seen, and found at least that version. */
  lemma SeenIsHandled(w0: World, steps: seq<Step>, i: nat) returns (k: nat)
    requires Possible(w0, steps) && i < |steps| && SeesChange(After(w0, steps[..i]), steps[i])
    requires !After(w0, steps).syncCh && After(w0, steps).poller.Sleeping?
    ensures i < k < |steps| && steps[k] == Begin
    ensures After(w0, steps[..k]).version >= After(w0, steps[..i]).version
  {
    NoLostWakeup(w0, steps, i);
    k :| i < k < |steps| && steps[k] == Begin;
    VersionsGrow(w0, steps, i, k);
  }

  predicate IsPoll(s: Step) {
    s.Poll? && s.ok
  }

  predicate EverPolled(steps: seq<Step>) {
    exists k | 0 <= k < |steps| :: IsPoll(steps[k])
  }

  predicate VersionsPositive(w: World) {
    w.version > 0 && (w.poller.Notifying? ==> w.lastVersion != 0 && w.poller.seen > 0)
  }

  lemma StepOfVersion(w: World, s: Step)
    requires VersionsPositive(w) && Enabled(w, s)
    ensures VersionsPositive(Apply(w, s))
    ensures Apply(w, s).lastVersion == 0 <==> w.lastVersion == 0 && !IsPoll(s)
  {
  }

  lemma PolledOneMore(steps: seq<Step>, s: Step)
    ensures EverPolled(steps + [s]) <==> EverPolled(steps) || IsPoll(s)
  {
    var more := steps + [s];
    assert more[|steps|] == s && forall k | 0 <= k < |steps| :: more[k] == steps[k];
  }

  /** Until the first successful poll the poller has no version, whatever changed before. */
  lemma {:induction false} UnpolledMeansNoVersion(w0: World, steps: seq<Step>)
    requires Start(w0) && Possible(w0, steps)
    ensures VersionsPositive(After(w0, steps))
    ensures After(w0, steps).lastVersion == 0 <==> !EverPolled(steps)
  {
    if steps != [] {
      var before, s := steps[..|steps| - 1], steps[|steps| - 1];
      UnpolledMeansNoVersion(w0, before);
      StepOfVersion(After(w0, before), s);
      assert steps == before + [s];
      PolledOneMore(before, s);
    }
  }

  /** A poll notices exactly the changes since an earlier successful poll: what changed
      between the agent's own first read and the first poll raises no event. */
  lemma NoticedIffPolledBefore(w0: World, steps: seq<Step>)
    requires Start(w0) && Possible(w0, steps) && Enabled(After(w0, steps), Poll(true))
    requires After(w0, steps).version != After(w0, steps).lastVersion
    ensures SeesChange(After(w0, steps), Poll(true)) <==> EverPolled(steps)
  {
    UnpolledMeansNoVersion(w0, steps);
  }

  // ---------------------------------------------------------------- the code

  datatype Goroutine = MainLoop | TickerLoop | PollLoop | Cluster

  function Owner(s: Step): Goroutine {
    match s
    case Change => Cluster
    case Call(_) => MainLoop
    case Offer => MainLoop
    case Drain => MainLoop
    case Resend => MainLoop
    case StartRun => TickerLoop
    case Receive => TickerLoop
    case Reset => TickerLoop
    case Fire => TickerLoop
    case Poll(_) => PollLoop
    case Notify => PollLoop
    case Begin => MainLoop
    case Finish => MainLoop
  }

  /** What a goroutine finds again after the others have run. */
  predicate Kept(g: Goroutine, w: World, w': World) {
    && (g.MainLoop? ==> w'.caller == w.caller && w'.period == w.period && w'.handling == w.handling
                        && (w'.resetCh == w.resetCh || w'.resetCh == []
                            || (w.resetCh != [] && w'.resetCh == w.resetCh[1..])))
    && (g.TickerLoop? ==> w'.reader == w.reader && w'.ticker == w.ticker)
    && (g.PollLoop? ==> w'.poller == w.poller && w'.lastVersion == w.lastVersion)
  }

  lemma OthersKeep(g: Goroutine, w: World, w': World, s: Step)
    requires PeriodInv(w) && Kept(g, w, w') && Enabled(w', s) && Owner(s) != g
    ensures Kept(g, w, Apply(w', s))
  {
  }

  lemma KeptAtFirst(g: Goroutine, w: World)
    ensures Kept(g, w, w)
  {
  }

  function OwnSteps(g: Goroutine): Step -> bool {
    s => Owner(s) == g
  }

  /** What the ticker loop does in its rounds: a tick is announced; without one, a period that
      waits is taken up. */
  function Rounds(ticks: seq<bool>, waiting: seq<bool>): seq<Step>
    requires |waiting| == |ticks|
  {
    if ticks == [] then []
    else
      var n := |ticks| - 1;
      Rounds(ticks[..n], waiting[..n])
      + if ticks[n] then [Fire] else if waiting[n] then [Receive, Reset] else []
  }

  /** The answers to the polls among some steps. */
  function Polls(steps: seq<Step>): seq<bool> {
    if steps == [] then []
    else
      var s := steps[|steps| - 1];
      Polls(steps[..|steps| - 1]) + if s.Poll? then [s.ok] else []
  }

  lemma PollsOfNone()
    ensures Polls([]) == []
  {
  }

  lemma PollsOfOne(ok: bool)
    ensures Polls([Poll(ok)]) == [ok] && Polls([Poll(ok), Notify]) == [ok]
  {
    assert [Poll(ok), Notify][..1] == [Poll(ok)] && [Poll(ok)][..0] == [];
    assert Polls([Poll(ok)]) == [] + [ok];
    assert Polls([Poll(ok), Notify]) == [ok] + [];
  }

  lemma {:induction false} PollsAppend(xs: seq<Step>, ys: seq<Step>)
    ensures Polls(xs + ys) == Polls(xs) + Polls(ys)
  {
    if ys == [] {
      assert xs + ys == xs;
    } else {
      var n := |ys| - 1;
      PollsAppend(xs, ys[..n]);
      assert (xs + ys)[..|xs| + n] == xs + ys[..n];
    }
  }

  class Watcher {
    var period: nat
    var resetCh: seq<nat>
    var syncCh: bool
    var lastVersion: nat
    var steps: seq<Step>
    const w0: World

    predicate Run()
      reads this
    {
      Start(w0) && Possible(w0, steps)
    }

    function World(): World
      requires Run()
      reads this
    {
      After(w0, steps)
    }

    predicate Valid()
      reads this
    {
      && Run()
      && World().period == period && World().resetCh == resetCh
      && World().syncCh == syncCh && World().lastVersion == lastVersion
    }

    constructor (syncPeriod: nat, w: World)
      requires Start(w) && w.period == syncPeriod
      ensures Valid() && w0 == w && steps == []
    {
      period, resetCh, syncCh, lastVersion := syncPeriod, [], false, 0;
      w0, steps := w, [];
    }

    method Take(s: Step)
      requires Run() && Enabled(World(), s)
      modifies this`steps
      ensures Run() && steps == old(steps) + [s] && World() == Apply(old(World()), s)
    {
      Runs.Extend(SYSTEM, w0, steps, s);
      steps := steps + [s];
    }

    method LetStep(s: Step)
      requires Valid() && Enabled(World(), s)
      modifies this
      ensures Valid() && steps == old(steps) + [s] && World() == Apply(old(World()), s)
    {
      Take(s);
      var w := World();
      period, resetCh, syncCh, lastVersion := w.period, w.resetCh, w.syncCh, w.lastVersion;
    }

    /** Anything the other goroutines and the cluster may do meanwhile. */
    method Interfere(g: Goroutine)
      requires Valid()
      modifies this
      ensures Valid() && old(steps) <= steps && Kept(g, old(World()), World())
      ensures forall i | |old(steps)| <= i < |steps| :: Owner(steps[i]) != g
    {
      hide After, Possible, Start, Apply, Enabled, Kept, PeriodInv;
      var more: seq<Step> := *;
      PeriodAlways(w0, steps);
      KeptAtFirst(g, World());
      for i := 0 to |more|
        invariant Valid() && old(steps) <= steps && Kept(g, old(World()), World())
        invariant forall j | |old(steps)| <= j < |steps| :: Owner(steps[j]) != g
        invariant PeriodInv(old(World()))
      {
        if Owner(more[i]) != g && Enabled(World(), more[i]) {
          OthersKeep(g, old(World()), World(), more[i]);
          LetStep(more[i]);
        }
      }
    }

    /** `UpdatePeriod`: sends without blocking, and if a reset is already pending drains the
        channel first, so that the reader's next reset is to `d`. */
    method UpdatePeriod(d: nat)
      requires Valid() && World().caller.Outside?
      modifies this
      ensures Valid() && World().caller.Outside? && period == d && old(steps) < steps
      ensures !World().reader.NotStarted? ==> Coming(World()) == d
    {
      hide After, Possible, Start, Coming;
      Take(Call(d));
      if d != period {
        period := d;
        Interfere(MainLoop);
        var room := |resetCh| < CAPACITY;
        Take(Offer);
        if room {
          resetCh := resetCh + [d];
        } else {
          DrainAndResend();
        }
      }
      SettledOn(d);
    }

    lemma SettledOn(d: nat)
      requires Valid() && World().caller.Outside? && period == d
      ensures !World().reader.NotStarted? ==> Coming(World()) == d
    {
      PeriodAlways(w0, steps);
    }

    /** The default branch of the first select. */
    method DrainAndResend()
      requires Valid() && World().caller.Draining?
      modifies this
      ensures Valid() && World().caller.Outside? && period == old(period) && old(steps) < steps
    {
      hide After, Possible, Start, Coming;
      Interfere(MainLoop);
      Take(Drain);
      if resetCh != [] {
        resetCh := resetCh[1..];
      }
      Interfere(MainLoop);
      ResendNeverBlocks(w0, steps);
      Take(Resend);
      resetCh := resetCh + [period];
    }

    /** `trigger`: a non-blocking send. */
    method Trigger()
      modifies this`syncCh
      ensures syncCh
    {
      if !syncCh {
        syncCh := true;
      }
    }

    /** One `select` of the ticker loop, which finds the ticker fired or not. */
    method ServeRound(tick: bool) returns (ghost waits: bool)
      requires Valid() && World().reader.Waiting?
      modifies this
      ensures Valid() && World().reader.Waiting? && old(steps) <= steps
      ensures tick ==> syncCh && Runs.Did(old(steps), steps, OwnSteps(TickerLoop)) == [Fire]
      ensures !tick && waits ==> Runs.Did(old(steps), steps, OwnSteps(TickerLoop)) == [Receive, Reset]
      ensures !tick && !waits ==> Runs.Did(old(steps), steps, OwnSteps(TickerLoop)) == [] && resetCh == []
    {
      hide After, Possible, Start;
      ghost var s0 := steps;
      Runs.DidNone(s0, OwnSteps(TickerLoop));
      Interfere(TickerLoop);
      Runs.DidNothing(s0, s0, steps, OwnSteps(TickerLoop));
      waits := resetCh != [];
      if tick {
        Trigger();
        Runs.DidOne(s0, steps, Fire, OwnSteps(TickerLoop));
        Take(Fire);
      } else if resetCh != [] {
        Runs.DidOne(s0, steps, Receive, OwnSteps(TickerLoop));
        Take(Receive);
        resetCh := resetCh[1..];
        ghost var s1 := steps;
        Interfere(TickerLoop);
        Runs.DidNothing(s0, s1, steps, OwnSteps(TickerLoop));
        Runs.DidOne(s0, steps, Reset, OwnSteps(TickerLoop));
        Take(Reset);
      }
    }

    /** The ticker loop of `Run` over the rounds it gets, with or without a tick in each. Every
        tick is announced and has been heard or is pending; every period found waiting is
        taken up; whenever no period is on its way, the ticker runs at the current one. */
    method RunLoop(ticks: seq<bool>) returns (ghost waiting: seq<bool>)
      requires Valid() && World().reader.NotStarted?
      modifies this
      ensures Valid() && World().reader.Waiting? && old(steps) < steps
      ensures |waiting| == |ticks|
      ensures Runs.Did(old(steps), steps, OwnSteps(TickerLoop)) == [StartRun] + Rounds(ticks, waiting)
      ensures forall i: nat | i < |steps| && steps[i] == Fire :: syncCh || BegunSince(steps, i)
      ensures World().caller.Outside? && resetCh == [] ==> World().ticker == period
    {
      hide After, Possible, Start, BegunSince;
      ghost var s0 := steps;
      Runs.DidNone(s0, OwnSteps(TickerLoop));
      Runs.DidOne(s0, steps, StartRun, OwnSteps(TickerLoop));
      Take(StartRun);
      waiting := [];
      for i := 0 to |ticks|
        invariant Valid() && World().reader.Waiting? && s0 < steps && |waiting| == i
        invariant Runs.Did(s0, steps, OwnSteps(TickerLoop)) == [StartRun] + Rounds(ticks[..i], waiting)
      {
        ghost var s1 := steps;
        ghost var waits := ServeRound(ticks[i]);
        Runs.DidBoth(s0, s1, steps, OwnSteps(TickerLoop));
        OneMoreRound(ticks, i, waiting, waits);
        waiting := waiting + [waits];
      }
      assert ticks[..|ticks|] == ticks;
      TicksHeard();
      LatestPeriodWins(w0, steps);
    }

    lemma OneMoreRound(ticks: seq<bool>, i: nat, waiting: seq<bool>, waits: bool)
      requires i < |ticks| && |waiting| == i
      ensures Rounds(ticks[..i + 1], waiting + [waits])
           == Rounds(ticks[..i], waiting) + if ticks[i] then [Fire] else if waits then [Receive, Reset] else []
    {
      assert ticks[..i + 1][..i] == ticks[..i] && (waiting + [waits])[..i] == waiting;
    }

    lemma TicksHeard()
      requires Valid()
      ensures forall i: nat | i < |steps| && steps[i] == Fire :: syncCh || BegunSince(steps, i)
    {
      forall i: nat | i < |steps| && steps[i] == Fire ensures syncCh || BegunSince(steps, i) {
        NoLostTick(w0, steps, i);
      }
    }

    /** `pollConfigMap`, with the answers to its polls until the context is done: announces
        every version that differs from the last one it knew. */
    method PollConfigMap(answers: seq<bool>)
      requires Valid() && World().poller.Sleeping?
      modifies this
      ensures Valid() && World().poller.Sleeping? && old(steps) <= steps
      ensures Polls(Runs.Did(old(steps), steps, OwnSteps(PollLoop))) == answers
      ensures forall i: nat | i < |steps| && SeesChange(After(w0, steps[..i]), steps[i]) ::
                syncCh || BegunSince(steps, i)
    {
      hide After, Possible, Start, SeesChange, BegunSince, PeriodInv, Polls;
      ghost var s0 := steps;
      Runs.DidNone(s0, OwnSteps(PollLoop));
      PollsOfNone();
      for i := 0 to |answers|
        invariant Valid() && World().poller.Sleeping? && s0 <= steps
        invariant Polls(Runs.Did(s0, steps, OwnSteps(PollLoop))) == answers[..i]
      {
        ghost var s1 := steps;
        PollOnce(answers[i]);
        Runs.DidBoth(s0, s1, steps, OwnSteps(PollLoop));
        PollsAppend(Runs.Did(s0, s1, OwnSteps(PollLoop)), Runs.Did(s1, steps, OwnSteps(PollLoop)));
        assert answers[..i + 1] == answers[..i] + [answers[i]];
      }
      assert answers[..|answers|] == answers;
      ChangesHeard();
    }

    /** One round of the poller. */
    method PollOnce(ok: bool)
      requires Valid() && World().poller.Sleeping?
      modifies this
      ensures Valid() && World().poller.Sleeping? && old(steps) <= steps
      ensures Polls(Runs.Did(old(steps), steps, OwnSteps(PollLoop))) == [ok]
    {
      hide After, Possible, Start, PeriodInv, Polls, Kept;
      ghost var s0 := steps;
      Runs.DidNone(s0, OwnSteps(PollLoop));
      PollsOfOne(ok);
      Interfere(PollLoop);
      SleepsStill(old(World()), World());
      Runs.DidNothing(s0, s0, steps, OwnSteps(PollLoop));
      var seen := World().version;
      Runs.DidOne(s0, steps, Poll(ok), OwnSteps(PollLoop));
      Take(Poll(ok));
      assert [] + [Poll(ok)] == [Poll(ok)];
      ghost var s1 := steps;
      if ok && seen != lastVersion {
        if lastVersion != 0 {
          Announce();
          Runs.DidBoth(s0, s1, steps, OwnSteps(PollLoop));
          assert [Poll(ok)] + [Notify] == [Poll(ok), Notify];
        }
        lastVersion := seen;
      }
    }

    lemma SleepsStill(w: World, w': World)
      requires Kept(PollLoop, w, w')
      ensures w'.poller == w.poller
    {
    }

    /** Triggers, and notes the version as seen. */
    method Announce()
      requires Valid() && World().poller.Notifying?
      modifies this
      ensures Run() && World().poller.Sleeping? && old(steps) <= steps && syncCh
      ensures World().lastVersion == old(World()).poller.seen
      ensures World().period == period && World().resetCh == resetCh && World().syncCh == syncCh
      ensures Runs.Did(old(steps), steps, OwnSteps(PollLoop)) == [Notify]
    {
      hide After, Possible, Start, PeriodInv;
      ghost var s0 := steps;
      Runs.DidNone(s0, OwnSteps(PollLoop));
      Interfere(PollLoop);
      Runs.DidNothing(s0, s0, steps, OwnSteps(PollLoop));
      Trigger();
      Runs.DidOne(s0, steps, Notify, OwnSteps(PollLoop));
      Take(Notify);
      assert [] + [Notify] == [Notify];
    }

    lemma ChangesHeard()
      requires Valid() && World().poller.Sleeping?
      ensures forall i: nat | i < |steps| && SeesChange(After(w0, steps[..i]), steps[i]) ::
                syncCh || BegunSince(steps, i)
    {
      forall i: nat | i < |steps| && SeesChange(After(w0, steps[..i]), steps[i])
        ensures syncCh || BegunSince(steps, i)
      {
        NoLostWakeup(w0, steps, i);
      }
    }
  }
}
