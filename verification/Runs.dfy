/** Runs of a step system: sequences of steps, each enabled when it is taken. */
module Runs {

  /** Which steps a state allows, and where each of them leads. */
  datatype System<!W, !S> = System(enabled: (W, S) -> bool, apply: (W, S) -> W)

  predicate Possible<W, S>(sys: System<W, S>, w0: W, steps: seq<S>) {
    steps == []
    || (Possible(sys, w0, steps[..|steps| - 1]) && sys.enabled(After(sys, w0, steps[..|steps| - 1]), steps[|steps| - 1]))
  }

  function After<W, S>(sys: System<W, S>, w0: W, steps: seq<S>): W {
    if steps == [] then w0 else sys.apply(After(sys, w0, steps[..|steps| - 1]), steps[|steps| - 1])
  }

  lemma Extend<W, S>(sys: System<W, S>, w0: W, steps: seq<S>, s: S)
    requires Possible(sys, w0, steps) && sys.enabled(After(sys, w0, steps), s)
    ensures Possible(sys, w0, steps + [s]) && After(sys, w0, steps + [s]) == sys.apply(After(sys, w0, steps), s)
  {
    assert (steps + [s])[..|steps|] == steps;
  }

  /** A run begins with runs, and each of its steps is enabled where it is taken. */
  lemma {:induction false} StepAt<W, S>(sys: System<W, S>, w0: W, steps: seq<S>, i: nat)
    requires Possible(sys, w0, steps) && i <= |steps|
    ensures Possible(sys, w0, steps[..i])
    ensures i < |steps| ==> sys.enabled(After(sys, w0, steps[..i]), steps[i])
    ensures i < |steps| ==> After(sys, w0, steps[..i + 1]) == sys.apply(After(sys, w0, steps[..i]), steps[i])
  {
    if i < |steps| {
      var before := steps[..|steps| - 1];
      assert before[..i] == steps[..i];
      if i < |before| {
        StepAt(sys, w0, before, i);
        assert before[..i + 1] == steps[..i + 1];
      }
      assert i == |before| ==> steps[..i + 1] == steps;
    } else {
      assert steps[..i] == steps;
    }
  }

  // ------------------------------------------------------- one party's share of a run

  /** The steps that satisfy a test, in order. */
  function Mine<S>(steps: seq<S>, mine: S -> bool): seq<S> {
    if steps == [] then []
    else Mine(steps[..|steps| - 1], mine) + if mine(steps[|steps| - 1]) then [steps[|steps| - 1]] else []
  }

  lemma OneMoreMine<S>(steps: seq<S>, s: S, mine: S -> bool)
    ensures Mine(steps + [s], mine) == if mine(s) then Mine(steps, mine) + [s] else Mine(steps, mine)
  {
    assert (steps + [s])[..|steps|] == steps;
  }

  lemma {:induction false} MineAppends<S>(xs: seq<S>, ys: seq<S>, mine: S -> bool)
    ensures Mine(xs + ys, mine) == Mine(xs, mine) + Mine(ys, mine)
  {
    if ys == [] {
      assert xs + ys == xs;
    } else {
      var n := |ys| - 1;
      MineAppends(xs, ys[..n], mine);
      OneMoreMine(xs + ys[..n], ys[n], mine);
      assert xs + ys == xs + ys[..n] + [ys[n]];
    }
  }

  lemma {:induction false} NoneMine<S>(steps: seq<S>, mine: S -> bool)
    requires forall i | 0 <= i < |steps| :: !mine(steps[i])
    ensures Mine(steps, mine) == []
  {
    if steps != [] {
      NoneMine(steps[..|steps| - 1], mine);
    }
  }

  /** What a party has done between two moments of a run. */
  function Did<S>(before: seq<S>, now: seq<S>, mine: S -> bool): seq<S>
    requires |before| <= |now|
  {
    Mine(now[|before|..], mine)
  }

  lemma DidNone<S>(s: seq<S>, mine: S -> bool)
    ensures Did(s, s, mine) == []
  {
  }

  lemma DidBoth<S>(before: seq<S>, mid: seq<S>, now: seq<S>, mine: S -> bool)
    requires |before| <= |mid| <= |now| && mid == now[..|mid|]
    ensures Did(before, now, mine) == Did(before, mid, mine) + Did(mid, now, mine)
  {
    MineAppends(mid[|before|..], now[|mid|..], mine);
    assert now[|before|..] == mid[|before|..] + now[|mid|..];
  }

  lemma DidNothing<S>(before: seq<S>, mid: seq<S>, now: seq<S>, mine: S -> bool)
    requires |before| <= |mid| <= |now| && mid == now[..|mid|]
    requires forall i | |mid| <= i < |now| :: !mine(now[i])
    ensures Did(before, now, mine) == Did(before, mid, mine)
  {
    DidBoth(before, mid, now, mine);
    NoneMine(now[|mid|..], mine);
  }

  lemma DidOne<S>(before: seq<S>, mid: seq<S>, s: S, mine: S -> bool)
    requires |before| <= |mid| && mine(s)
    ensures Did(before, mid + [s], mine) == Did(before, mid, mine) + [s]
  {
    OneMoreMine(mid[|before|..], s, mine);
    assert (mid + [s])[|before|..] == mid[|before|..] + [s];
  }
}
