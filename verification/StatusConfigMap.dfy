/** The status ConfigMap: one object, written by many agents with a read, a change of
    the agent's own key, and a write that the API server refuses when the object has
    changed in between. Steps of all agents interleave freely. */
module StatusConfigMaps {
  import Runs

  datatype Stored = Absent | Present(data: map<string, string>, version: nat)

  /** What the server makes of a write: stored and confirmed, stored with the answer
      lost on the way back, refused because of a clash, or failed without effect. */
  datatype Answer = Accepted | AcceptedUnheard | Refused | Failed

  /** How a call ends: nil, "failed to write status after 3 retries", any other error. */
  datatype Outcome = Written | GaveUp | Error

  datatype Step =
    | Call(g: string, value: string)
    | Get(g: string, ok: bool)
    | Create(g: string, value: string, answer: Answer)
    | Update(g: string, value: string, answer: Answer)
    | Return(g: string, outcome: Outcome)
    | Delete

  /** Where an agent stands in its call; `tries` counts the rounds left, this one included. */
  datatype Phase =
    | Idle
    | Reading(value: string, tries: nat)
    | Creating(value: string, tries: nat)
    | Updating(value: string, tries: nat, seen: Stored)
    | Done(value: string, outcome: Outcome)

  datatype World = World(stored: Stored, revision: nat, phases: map<string, Phase>)

  const ROUNDS: nat := 3

  predicate By(s: Step, g: string) {
    !s.Delete? && s.g == g
  }

  predicate Stores(a: Answer) {
    a.Accepted? || a.AcceptedUnheard?
  }

  /** A write the server stored. */
  predicate IsWrite(s: Step) {
    (s.Create? || s.Update?) && Stores(s.answer)
  }

  function PhaseOf(w: World, g: string): Phase {
    if g in w.phases then w.phases[g] else Idle
  }

  /** The keys and values a reader finds. */
  function Holds(w: World): map<string, string> {
    if w.stored.Present? then w.stored.data else map[]
  }

  predicate Enabled(w: World, s: Step) {
    match s
    case Call(g, _) => PhaseOf(w, g).Idle?
    case Get(g, _) => PhaseOf(w, g).Reading?
    case Create(g, value, answer) =>
      && PhaseOf(w, g).Creating? && PhaseOf(w, g).value == value
      && (Stores(answer) ==> w.stored.Absent?)
      && (answer.Refused? ==> w.stored.Present?)
    case Update(g, value, answer) =>
      && PhaseOf(w, g).Updating? && PhaseOf(w, g).value == value && PhaseOf(w, g).seen.Present?
      && (Stores(answer) ==> w.stored.Present? && w.stored.version == PhaseOf(w, g).seen.version)
      && (answer.Refused? ==> w.stored.Present? && w.stored.version != PhaseOf(w, g).seen.version)
    case Return(g, outcome) => PhaseOf(w, g).Done? && PhaseOf(w, g).outcome == outcome
    case Delete => w.stored.Present?
  }

  function Moved(w: World, g: string, p: Phase): World {
    w.(phases := w.phases[g := p])
  }

  /** The object after a write by `g` is stored, under a version never used before. */
  function Put(w: World, data: map<string, string>): World {
    w.(stored := Present(data, w.revision + 1), revision := w.revision + 1)
  }

  /** The agent's next phase once its write has been answered. */
  function Answered(value: string, tries: nat, a: Answer): Phase {
    match a
    case Accepted => Done(value, Written)
    case Refused => if tries <= 1 then Done(value, GaveUp) else Reading(value, tries - 1)
    case _ => Done(value, Error)
  }

  function Apply(w: World, s: Step): World
    requires Enabled(w, s)
  {
    match s
    case Call(g, value) => Moved(w, g, Reading(value, ROUNDS))
    case Get(g, ok) =>
      var p := PhaseOf(w, g);
      Moved(w, g, if !ok then Done(p.value, Error)
                  else if w.stored.Absent? then Creating(p.value, p.tries)
                  else Updating(p.value, p.tries, w.stored))
    case Create(g, value, answer) =>
      var w' := if Stores(answer) then Put(w, map[g := value]) else w;
      Moved(w', g, Answered(value, PhaseOf(w, g).tries, answer))
    case Update(g, value, answer) =>
      var p := PhaseOf(w, g);
      var w' := if Stores(answer) then Put(w, p.seen.data[g := value]) else w;
      Moved(w', g, Answered(value, p.tries, answer))
    case Return(g, _) => Moved(w, g, Idle)
    case Delete => w.(stored := Absent, revision := w.revision + 1)
  }

  function Start(): World {
    World(Absent, 0, map[])
  }

  function Next(w: World, s: Step): World {
    if Enabled(w, s) then Apply(w, s) else w
  }

  const SYSTEM := Runs.System(Enabled, Next)

  /** The runs, from an absent object. */
  predicate Possible(steps: seq<Step>) {
    Runs.Possible(SYSTEM, Start(), steps)
  }

  function After(steps: seq<Step>): World {
    Runs.After(SYSTEM, Start(), steps)
  }

  // ---------------------------------------------------------------- no lost update

  /** The sequential account of a run: every stored write sets one key, a deletion
      clears all, nothing else counts. */
  function Ledger(steps: seq<Step>): map<string, string> {
    if steps == [] then map[]
    else
      var before, s := Ledger(steps[..|steps| - 1]), steps[|steps| - 1];
      if s.Delete? then map[] else if IsWrite(s) then before[s.g := s.value] else before
  }

  /** Versions name contents: an agent about to update from `seen` either still matches
      the stored object in full, or will be refused. */
  predicate Versioned(w: World) {
    && (w.stored.Present? ==> w.stored.version <= w.revision)
    && forall g | g in w.phases && w.phases[g].Updating? :: SeenIn(w, w.phases[g].seen)
  }

  predicate SeenIn(w: World, seen: Stored) {
    && seen.Present? && seen.version <= w.revision
    && (w.stored.Present? && w.stored.version == seen.version ==> w.stored == seen)
  }

  lemma {:induction false} RunsAreVersioned(steps: seq<Step>)
    requires Possible(steps)
    ensures Versioned(After(steps))
  {
    if steps != [] {
      RunsAreVersioned(steps[..|steps| - 1]);
    }
  }

  /** In every interleaving the object is the sequential account: a write based on an
      outdated read never takes effect, so no agent undoes another's. */
  lemma {:induction false} NoLostUpdate(steps: seq<Step>)
    requires Possible(steps)
    ensures Holds(After(steps)) == Ledger(steps)
  {
    if steps != [] {
      var before := steps[..|steps| - 1];
      NoLostUpdate(before);
      RunsAreVersioned(before);
    }
  }

  /** `i` is the last stored write of `g`, with no deletion since. */
  predicate LastWrite(steps: seq<Step>, g: string, i: nat) {
    && i < |steps| && By(steps[i], g) && IsWrite(steps[i])
    && forall j | i < j < |steps| :: !steps[j].Delete? && !(By(steps[j], g) && IsWrite(steps[j]))
  }

  lemma {:induction false} LedgerIsLastWrite(steps: seq<Step>, g: string) returns (i: nat)
    ensures g in Ledger(steps) ==> LastWrite(steps, g, i) && Ledger(steps)[g] == steps[i].value
    ensures g !in Ledger(steps) ==> forall k: nat :: !LastWrite(steps, g, k)
  {
    i := 0;
    if steps != [] {
      var n := |steps| - 1;
      i := LedgerIsLastWrite(steps[..n], g);
      if By(steps[n], g) && IsWrite(steps[n]) {
        i := n;
      } else if g !in Ledger(steps) {
        forall k: nat | LastWrite(steps, g, k)
          ensures false
        {
          assert k < n && LastWrite(steps[..n], g, k);
        }
      }
    }
  }

  /** Each key holds what its own agent last wrote since the last deletion, and is
      absent exactly when there is no such write. */
  lemma EachKeyHoldsItsLastWrite(steps: seq<Step>, g: string)
    requires Possible(steps)
    ensures g in Holds(After(steps)) <==> exists i: nat :: LastWrite(steps, g, i)
    ensures forall i: nat | LastWrite(steps, g, i) :: Holds(After(steps))[g] == steps[i].value
  {
    NoLostUpdate(steps);
    var last := LedgerIsLastWrite(steps, g);
    forall i: nat | LastWrite(steps, g, i)
      ensures Ledger(steps)[g] == steps[i].value
    {
      assert i == last;
    }
  }

  /** A step of one agent leaves every other agent's key as it was. */
  lemma OthersKeysUntouched(steps: seq<Step>, s: Step, key: string)
    requires Possible(steps) && Enabled(After(steps), s)
    requires !s.Delete? && s.g != key
    ensures key in Holds(Apply(After(steps), s)) <==> key in Holds(After(steps))
    ensures key in Holds(After(steps)) ==> Holds(Apply(After(steps), s))[key] == Holds(After(steps))[key]
  {
    RunsAreVersioned(steps);
  }

  // ---------------------------------------------------------------- calls

  /** `i` is where the latest call of `g` began. */
  predicate CallAt(steps: seq<Step>, g: string, i: nat) {
    && i < |steps| && steps[i].Call? && steps[i].g == g
    && forall j | i < j < |steps| :: !(steps[j].Call? && steps[j].g == g)
  }

  /** At some moment since step `from`, readers found the value. */
  predicate WasVisible(steps: seq<Step>, from: nat, g: string, value: string) {
    exists k | from < k <= |steps| :: VisibleAt(steps, k, g, value)
  }

  predicate VisibleAt(steps: seq<Step>, k: nat, g: string, value: string)
    requires k <= |steps|
  {
    var held := Holds(After(steps[..k]));
    g in held && held[g] == value
  }

  /** A stored write by an agent other than `g`, or a deletion. */
  predicate Foreign(s: Step, g: string) {
    s.Delete? || (IsWrite(s) && s.g != g)
  }

  function Others(steps: seq<Step>, g: string): nat {
    if steps == [] then 0
    else Others(steps[..|steps| - 1], g) + if Foreign(steps[|steps| - 1], g) then 1 else 0
  }

  /** Foreign changes an agent in this phase must have run into since its call began. */
  function Met(w: World, g: string): nat {
    match PhaseOf(w, g)
    case Idle => 0
    case Reading(_, tries) => if tries <= ROUNDS then ROUNDS - tries else 0
    case Creating(_, tries) => (if tries <= ROUNDS then ROUNDS - tries else 0) + if w.stored.Present? then 1 else 0
    case Updating(_, tries, seen) => (if tries <= ROUNDS then ROUNDS - tries else 0) + if w.stored != seen then 1 else 0
    case Done(_, outcome) => if outcome.GaveUp? then ROUNDS else 0
  }

  predicate InCall(w: World, g: string, value: string) {
    match PhaseOf(w, g)
    case Idle => true
    case Reading(v, tries) => v == value && 1 <= tries <= ROUNDS
    case Creating(v, tries) => v == value && 1 <= tries <= ROUNDS
    case Updating(v, tries, _) => v == value && 1 <= tries <= ROUNDS
    case Done(v, _) => v == value
  }

  lemma StepOfCall(w: World, s: Step, g: string, value: string)
    requires Versioned(w) && Enabled(w, s) && InCall(w, g, value) && !(s.Call? && s.g == g)
    ensures InCall(Apply(w, s), g, value)
    ensures Met(Apply(w, s), g) <= Met(w, g) + if Foreign(s, g) then 1 else 0
  {
    if By(s, g) {
      assert s.Get? || s.Create? || s.Update? || s.Return?;
    } else {
      assert PhaseOf(Apply(w, s), g) == PhaseOf(w, g);
    }
  }

  lemma {:induction false} CallSoFar(steps: seq<Step>, g: string, i: nat)
    requires Possible(steps) && CallAt(steps, g, i)
    ensures InCall(After(steps), g, steps[i].value)
    ensures Others(steps[i..], g) >= Met(After(steps), g)
  {
    var n := |steps| - 1;
    if i < n {
      var before := steps[..n];
      CallSoFar(before, g, i);
      RunsAreVersioned(before);
      StepOfCall(After(before), steps[n], g, steps[i].value);
      assert steps[i..][..n - i] == before[i..];
      assert steps[i..][n - i] == steps[n];
    }
  }

  lemma VisibleStays(steps: seq<Step>, s: Step, from: nat, g: string, value: string)
    requires Possible(steps) && Enabled(After(steps), s) && WasVisible(steps, from, g, value)
    ensures Possible(steps + [s]) && WasVisible(steps + [s], from, g, value)
  {
    Runs.Extend(SYSTEM, Start(), steps, s);
    var k :| from < k <= |steps| && VisibleAt(steps, k, g, value);
    assert (steps + [s])[..k] == steps[..k];
    assert VisibleAt(steps + [s], k, g, value);
  }

  lemma {:induction false} WrittenWasVisible(steps: seq<Step>, g: string, i: nat)
    requires Possible(steps) && CallAt(steps, g, i)
    requires PhaseOf(After(steps), g) == Done(steps[i].value, Written)
    ensures WasVisible(steps, i, g, steps[i].value)
  {
    var n := |steps| - 1;
    var before, s := steps[..n], steps[n];
    assert steps == before + [s];
    if PhaseOf(After(before), g) == PhaseOf(After(steps), g) {
      WrittenWasVisible(before, g, i);
      VisibleStays(before, s, i, g, steps[i].value);
    } else {
      CallSoFar(before, g, i);
      assert steps[..|steps|] == steps;
      assert VisibleAt(steps, |steps|, g, steps[i].value);
    }
  }

  /** When a call returns nil, its value was in the map at some moment of the call. */
  lemma SuccessMeansVisible(steps: seq<Step>, g: string, i: nat)
    requires Possible(steps + [Return(g, Written)]) && CallAt(steps, g, i)
    ensures Possible(steps) && WasVisible(steps, i, g, steps[i].value)
  {
    assert (steps + [Return(g, Written)])[..|steps|] == steps;
    CallSoFar(steps, g, i);
    WrittenWasVisible(steps, g, i);
  }

  /** A call gives up only after at least three foreign changes during the call: in each
      round someone else's write or deletion was stored between its read and its write. */
  lemma GivingUpMeansContention(steps: seq<Step>, g: string, i: nat)
    requires Possible(steps + [Return(g, GaveUp)]) && CallAt(steps, g, i)
    ensures Possible(steps) && Others(steps[i..], g) >= 3
  {
    assert (steps + [Return(g, GaveUp)])[..|steps|] == steps;
    CallSoFar(steps, g, i);
  }

  /** A stored write of `g` since step `i`, and one whose answer was lost. */
  predicate HasWritten(steps: seq<Step>, i: nat, g: string) {
    exists j | i < j < |steps| :: By(steps[j], g) && IsWrite(steps[j])
  }

  predicate HasUnheard(steps: seq<Step>, i: nat, g: string) {
    exists j | i < j < |steps| :: By(steps[j], g) && IsUnheard(steps[j])
  }

  predicate IsUnheard(s: Step) {
    (s.Create? || s.Update?) && s.answer.AcceptedUnheard?
  }

  lemma OneMoreStep(steps: seq<Step>, s: Step, i: nat, g: string)
    requires i < |steps|
    ensures HasWritten(steps + [s], i, g) <==> HasWritten(steps, i, g) || (By(s, g) && IsWrite(s))
    ensures HasUnheard(steps + [s], i, g) <==> HasUnheard(steps, i, g) || (By(s, g) && IsUnheard(s))
  {
    var more := steps + [s];
    assert more[|steps|] == s;
    assert forall j | 0 <= j < |steps| :: more[j] == steps[j];
  }

  /** What a call has stored so far, by its phase. */
  lemma {:induction false} WritesOfCall(steps: seq<Step>, g: string, i: nat)
    requires Possible(steps) && CallAt(steps, g, i)
    ensures var p := PhaseOf(After(steps), g);
            if p.Done? && p.outcome.Written? then HasWritten(steps, i, g) && !HasUnheard(steps, i, g)
            else if p.Done? && p.outcome.Error? then HasWritten(steps, i, g) <==> HasUnheard(steps, i, g)
            else !p.Idle? ==> !HasWritten(steps, i, g) && !HasUnheard(steps, i, g)
  {
    var n := |steps| - 1;
    if i < n {
      var before, s := steps[..n], steps[n];
      WritesOfCall(before, g, i);
      assert steps == before + [s];
      OneMoreStep(before, s, i, g);
      StepOfWrites(After(before), s, g);
    }
  }

  lemma StepOfWrites(w: World, s: Step, g: string)
    requires Enabled(w, s)
    ensures !By(s, g) ==> PhaseOf(Next(w, s), g) == PhaseOf(w, g)
    ensures By(s, g) && (s.Create? || s.Update?) ==>
              !PhaseOf(w, g).Done? && !PhaseOf(w, g).Idle?
              && (s.answer.Accepted? <==> PhaseOf(Next(w, s), g).Done? && PhaseOf(Next(w, s), g).outcome.Written?)
              && (s.answer.AcceptedUnheard? ==> PhaseOf(Next(w, s), g).Done? && PhaseOf(Next(w, s), g).outcome.Error?)
  {
  }

  /** What a call's result says about storage. Returned nil: the value was stored. Given up: it
      was not. Any other error: it was stored exactly if a write of the call was stored with
      its answer lost. */
  lemma ResultMeans(steps: seq<Step>, g: string, i: nat, outcome: Outcome)
    requires Possible(steps + [Return(g, outcome)]) && CallAt(steps, g, i)
    ensures outcome.Written? ==> HasWritten(steps, i, g)
    ensures outcome.GaveUp? ==> !HasWritten(steps, i, g)
    ensures !outcome.Written? ==> (HasWritten(steps, i, g) <==> HasUnheard(steps, i, g))
  {
    assert (steps + [Return(g, outcome)])[..|steps|] == steps;
    WritesOfCall(steps, g, i);
  }

  /** An own step of the call that went wrong: a read that failed, or a write that failed or
      whose answer was lost. A write refused because of a clash is none. */
  predicate HasFault(steps: seq<Step>, i: nat, g: string) {
    exists j | i < j < |steps| :: By(steps[j], g) && IsFault(steps[j])
  }

  predicate IsFault(s: Step) {
    match s
    case Get(_, ok) => !ok
    case Create(_, _, answer) => answer.Failed? || answer.AcceptedUnheard?
    case Update(_, _, answer) => answer.Failed? || answer.AcceptedUnheard?
    case _ => false
  }

  /** A write of `g` refused because someone else changed the object first. */
  predicate IsClash(s: Step, g: string) {
    By(s, g) && (s.Create? || s.Update?) && s.answer.Refused?
  }

  function Clashes(steps: seq<Step>, g: string): nat {
    if steps == [] then 0
    else Clashes(steps[..|steps| - 1], g) + if IsClash(steps[|steps| - 1], g) then 1 else 0
  }

  /** What a call has met so far, by its phase. */
  predicate Meets(p: Phase, fault: bool, clashes: nat) {
    match p
    case Idle => true
    case Reading(_, tries) => !fault && clashes + tries == 3
    case Creating(_, tries) => !fault && clashes + tries == 3
    case Updating(_, tries, _) => !fault && clashes + tries == 3
    case Done(_, outcome) => outcome == if fault then Error else if clashes >= 3 then GaveUp else Written
  }

  lemma OneMoreMet(steps: seq<Step>, s: Step, i: nat, g: string)
    requires i < |steps|
    ensures HasFault(steps + [s], i, g) <==> HasFault(steps, i, g) || (By(s, g) && IsFault(s))
    ensures Clashes((steps + [s])[i..], g) == Clashes(steps[i..], g) + if IsClash(s, g) then 1 else 0
  {
    var more := steps + [s];
    assert more[|steps|] == s && forall j | 0 <= j < |steps| :: more[j] == steps[j];
    assert more[i..] == steps[i..] + [s];
    assert (steps[i..] + [s])[..|steps| - i] == steps[i..];
  }

  lemma StepOfMeeting(w: World, s: Step, g: string, value: string, fault: bool, clashes: nat)
    requires Enabled(w, s) && InCall(w, g, value) && !(s.Call? && s.g == g) && Meets(PhaseOf(w, g), fault, clashes)
    ensures Meets(PhaseOf(Next(w, s), g), fault || (By(s, g) && IsFault(s)), clashes + if IsClash(s, g) then 1 else 0)
  {
  }

  lemma {:induction false} CallMeets(steps: seq<Step>, g: string, i: nat)
    requires Possible(steps) && CallAt(steps, g, i)
    ensures Meets(PhaseOf(After(steps), g), HasFault(steps, i, g), Clashes(steps[i..], g))
  {
    var n := |steps| - 1;
    if i < n {
      hide Meets, Apply, Enabled, Possible, After, HasFault, Clashes, IsFault, InCall;
      var before, s := steps[..n], steps[n];
      assert steps == before + [s];
      LastStep(before, s);
      CallMeets(before, g, i);
      CallSoFar(before, g, i);
      OneMoreMet(before, s, i, g);
      StepOfMeeting(After(before), s, g, steps[i].value, HasFault(before, i, g), Clashes(before[i..], g));
    } else {
      assert steps[i..] == [steps[i]];
    }
  }

  lemma LastStep(before: seq<Step>, s: Step)
    requires Possible(before + [s])
    ensures Possible(before) && Enabled(After(before), s) && After(before + [s]) == Next(After(before), s)
  {
    assert (before + [s])[..|before|] == before;
  }

  /** How a call ends is decided by what it met: an error exactly after a fault of its own;
      without one it gives up after three clashes, and returns nil after fewer. */
  lemma OutcomeIs(steps: seq<Step>, g: string, i: nat, outcome: Outcome)
    requires Possible(steps + [Return(g, outcome)]) && CallAt(steps, g, i)
    ensures outcome == if HasFault(steps, i, g) then Error else if Clashes(steps[i..], g) >= 3 then GaveUp else Written
  {
    assert (steps + [Return(g, outcome)])[..|steps|] == steps;
    CallMeets(steps, g, i);
  }

  /** An error does not say the value was not stored: a run in which it was. */
  lemma ErrorMayHaveWritten(g: string, value: string)
    ensures var steps := [Call(g, value), Get(g, true), Create(g, value, AcceptedUnheard), Return(g, Error)];
            Possible(steps) && Holds(After(steps)) == map[g := value]
  {
    var s1, s2 := [Call(g, value)], [Call(g, value), Get(g, true)];
    var s3 := [Call(g, value), Get(g, true), Create(g, value, AcceptedUnheard)];
    Runs.Extend(SYSTEM, Start(), [], Call(g, value));
    Runs.Extend(SYSTEM, Start(), s1, Get(g, true));
    assert s1 + [Get(g, true)] == s2;
    Runs.Extend(SYSTEM, Start(), s2, Create(g, value, AcceptedUnheard));
    assert s2 + [Create(g, value, AcceptedUnheard)] == s3;
    Runs.Extend(SYSTEM, Start(), s3, Return(g, Error));
    assert s3 + [Return(g, Error)] == [Call(g, value), Get(g, true), Create(g, value, AcceptedUnheard), Return(g, Error)];
  }

  // ---------------------------------------------------------------- the client code

  datatype Reply = Found(cm: Stored) | NotFound | ReadFailed

  /** What goes wrong in one round of a call, apart from the protocol: the read fails, or the
      write does, which the server may have stored all the same. */
  datatype Trouble = Trouble(readFails: bool, writeFails: bool, unheard: bool)

  /** What the server answers to a write that it can store exactly when `fits`. */
  function Judge(fits: bool, present: bool, trouble: Trouble): Answer {
    if trouble.writeFails then if fits && trouble.unheard then AcceptedUnheard else Failed
    else if fits then Accepted
    else if present then Refused
    else Failed
  }

  predicate Smooth(troubles: seq<Trouble>) {
    forall i | 0 <= i < |troubles| :: !troubles[i].readFails && !troubles[i].writeFails
  }

  /** An update of `g` found the object deleted since it was read. */
  predicate FoundDeleted(steps: seq<Step>, from: nat, g: string) {
    exists j | from < j < |steps| :: DeletedAt(steps, j, g)
  }

  predicate DeletedAt(steps: seq<Step>, j: nat, g: string)
    requires j < |steps|
  {
    By(steps[j], g) && steps[j].Update? && After(steps[..j]).stored.Absent?
  }

  lemma FoundDeletedStays(steps: seq<Step>, more: seq<Step>, from: nat, g: string)
    requires steps <= more && FoundDeleted(steps, from, g)
    ensures FoundDeleted(more, from, g)
  {
    var j :| from < j < |steps| && DeletedAt(steps, j, g);
    assert steps[..j] == more[..j];
    assert DeletedAt(more, j, g);
  }

  lemma NowFoundDeleted(steps: seq<Step>, s: Step, from: nat, g: string)
    requires from < |steps| && By(s, g) && s.Update? && After(steps).stored.Absent?
    ensures FoundDeleted(steps + [s], from, g)
  {
    assert (steps + [s])[..|steps|] == steps;
    assert DeletedAt(steps + [s], |steps|, g);
  }

  /** Steps added while one call of `g` is running: its own begin and end frame them. */
  predicate OneCall(steps: seq<Step>, from: nat, g: string, value: string, outcome: Outcome) {
    && from + 1 < |steps|
    && steps[from] == Call(g, value)
    && steps[|steps| - 1] == Return(g, outcome)
    && forall i | from < i < |steps| - 1 && By(steps[i], g) :: !steps[i].Call? && !steps[i].Return?
  }

  /** Steps so far of a call of `g` that is still running. */
  predicate Running(steps: seq<Step>, from: nat, g: string, value: string) {
    && from < |steps|
    && steps[from] == Call(g, value)
    && forall i | from < i < |steps| && By(steps[i], g) :: !steps[i].Call? && !steps[i].Return?
  }

  /** The API server with everything that has happened to it. */
  class Cluster {
    var steps: seq<Step>

    predicate Valid()
      reads this
    {
      Possible(steps)
    }

    function World(): World
      requires Valid()
      reads this
    {
      After(steps)
    }

    constructor ()
      ensures Valid() && steps == []
    {
      steps := [];
    }

    method Take(s: Step)
      requires Valid() && Enabled(World(), s)
      modifies this
      ensures Valid() && steps == old(steps) + [s] && World() == Apply(old(World()), s)
    {
      Runs.Extend(SYSTEM, Start(), steps, s);
      steps := steps + [s];
    }

    /** Anything the other agents and the controller may do meanwhile. */
    method Interfere(g: string)
      requires Valid()
      modifies this
      ensures Valid() && old(steps) <= steps
      ensures forall i | |old(steps)| <= i < |steps| :: !By(steps[i], g)
      ensures PhaseOf(World(), g) == old(PhaseOf(World(), g))
    {
      var more: seq<Step> := *;
      for i := 0 to |more|
        invariant Valid() && old(steps) <= steps
        invariant forall j | |old(steps)| <= j < |steps| :: !By(steps[j], g)
        invariant PhaseOf(World(), g) == old(PhaseOf(World(), g))
      {
        if !By(more[i], g) && Enabled(World(), more[i]) {
          Take(more[i]);
        }
      }
    }

    method GetObject(g: string, fails: bool) returns (reply: Reply)
      requires Valid() && PhaseOf(World(), g).Reading?
      modifies this
      ensures Valid()
      ensures reply.ReadFailed? <==> fails
      ensures steps == old(steps) + [Get(g, !reply.ReadFailed?)]
      ensures PhaseOf(World(), g) == (var p := old(PhaseOf(World(), g));
                                      match reply
                                      case Found(cm) => Updating(p.value, p.tries, cm)
                                      case NotFound => Creating(p.value, p.tries)
                                      case ReadFailed => Done(p.value, Error))
      ensures reply.Found? ==> reply.cm.Present? && reply.cm == old(World()).stored
      ensures reply.NotFound? ==> old(World()).stored.Absent?
    {
      reply := if fails then ReadFailed else if World().stored.Absent? then NotFound else Found(World().stored);
      Take(Get(g, !fails));
    }

    method CreateObject(g: string, data: map<string, string>, trouble: Trouble) returns (a: Answer)
      requires Valid() && PhaseOf(World(), g).Creating? && data == map[g := PhaseOf(World(), g).value]
      modifies this
      ensures Valid()
      ensures var p := old(PhaseOf(World(), g));
              steps == old(steps) + [Create(g, p.value, a)]
              && PhaseOf(World(), g) == Answered(p.value, p.tries, a)
      ensures var stored := old(World()).stored; a == Judge(stored.Absent?, stored.Present?, trouble)
      ensures Stores(a) ==> old(World()).stored.Absent? && Holds(World()) == data
      ensures !Stores(a) ==> Holds(World()) == old(Holds(World()))
    {
      a := Judge(World().stored.Absent?, World().stored.Present?, trouble);
      Take(Create(g, PhaseOf(World(), g).value, a));
    }

    /** Stores `cm`, an object read as `seen` and changed, unless the version moved on. */
    method UpdateObject(g: string, cm: Stored, trouble: Trouble) returns (a: Answer)
      requires Valid() && PhaseOf(World(), g).Updating? && PhaseOf(World(), g).seen.Present?
      requires cm == (var p := PhaseOf(World(), g); Present(p.seen.data[g := p.value], p.seen.version))
      modifies this
      ensures Valid()
      ensures var p := old(PhaseOf(World(), g));
              steps == old(steps) + [Update(g, p.value, a)]
              && PhaseOf(World(), g) == Answered(p.value, p.tries, a)
      ensures var stored := old(World()).stored;
              a == Judge(stored.Present? && stored.version == cm.version, stored.Present?, trouble)
      ensures Stores(a) ==> (old(World()).stored.Present? && old(World()).stored.version == cm.version
                             && Holds(World()) == cm.data)
      ensures !Stores(a) ==> Holds(World()) == old(Holds(World()))
    {
      var current := World().stored;
      a := Judge(current.Present? && current.version == cm.version, current.Present?, trouble);
      Take(Update(g, PhaseOf(World(), g).value, a));
    }

    /** `WriteStatusConfigMap`: one call of the protocol, whatever else goes on. A nil
        result means the value was in the map at some moment; giving up means at least
        three foreign changes got in between. */
    method WriteStatusConfigMap(g: string, value: string, troubles: seq<Trouble>) returns (outcome: Outcome)
      requires Valid() && PhaseOf(World(), g).Idle? && |troubles| == 3
      modifies this
      ensures Valid() && PhaseOf(World(), g).Idle?
      ensures old(steps) <= steps && OneCall(steps, |old(steps)|, g, value, outcome)
      ensures outcome.Written? ==> WasVisible(steps, |old(steps)|, g, value)
      ensures outcome.GaveUp? ==> Others(steps[|old(steps)|..], g) >= 3
      ensures outcome.Written? ==> HasWritten(steps, |old(steps)|, g)
      ensures outcome.GaveUp? ==> !HasWritten(steps, |old(steps)|, g)
      ensures outcome.Error? ==> (HasWritten(steps, |old(steps)|, g) <==> HasUnheard(steps, |old(steps)|, g))
      ensures outcome == if HasFault(steps, |old(steps)|, g) then Error
                         else if Clashes(steps[|old(steps)|..], g) >= 3 then GaveUp
                         else Written
      ensures outcome.Error? && Smooth(troubles) ==> FoundDeleted(steps, |old(steps)|, g)
    {
      hide HasWritten, HasUnheard, HasFault, Clashes;
      hide After, Apply, Enabled, Possible, Holds, WasVisible, Others, PhaseOf, OneCall, FoundDeleted;
      ghost var from := |steps|;
      Begin(g, value);
      outcome := GaveUp;
      var round := 0;
      while round < ROUNDS
        invariant outcome.GaveUp?
        invariant round <= ROUNDS && Valid() && old(steps) <= steps && Running(steps, from, g, value)
        invariant round < ROUNDS ==> PhaseOf(World(), g) == Reading(value, ROUNDS - round)
        invariant round == ROUNDS ==> PhaseOf(World(), g) == Done(value, GaveUp)
      {
        var done, result := Round(g, value, troubles[round], ROUNDS - round, from);
        if done {
          outcome := result;
          break;
        }
        round := round + 1;
      }
      ghost var ended := steps;
      Interfere(g);
      Finish(g, value, from, outcome);
      if outcome.Error? && Smooth(troubles) {
        FoundDeletedStays(ended, steps, from, g);
      }
    }

    /** One round of the retry loop: read, change the own key, write. Only a clash leaves the
        call open. */
    method Round(g: string, value: string, trouble: Trouble, tries: nat, ghost from: nat)
      returns (done: bool, outcome: Outcome)
      requires Valid() && Running(steps, from, g, value) && PhaseOf(World(), g) == Reading(value, tries)
      modifies this
      ensures Valid() && old(steps) <= steps && Running(steps, from, g, value)
      ensures done ==> !outcome.GaveUp? && PhaseOf(World(), g) == Done(value, outcome)
      ensures !done ==> PhaseOf(World(), g) == if tries <= 1 then Done(value, GaveUp) else Reading(value, tries - 1)
      ensures done && outcome.Error? && !trouble.readFails && !trouble.writeFails ==> FoundDeleted(steps, from, g)
    {
      hide After, Apply, Enabled, Possible, Holds, PhaseOf, FoundDeleted;
      outcome := Error;
      Interfere(g);
      var reply := GetObject(g, trouble.readFails);
      if reply.ReadFailed? {
        return true, Error;
      }
      Interfere(g);
      var answer;
      if reply.NotFound? {
        answer := CreateObject(g, map[g := value], trouble);
      } else {
        var cm := reply.cm;
        if World().stored.Absent? {
          NowFoundDeleted(steps, Update(g, value, Judge(false, false, trouble)), from, g);
        }
        answer := UpdateObject(g, cm.(data := cm.data[g := value]), trouble);
      }
      if answer.Refused? {
        return false, GaveUp;
      }
      return true, if answer.Accepted? then Written else Error;
    }

    method Begin(g: string, value: string)
      requires Valid() && PhaseOf(World(), g).Idle?
      modifies this
      ensures Valid() && steps == old(steps) + [Call(g, value)]
      ensures Running(steps, |old(steps)|, g, value)
      ensures PhaseOf(World(), g) == Reading(value, ROUNDS)
    {
      Take(Call(g, value));
    }

    /** The return to the caller. */
    method Finish(g: string, value: string, ghost from: nat, outcome: Outcome)
      requires Valid() && Running(steps, from, g, value)
      requires PhaseOf(World(), g) == Done(value, outcome)
      modifies this
      ensures Valid() && PhaseOf(World(), g).Idle?
      ensures steps == old(steps) + [Return(g, outcome)]
      ensures OneCall(steps, from, g, value, outcome)
      ensures outcome.Written? ==> WasVisible(steps, from, g, value)
      ensures outcome.GaveUp? ==> Others(steps[from..], g) >= 3
      ensures outcome.Written? ==> HasWritten(steps, from, g)
      ensures outcome.GaveUp? ==> !HasWritten(steps, from, g)
      ensures outcome.Error? ==> (HasWritten(steps, from, g) <==> HasUnheard(steps, from, g))
      ensures outcome == if HasFault(steps, from, g) then Error
                         else if Clashes(steps[from..], g) >= 3 then GaveUp
                         else Written
    {
      hide HasWritten, HasUnheard, HasFault, Clashes;
      hide After, Possible, Holds, VisibleAt;
      ghost var before := steps;
      Take(Return(g, outcome));
      assert CallAt(before, g, from);
      ResultMeans(before, g, from, outcome);
      OneMoreStep(before, Return(g, outcome), from, g);
      OutcomeIs(before, g, from, outcome);
      OneMoreMet(before, Return(g, outcome), from, g);
      if outcome.Written? {
        SuccessMeansVisible(before, g, from);
        VisibleStays(before, Return(g, outcome), from, g, value);
      } else if outcome.GaveUp? {
        GivingUpMeansContention(before, g, from);
        assert steps[from..] == before[from..] + [Return(g, outcome)];
        assert (before[from..] + [Return(g, outcome)])[..|before| - from] == before[from..];
      }
    }
  }
}
