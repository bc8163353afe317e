/** Exponential backoff: the controller's failure counts per key, and the agent's shift. */
module Backoff {

  const BASE: nat := 30
  const CAP: nat := 300

  function Pow2(n: nat): (p: nat)
    ensures p >= 1
  {
    if n == 0 then 1 else 2 * Pow2(n - 1)
  }

  function Min(a: int, b: int): int {
    if a < b then a else b
  }

  /** min(30 * 2^(f-1), 300) seconds after `f` failures in a row, 30 when there is none. */
  function Delay(f: nat): nat {
    if f == 0 then BASE else Min(BASE * Pow2(f - 1), CAP)
  }

  // ------------------------------------------------------------- histories

  datatype Event<Key> = Failed(key: Key) | Reset(key: Key)

  /** Failures of `key` since its last reset. */
  function FailuresSince<Key(==)>(history: seq<Event<Key>>, key: Key): nat {
    if history == [] then 0
    else
      var last := history[|history| - 1];
      var before := FailuresSince(history[..|history| - 1], key);
      if last.key != key then before else if last.Failed? then before + 1 else 0
  }

  /** The events about one key. */
  function Own<Key(==)>(history: seq<Event<Key>>, key: Key): seq<Event<Key>> {
    if history == [] then []
    else
      var last := history[|history| - 1];
      Own(history[..|history| - 1], key) + if last.key == key then [last] else []
  }

  lemma OneMore<Key>(history: seq<Event<Key>>, e: Event<Key>, key: Key)
    ensures FailuresSince(history + [e], key)
         == if e.key != key then FailuresSince(history, key)
            else if e.Failed? then FailuresSince(history, key) + 1 else 0
    ensures Own(history + [e], key) == if e.key == key then Own(history, key) + [e] else Own(history, key)
  {
    assert (history + [e])[..|history|] == history;
  }

  /** Other keys' events never matter. */
  lemma {:induction false} OthersDoNotMatter<Key>(history: seq<Event<Key>>, key: Key)
    ensures FailuresSince(Own(history, key), key) == FailuresSince(history, key)
  {
    if history == [] {
    } else {
      hide FailuresSince, Own;
      var before, e := history[..|history| - 1], history[|history| - 1];
      assert history == before + [e];
      OthersDoNotMatter(before, key);
      OneMore(before, e, key);
      OneMore(Own(before, key), e, key);
    }
  }

  lemma {:induction false} Pow2Adds(a: nat, b: nat)
    ensures Pow2(a + b) == Pow2(a) * Pow2(b)
  {
    if a > 0 {
      Pow2Adds(a - 1, b);
    }
  }

  lemma Pow2Monotone(a: nat, b: nat)
    requires a <= b
    ensures Pow2(a) <= Pow2(b)
  {
    Pow2Adds(a, b - a);
    assert Pow2(a) * 1 <= Pow2(a) * Pow2(b - a);
  }

  /** More failures never shorten the delay, and five reach the cap. */
  lemma DelayMonotone(f: nat, g: nat)
    requires f <= g
    ensures BASE <= Delay(f) <= Delay(g) <= CAP
    ensures g >= 5 ==> Delay(g) == CAP
  {
    if f > 0 {
      Pow2Monotone(f - 1, g - 1);
    }
    if g >= 5 {
      Pow2Monotone(4, g - 1);
      assert Pow2(4) == 16;
    }
  }

  /** The failures of a key from `i` on. */
  function FailuresFrom<Key(==)>(history: seq<Event<Key>>, key: Key, i: nat): set<nat> {
    set j: nat | i <= j < |history| && history[j] == Failed(key)
  }

  lemma OneMoreFailure<Key>(before: seq<Event<Key>>, e: Event<Key>, key: Key, i: nat)
    requires i <= |before|
    ensures |FailuresFrom(before + [e], key, i)| == |FailuresFrom(before, key, i)| + if e == Failed(key) then 1 else 0
    ensures FailuresFrom(before + [e], key, |before| + 1) == {}
  {
    var history, n := before + [e], |before|;
    assert FailuresFrom(history, key, i)
        == if e == Failed(key) then FailuresFrom(before, key, i) + {n} else FailuresFrom(before, key, i);
  }

  /** The failures that count are those after the last reset. */
  lemma {:induction false} FailuresMeans<Key>(history: seq<Event<Key>>, key: Key) returns (i: nat)
    ensures i <= |history| && (i == 0 || history[i - 1] == Reset(key))
    ensures forall j | i <= j < |history| :: history[j] != Reset(key)
    ensures FailuresSince(history, key) == |FailuresFrom(history, key, i)|
  {
    i := 0;
    if history == [] {
      assert FailuresFrom(history, key, 0) == {};
    } else {
      hide FailuresSince, FailuresFrom;
      var before, e := history[..|history| - 1], history[|history| - 1];
      assert history == before + [e];
      i := FailuresMeans(before, key);
      OneMore(before, e, key);
      OneMoreFailure(before, e, key, i);
      if e == Reset(key) {
        i := |history|;
      }
    }
  }

  /** The sequence of delays in seconds. */
  lemma DelaySequence(f: nat)
    ensures Delay(0) == 30 && Delay(1) == 30 && Delay(2) == 60 && Delay(3) == 120 && Delay(4) == 240
    ensures f >= 5 ==> Delay(f) == 300
  {
    assert Pow2(0) == 1 && Pow2(1) == 2 && Pow2(2) == 4 && Pow2(3) == 8;
    if f >= 5 {
      DelayMonotone(5, f);
    }
  }

  // ------------------------------------------------------------- the controller

  /** `backoff` of the reconciler, with everything recorded on it so far. */
  class Reconciler<Key(==, !new)> {
    var backoff: map<Key, nat>
    ghost var history: seq<Event<Key>>

    ghost predicate Valid()
      reads this
    {
      forall key :: FailuresSince(history, key) == if key in backoff then backoff[key] else 0
    }

    constructor ()
      ensures Valid() && history == []
    {
      backoff, history := map[], [];
    }

    method RecordFailure(key: Key)
      requires Valid()
      modifies this
      ensures Valid() && history == old(history) + [Failed(key)]
    {
      if key !in backoff {
        backoff := backoff[key := 0];
      }
      backoff := backoff[key := backoff[key] + 1];
      forall k {
        OneMore(history, Failed(key), k);
      }
      history := history + [Failed(key)];
    }

    method ResetBackoff(key: Key)
      requires Valid()
      modifies this
      ensures Valid() && history == old(history) + [Reset(key)]
    {
      backoff := backoff - {key};
      forall k {
        OneMore(history, Reset(key), k);
      }
      history := history + [Reset(key)];
    }

    /** Doubles until the count or the cap is reached. */
    method BackoffDelay(key: Key) returns (delay: nat)
      requires Valid()
      ensures delay == Delay(FailuresSince(history, key))
    {
      assert FailuresSince(history, key) == if key in backoff then backoff[key] else 0;
      if key !in backoff || backoff[key] == 0 {
        return BASE;
      }
      var failures := backoff[key];
      delay := BASE;
      var i := 0;
      while i < failures - 1 && delay < CAP
        invariant 0 <= i <= failures - 1
        invariant delay == BASE * Pow2(i)
      {
        delay := delay * 2;
        i := i + 1;
      }
      Pow2Monotone(i, failures - 1);
      assert BASE * Pow2(i) <= BASE * Pow2(failures - 1);
      if delay > CAP {
        delay := CAP;
      }
    }
  }

  // ------------------------------------------------------------- the agent's shift

  const NANOS: nat := 1_000_000_000
  const TWO63: nat := 0x8000_0000_0000_0000
  const TWO64: nat := 0x1_0000_0000_0000_0000

  /** The int64 a product wraps to. */
  function Int64(x: nat): int {
    if x % TWO64 < TWO63 then x % TWO64 else x % TWO64 - TWO64
  }

  /** `min(30*time.Second<<(n-1), 5*time.Minute)` in nanoseconds. */
  function AgentDelay(n: nat): int
    requires n >= 1
  {
    Min(Int64(BASE * NANOS * Pow2(n - 1)), CAP * NANOS)
  }

  /** 30 seconds are this odd number times 2^10 nanoseconds. */
  const ODD: nat := 29_296_875

  predicate BitClear(x: nat, bit: nat) {
    x / Pow2(bit) % 2 == 0
  }

  lemma ModUnique(x: nat, d: nat, q: nat, r: nat)
    requires x == q * d + r && r < d
    ensures x % d == r
  {
    var t := x / d - q;
    assert t * d == r - x % d by {
      assert x == x / d * d + x % d;
      assert t * d == x / d * d - q * d;
    }
    assert t >= 1 ==> t * d >= d;
    assert t <= -1 ==> t * d <= (-1) * (d as int);
  }

  lemma Distributed(x: nat, q: nat, r: nat, e: nat, d: nat)
    requires x == q * d + r
    ensures x * e == q * (e * d) + r * e
  {
    assert x * e == q * d * e + r * e;
    assert q * d * e == q * (e * d);
  }

  lemma LessTimes(r: nat, d: nat, e: nat)
    requires r < d && e >= 1
    ensures r * e + e <= e * d
  {
    assert (r + 1) * e <= d * e;
    assert (r + 1) * e == r * e + e;
  }

  /** Shifting left by `e` keeps the low 64 - e bits. */
  lemma ShiftedMod(x: nat, e: nat, b: nat)
    ensures x * Pow2(e) % Pow2(e + b) == x % Pow2(b) * Pow2(e)
  {
    Pow2Adds(e, b);
    Rescaled(x, Pow2(e), Pow2(b));
  }

  lemma Rescaled(x: nat, e: nat, d: nat)
    requires e >= 1 && d >= 1
    ensures e * d >= 1 && x * e % (e * d) == x % d * e
  {
    var q, r := x / d, x % d;
    assert x == q * d + r;
    Distributed(x, q, r, e, d);
    LessTimes(r, d, e);
    ModUnique(x * e, e * d, q, r * e);
  }

  lemma Powers()
    ensures Pow2(10) == 1024 && Pow2(25) == 33_554_432
    ensures Pow2(38) == 274_877_906_944 && Pow2(63) == TWO63 && Pow2(64) == TWO64
  {
    assert Pow2(10) == 1024;
    Pow2Adds(10, 10);
    assert Pow2(5) == 32;
    Pow2Adds(20, 5);
    assert Pow2(3) == 8;
    Pow2Adds(25, 3);
    Pow2Adds(28, 10);
    Pow2Adds(38, 25);
    assert Pow2(64) == 2 * Pow2(63);
  }

  lemma Halves(x: nat, d: nat, q: nat, r: nat)
    requires x == q * d + r && r < d
    ensures x % (2 * d) == if q % 2 == 0 then r else d + r
  {
    var h := q / 2;
    if q % 2 == 0 {
      assert q == 2 * h;
      assert q * d == h * (2 * d);
      ModUnique(x, 2 * d, h, r);
    } else {
      assert q == 2 * h + 1;
      assert q * d == h * (2 * d) + d;
      ModUnique(x, 2 * d, h, d + r);
    }
  }

  lemma TopHalf(x: nat, d: nat, dd: nat)
    requires d >= 1 && dd == 2 * d
    ensures x % dd < d <==> x / d % 2 == 0
  {
    assert x == x / d * d + x % d;
    Halves(x, d, x / d, x % d);
  }

  /** The upper half of the low bits is the top one of them. */
  lemma TopBit(x: nat, bit: nat)
    ensures x % Pow2(bit + 1) < Pow2(bit) <==> BitClear(x, bit)
  {
    TopHalf(x, Pow2(bit), Pow2(bit + 1));
  }

  lemma Unshifted(n: nat)
    requires n >= 1
    ensures BASE * NANOS * Pow2(n - 1) == ODD * Pow2(n + 9)
  {
    hide Pow2;
    Powers();
    Pow2Adds(10, n - 1);
    assert n + 9 == 10 + (n - 1);
  }

  lemma BeforeOverflow(n: nat)
    requires 1 <= n <= 29
    ensures Int64(BASE * NANOS * Pow2(n - 1)) == BASE * NANOS * Pow2(n - 1)
  {
    hide Pow2;
    Unshifted(n);
    Powers();
    Pow2Monotone(n + 9, 38);
    assert ODD * Pow2(n + 9) <= ODD * Pow2(38);
  }

  lemma ShiftedOut(n: nat)
    requires n >= 55
    ensures Int64(BASE * NANOS * Pow2(n - 1)) == 0
  {
    hide Pow2;
    Unshifted(n);
    Powers();
    Pow2Adds(64, n - 55);
    assert n + 9 == 64 + (n - 55);
    assert ODD * (TWO64 * Pow2(n - 55)) == ODD * Pow2(n - 55) * TWO64 + 0;
    ModUnique(ODD * Pow2(n + 9), TWO64, ODD * Pow2(n - 55), 0);
  }

  lemma AboveOrBelow(r: nat, e: nat, d: nat)
    requires 1 <= r && 1 <= e
    ensures e <= r * e && (r < d <==> r * e < e * d)
  {
    LessTimes(0, r, e);
    if r < d {
      LessTimes(r, d, e);
    } else {
      assert r * e == d * e + (r - d) * e;
    }
  }

  /** What the shift leaves between the first overflow and the last. */
  lemma Remainder(n: nat)
    requires 30 <= n < 55
    ensures var m := ODD % Pow2(55 - n) * Pow2(n + 9);
            BASE * NANOS * Pow2(n - 1) % TWO64 == m && m > CAP * NANOS
            && (m < TWO63 <==> BitClear(ODD, 54 - n))
  {
    var e, b := n + 9, 55 - n;
    assert BASE * NANOS * Pow2(n - 1) % TWO64 == ODD % Pow2(b) * Pow2(e) by {
      hide Pow2;
      Unshifted(n);
      Powers();
      ShiftedMod(ODD, e, b);
    }
    SizeOf(ODD % Pow2(b), e, b) by {
      OddStaysOdd(b);
    }
    TopBit(ODD, b - 1);
  }

  lemma SizeOf(r: nat, e: nat, b: nat)
    requires 39 <= e && 1 <= b && e + b == 64 && 1 <= r
    ensures r * Pow2(e) > CAP * NANOS
    ensures r * Pow2(e) < TWO63 <==> r < Pow2(b - 1)
  {
    hide Pow2;
    AboveOrBelow(r, Pow2(e), Pow2(b - 1));
    Powers();
    Pow2Adds(e, b - 1);
    Pow2Monotone(39, e);
    Pow2Adds(1, 38);
    Pow2OfOne();
  }

  lemma Pow2OfOne()
    ensures Pow2(1) == 2
  {
    assert Pow2(0) == 1;
  }

  /** From the 30th failure on, the shifted value has lost its top bits: what is left is
      negative, zero, or a positive value beyond the cap. */
  lemma AfterOverflow(n: nat)
    requires 30 <= n
    ensures if n < 55 && BitClear(ODD, 54 - n as int)
            then Int64(BASE * NANOS * Pow2(n - 1)) > CAP * NANOS
            else Int64(BASE * NANOS * Pow2(n - 1)) <= 0
  {
    if n >= 55 {
      ShiftedOut(n);
    } else {
      Remainder(n);
    }
  }

  lemma OddStaysOdd(b: nat)
    requires b >= 1
    ensures ODD % Pow2(b) >= 1
  {
    var d, q := Pow2(b - 1), ODD / Pow2(b);
    assert ODD == q * (2 * d) + ODD % Pow2(b);
    assert q * (2 * d) == 2 * (q * d);
  }

  /** On unbounded integers the agent's shift is the controller's delay. */
  lemma ShiftIsDelay(n: nat)
    requires n >= 1
    ensures Min(BASE * NANOS * Pow2(n - 1), CAP * NANOS) == Delay(n) * NANOS
  {
    var p := Pow2(n - 1);
    if BASE * p < CAP {
      assert BASE * NANOS * p == BASE * p * NANOS < CAP * NANOS;
    } else {
      assert BASE * NANOS * p == BASE * p * NANOS >= CAP * NANOS;
    }
  }

  /** On int64 it is so exactly for the first 29 failures, and later only where the bit
      shifted into the sign happens to be clear; from the 55th on it never is. */
  lemma AgentDelayIsDelayIff(n: nat)
    requires n >= 1
    ensures AgentDelay(n) == Delay(n) * NANOS <==> n <= 29 || (n < 55 && BitClear(ODD, 54 - n as int))
  {
    ShiftIsDelay(n);
    if n <= 29 {
      BeforeOverflow(n);
    } else {
      AfterOverflow(n);
      DelayMonotone(5, n);
    }
  }

  /** The agent's delays in nanoseconds, up to the first overflow. */
  lemma AgentDelaySequence(n: nat)
    requires 1 <= n <= 29
    ensures AgentDelay(n) == if n == 1 then 30_000_000_000
                             else if n == 2 then 60_000_000_000
                             else if n == 3 then 120_000_000_000
                             else if n == 4 then 240_000_000_000
                             else 300_000_000_000
  {
    AgentDelayIsDelayIff(n);
    DelaySequence(n);
  }

  /** Where it is not, the agent does not back off at all: its deadline is not in the future. */
  lemma OverflowMeansNoBackoff(n: nat)
    requires n >= 1 && AgentDelay(n) != Delay(n) * NANOS
    ensures n >= 30 && AgentDelay(n) <= 0
  {
    AgentDelayIsDelayIff(n);
    AfterOverflow(n);
  }

  /** The thirtieth failure in a row is the first such. */
  lemma ThirtiethOverflows()
    ensures AgentDelay(30) < 0
  {
    Powers();
    Unshifted(30);
    Pow2Adds(38, 1);
  }
}
