/** The retry delay of a failed attempt: capped exponential growth plus truncated jitter. */
module Backoff {

  /** `RETRY_DELAY_SECONDS`, `MAX_RETRY_DELAY_SECONDS` and `RETRY_JITTER_RATIO`. */
  datatype Policy = Policy(delay: int, cap: int, ratio: real) {
    predicate NonNegative() {
      delay >= 0 && cap >= 0 && ratio >= 0.0
    }
  }

  function Min(x: int, y: int): int { if x <= y then x else y }

  function Max(x: int, y: int): int { if x >= y then x else y }

  function Pow2(n: nat): nat { if n == 0 then 1 else 2 * Pow2(n - 1) }

  /** Conversion of a float to an integer: truncation toward zero. */
  function Trunc(x: real): int { if x >= 0.0 then x.Floor else -(-x).Floor }

  function Base(p: Policy, attempt: int): int {
    Min(p.cap, p.delay * Pow2(Max(0, attempt - 1)))
  }

  /** The largest jitter, which no draw reaches. */
  function Spread(p: Policy, attempt: int): real {
    Base(p, attempt) as real * p.ratio
  }

  function Unrounded(base: int, spread: real, random: real): real {
    base as real + spread * random
  }

  /** `random` is the draw from [0, 1). */
  function Delay(p: Policy, attempt: int, random: real): int {
    Max(0, Trunc(Unrounded(Base(p, attempt), Spread(p, attempt), random)))
  }

  lemma Shrinks(x: real, random: real)
    requires x >= 0.0 && 0.0 <= random < 1.0
    ensures 0.0 <= x * random <= x
  {
    assert x * (1.0 - random) >= 0.0;
  }

  lemma UnroundedBounds(base: nat, spread: real, random: real)
    requires spread >= 0.0 && 0.0 <= random < 1.0
    ensures base as real <= Unrounded(base, spread, random) <= base as real + spread
    ensures spread > 0.0 ==> Unrounded(base, spread, random) < base as real + spread
  {
    Shrinks(spread, random);
    assert spread > 0.0 ==> spread * (1.0 - random) > 0.0;
  }

  lemma JitterBounds(base: nat, spread: real, random: real)
    requires spread >= 0.0 && 0.0 <= random < 1.0
    ensures base <= Trunc(Unrounded(base, spread, random)) <= base + spread.Floor
  {
    hide Unrounded;
    UnroundedBounds(base, spread, random);
    assert (base as real + spread).Floor == base + spread.Floor;
  }

  lemma BaseNonNegative(p: Policy, attempt: int)
    requires p.NonNegative()
    ensures 0 <= Base(p, attempt) <= p.cap
  {
    var power := Pow2(Max(0, attempt - 1));
    assert p.delay * power >= 0;
  }

  lemma SpreadNonNegative(p: Policy, attempt: int)
    requires p.NonNegative()
    ensures Spread(p, attempt) >= 0.0
  {
    BaseNonNegative(p, attempt);
  }

  /** The cap bounds the base only: the delay may exceed it by the truncated jitter, and never by more. */
  lemma DelayBounds(p: Policy, attempt: int, random: real)
    requires p.NonNegative() && 0.0 <= random < 1.0
    ensures Base(p, attempt) <= Delay(p, attempt, random)
                              <= Base(p, attempt) + (Base(p, attempt) as real * p.ratio).Floor
    ensures 0 <= Base(p, attempt) <= p.cap
  {
    BaseNonNegative(p, attempt);
    SpreadNonNegative(p, attempt);
    JitterBounds(Base(p, attempt), Spread(p, attempt), random);
  }

  lemma TruncAbove(x: real, n: int)
    requires x >= 0.0
    ensures Trunc(x) > n <==> x >= (n + 1) as real
  {
  }

  /** A draw that meets any goal short of the base plus the whole spread. */
  lemma DrawFor(base: nat, spread: real, goal: real) returns (random: real)
    requires base as real <= goal < base as real + spread
    ensures 0.0 <= random < 1.0 && Unrounded(base, spread, random) == goal
  {
    random := (goal - base as real) / spread;
    assert spread * random == goal - base as real;
  }

  /** One draw exceeds the cap exactly when the unrounded delay reaches the next whole second. */
  lemma DrawExceedsCapIff(p: Policy, attempt: int, random: real)
    requires p.NonNegative() && 0.0 <= random < 1.0
    ensures Delay(p, attempt, random) > p.cap <==>
            Unrounded(Base(p, attempt), Spread(p, attempt), random) >= (p.cap + 1) as real
  {
    hide Base, Trunc, Unrounded;
    BaseNonNegative(p, attempt);
    SpreadNonNegative(p, attempt);
    UnroundedBounds(Base(p, attempt), Spread(p, attempt), random);
    TruncAbove(Unrounded(Base(p, attempt), Spread(p, attempt), random), p.cap);
  }

  /**
   Every draw keeps the delay of an attempt within the cap exactly when the base plus the whole jitter stays
   within one second above it.
   */
  lemma WithinCapIff(p: Policy, attempt: int)
    requires p.NonNegative()
    ensures (forall random :: 0.0 <= random < 1.0 ==> Delay(p, attempt, random) <= p.cap) <==>
            Base(p, attempt) as real + Base(p, attempt) as real * p.ratio <= (p.cap + 1) as real
  {
    hide Base, Delay, Unrounded;
    BaseNonNegative(p, attempt);
    SpreadNonNegative(p, attempt);
    if Base(p, attempt) as real + Spread(p, attempt) <= (p.cap + 1) as real {
      forall random | 0.0 <= random < 1.0 ensures Delay(p, attempt, random) <= p.cap {
        UnroundedBounds(Base(p, attempt), Spread(p, attempt), random);
        DrawExceedsCapIff(p, attempt, random);
      }
    } else {
      var random := DrawFor(Base(p, attempt), Spread(p, attempt), (p.cap + 1) as real);
      DrawExceedsCapIff(p, attempt, random);
    }
  }

  /** It does not under the default settings: a seventh attempt whose draw is one half waits 330 seconds. */
  lemma CapIsExceeded()
    ensures Base(Policy(5, 300, 0.2), 7) == 300
    ensures Delay(Policy(5, 300, 0.2), 7, 0.5) == 330
  {
  }

  lemma WholePart(x: real)
    ensures x >= 0.0 ==> Max(0, Trunc(x)) as real <= x < (Max(0, Trunc(x)) + 1) as real
    ensures x < 0.0 ==> Max(0, Trunc(x)) == 0
  {
    assert x < 0.0 ==> (-x).Floor >= 0;
  }

  /** Under every configuration a delay is the whole part of base and drawn jitter, or zero if that is negative. */
  lemma DelayIsTheWholePart(p: Policy, attempt: int, random: real)
    ensures var exact, delay := Unrounded(Base(p, attempt), Spread(p, attempt), random), Delay(p, attempt, random);
            && delay >= 0
            && (exact >= 0.0 ==> delay as real <= exact < (delay + 1) as real)
            && (exact < 0.0 ==> delay == 0)
    ensures Unrounded(Base(p, attempt), Spread(p, attempt), random)
            == Base(p, attempt) as real + Base(p, attempt) as real * p.ratio * random
  {
    DelayOfUnrounded(p, attempt, random);
  }

  lemma DelayOfUnrounded(p: Policy, attempt: int, random: real)
    ensures Delay(p, attempt, random) == Max(0, Trunc(Unrounded(Base(p, attempt), Spread(p, attempt), random)))
    ensures var exact, delay := Unrounded(Base(p, attempt), Spread(p, attempt), random), Delay(p, attempt, random);
            && delay >= 0
            && (exact >= 0.0 ==> delay as real <= exact < (delay + 1) as real)
            && (exact < 0.0 ==> delay == 0)
  {
    hide Base, Trunc, Unrounded, Spread;
    WholePart(Unrounded(Base(p, attempt), Spread(p, attempt), random));
  }

  /** The first base is the configured delay under the cap; a missing attempt counts as the first. */
  lemma FirstBase(p: Policy, attempt: int)
    requires attempt <= 1
    ensures Base(p, attempt) == if p.delay < p.cap then p.delay else p.cap
  {
  }

  /** Bases double from one attempt to the next until they meet the cap, and then stay there. */
  lemma BaseGrowth(p: Policy, attempt: int)
    requires p.NonNegative() && attempt >= 1
    ensures Base(p, attempt + 1) == Min(p.cap, 2 * Base(p, attempt))
    ensures Base(p, attempt) == p.cap ==> Base(p, attempt + 1) == p.cap
  {
    var uncapped := p.delay * Pow2(attempt - 1);
    assert Pow2(attempt) == 2 * Pow2(attempt - 1);
    assert p.delay * Pow2(attempt) == 2 * uncapped;
    assert uncapped >= 0;
  }

  /** The bases of attempts 1 to n. */
  function BaseSum(p: Policy, n: nat): int {
    if n == 0 then 0 else BaseSum(p, n - 1) + Base(p, n)
  }

  /** How many of the attempts 1 to n have an uncapped base below the cap. */
  function BelowCap(p: Policy, n: nat): nat {
    if n == 0 then 0
    else BelowCap(p, n - 1) + if p.delay * Pow2(n - 1) < p.cap then 1 else 0
  }

  lemma {:induction false} BelowCapIsPrefix(p: Policy, n: nat)
    requires p.NonNegative()
    ensures BelowCap(p, n) <= n
    ensures n > 0 && p.delay * Pow2(n - 1) < p.cap ==> BelowCap(p, n) == n
  {
    if n > 1 {
      BelowCapIsPrefix(p, n - 1);
      assert p.delay * Pow2(n - 1) == 2 * (p.delay * Pow2(n - 2));
      assert p.delay * Pow2(n - 2) >= 0;
    }
  }

  lemma NextPartialSum(d: int, cap: int, power: int, j: int, n: int)
    ensures d * (2 * power - 1) == d * (power - 1) + d * power
    ensures (n - j) * cap == (n - 1 - j) * cap + cap
  {
  }

  /** The closed form of the summed bases. */
  lemma {:induction false} BaseSumClosedForm(p: Policy, n: nat)
    requires p.NonNegative()
    ensures var j := BelowCap(p, n);
            j <= n && BaseSum(p, n) == p.delay * (Pow2(j) - 1) + (n - j) * p.cap
  {
    BelowCapIsPrefix(p, n);
    if n > 0 {
      BaseSumClosedForm(p, n - 1);
      BelowCapIsPrefix(p, n - 1);
      NextPartialSum(p.delay, p.cap, Pow2(n - 1), BelowCap(p, n - 1), n);
    }
  }
}
