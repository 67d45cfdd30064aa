/**
 Dialling an address-book entry: counters, exponential backoff and its clamps. Durations are
 nanoseconds; the product of backoff and multiplier is exact and then truncated.
 */
module Backoff {
  const MILLISECOND: int := 1_000_000
  const SECOND: int := 1_000_000_000
  const INT64: int := 0x8000_0000_0000_0000

  /** An unsigned 64-bit count read as a signed duration. */
  function Duration(u: nat): int
    requires u < 2 * INT64
  {
    if u < INT64 then u else u - 2 * INT64
  }

  datatype Settings = Settings(maxAttempts: nat, default: int, max: int, multiplier: real)

  /** What every entry made from stored values satisfies. */
  predicate Clamped(c: Settings) {
    c.default >= MILLISECOND && c.max >= SECOND && c.multiplier >= 0.1
  }

  datatype Counters = Counters(attempts: nat, failed: nat, backoff: int)

  datatype Outcome = Connected | Duplicate | NotFound | Retry(after: int)

  function Next(max: int, from: int, growth: real): int {
    if from + growth.Floor > max then max else from + growth.Floor
  }

  function Grown(c: Settings, backoff: int): int {
    var from := if backoff < c.default then c.default else backoff;
    Next(c.max, from, from as real * c.multiplier)
  }

  function Dialled(c: Settings, s: Counters, works: bool): Counters {
    if works then Counters(s.attempts + 1, 0, c.default)
    else if s.failed + 1 > c.maxAttempts then s.(failed := s.failed + 1)
    else s.(failed := s.failed + 1, backoff := Grown(c, s.backoff))
  }

  class Entry {
    const settings: Settings
    var counters: Counters

    /** Stored values below the minimum are raised to it. */
    constructor (maxAttempts: nat, default: nat, max: nat, multiplier: real, attempts: nat, failed: nat, backoff: nat)
      requires default < 2 * INT64 && max < 2 * INT64 && backoff < 2 * INT64
      ensures Clamped(settings) && settings.maxAttempts == maxAttempts
      ensures Duration(default) >= MILLISECOND ==> settings.default == Duration(default)
      ensures Duration(default) < MILLISECOND ==> settings.default == MILLISECOND
      ensures Duration(max) >= SECOND ==> settings.max == Duration(max)
      ensures Duration(max) < SECOND ==> settings.max == SECOND
      ensures multiplier >= 0.1 ==> settings.multiplier == multiplier
      ensures multiplier < 0.1 ==> settings.multiplier == 0.1
      ensures counters.attempts == attempts && counters.failed == failed
      ensures counters.backoff == if Duration(backoff) < settings.default then settings.default else Duration(backoff)
    {
      var m := if multiplier < 0.1 then 0.1 else multiplier;
      var d := if Duration(default) < MILLISECOND then MILLISECOND else Duration(default);
      var x := if Duration(max) < SECOND then SECOND else Duration(max);
      settings := Settings(maxAttempts, d, x, m);
      counters := Counters(attempts, failed, if Duration(backoff) < d then d else Duration(backoff));
    }

    method Dial(connected: bool, works: bool) returns (outcome: Outcome)
      modifies this
      ensures connected ==> outcome == Duplicate && counters == old(counters)
      ensures !connected ==> counters == Dialled(settings, old(counters), works)
      ensures !connected && works ==> outcome == Connected
      ensures !connected && !works ==>
                outcome == if counters.failed > settings.maxAttempts then NotFound else Retry(counters.backoff)
    {
      if connected {
        return Duplicate;
      }
      if works {
        counters := Counters(counters.attempts + 1, 0, settings.default);
        return Connected;
      }
      counters := counters.(failed := counters.failed + 1);
      if counters.failed > settings.maxAttempts {
        return NotFound;
      }
      if counters.backoff < settings.default {
        counters := counters.(backoff := settings.default);
      }
      counters := counters.(backoff := counters.backoff + (counters.backoff as real * settings.multiplier).Floor);
      if counters.backoff > settings.max {
        counters := counters.(backoff := settings.max);
      }
      return Retry(counters.backoff);
    }
  }

  // ---------------------------------------------------------------- consecutive failures

  /** A dial that works, then k that do not. */
  function AfterFailures(c: Settings, s: Counters, k: nat): Counters {
    if k == 0 then Dialled(c, s, true) else Dialled(c, AfterFailures(c, s, k - 1), false)
  }

  function Grow(c: Settings, k: nat): int {
    if k == 0 then c.default else Grown(c, Grow(c, k - 1))
  }

  /** While failures are retried the backoff is the k-fold growth; from then on it stays. */
  lemma {:induction false} FailuresGrowBackoff(c: Settings, s: Counters, k: nat)
    ensures AfterFailures(c, s, k).failed == k && AfterFailures(c, s, k).attempts == s.attempts + 1
    ensures AfterFailures(c, s, k).backoff == Grow(c, if k <= c.maxAttempts then k else c.maxAttempts)
  {
    if k > 0 {
      FailuresGrowBackoff(c, s, k - 1);
    }
  }

  lemma StepUp(b: int, low: int, m: real)
    requires 0 < low <= b && m >= 0.1
    ensures (b as real * m).Floor >= (low as real * m).Floor
  {
  }

  /** Growth of the smallest backoff. */
  function Increment(c: Settings): int {
    (c.default as real * c.multiplier).Floor
  }

  lemma IncrementIsLarge(c: Settings)
    requires Clamped(c)
    ensures Increment(c) >= MILLISECOND / 10
  {
  }

  lemma GrownStep(c: Settings, b: int)
    requires Clamped(c) && c.default <= b <= c.max
    ensures b < c.max ==> b < Grown(c, b) <= c.max
    ensures b == c.max ==> Grown(c, b) == c.max
    ensures Grown(c, b) == c.max || Grown(c, b) >= b + Increment(c)
  {
    IncrementIsLarge(c);
    StepUp(b, c.default, c.multiplier);
  }

  lemma OneMore(k: int, i: int)
    ensures (k + 1) * i == k * i + i
  {
  }

  /** The backoff never exceeds the maximum, and each retry raises it until it gets there. */
  lemma {:induction false} GrowsUntilMax(c: Settings, k: nat)
    requires Clamped(c) && c.default <= c.max
    ensures c.default <= Grow(c, k) <= c.max
    ensures Grow(c, k) < c.max ==> Grow(c, k) < Grow(c, k + 1)
    ensures Grow(c, k) == c.max ==> Grow(c, k + 1) == c.max
    ensures Grow(c, k) == c.max || Grow(c, k) >= c.default + k * Increment(c)
  {
    if k > 0 {
      GrowsUntilMax(c, k - 1);
      GrownStep(c, Grow(c, k - 1));
      OneMore(k - 1, Increment(c));
    }
    GrownStep(c, Grow(c, k));
  }

  /** Retries after which the maximum has been reached, from the clamped settings alone. */
  function Saturation(c: Settings): int
    requires Clamped(c)
  {
    IncrementIsLarge(c);
    (c.max - c.default + Increment(c) - 1) / Increment(c)
  }

  lemma CeilingCovers(distance: int, i: int, k: nat)
    requires i > 0 && k >= (distance + i - 1) / i
    ensures k * i >= distance
  {
  }

  lemma SaturatesInTime(c: Settings, k: nat)
    requires Clamped(c) && c.default <= c.max && k >= Saturation(c)
    ensures Grow(c, k) == c.max
  {
    IncrementIsLarge(c);
    GrowsUntilMax(c, k);
    CeilingCovers(c.max - c.default, Increment(c), k);
  }

  /** With a default above the maximum, the first retry and every later one wait the maximum. */
  lemma DefaultAboveMax(c: Settings, k: nat)
    requires Clamped(c) && c.default > c.max && k >= 1
    ensures Grow(c, k) == c.max
  {
  }

  // ---------------------------------------------------------------- closed form

  /** d * x^k */
  function Compounded(d: real, x: real, k: nat): real {
    if k == 0 then d else Compounded(d, x, k - 1) * x
  }

  function Min(a: real, b: real): real {
    if a <= b then a else b
  }

  /** The next wait without truncation. */
  function ExactFrom(max: real, from: real, growth: real): real {
    Min(max, from + growth)
  }

  function ExactNext(max: real, d: real, m: real, before: real): real {
    var from := if before < d then d else before;
    ExactFrom(max, from, from * m)
  }

  function Exact(c: Settings, k: nat): real {
    if k == 0 then c.default as real
    else ExactNext(c.max as real, c.default as real, c.multiplier, Exact(c, k - 1))
  }

  lemma Compound(y: real, m: real)
    requires y > 0.0 && m >= 0.0
    ensures y * (1.0 + m) == y + y * m >= y
  {
  }

  lemma {:induction false} CompoundedGrows(d: real, m: real, k: nat)
    requires d > 0.0 && m >= 0.0
    ensures Compounded(d, 1.0 + m, k) >= d
  {
    if k > 0 {
      CompoundedGrows(d, m, k - 1);
      Compound(Compounded(d, 1.0 + m, k - 1), m);
    }
  }

  lemma ExactNextOfMin(max: real, d: real, m: real, y: real)
    requires 0.0 < d <= y && m >= 0.0
    ensures ExactNext(max, d, m, Min(max, y)) == Min(max, y * (1.0 + m))
  {
  }

  lemma {:induction false} ExactIsCompounded(max: real, d: real, m: real, k: nat)
    requires 0.0 < d && m >= 0.0
    ensures ExactNext(max, d, m, if k == 0 then d else Min(max, Compounded(d, 1.0 + m, k)))
         == Min(max, Compounded(d, 1.0 + m, k + 1))
  {
    CompoundedGrows(d, m, k);
    if k == 0 {
      Compound(d, m);
    } else {
      ExactNextOfMin(max, d, m, Compounded(d, 1.0 + m, k));
    }
  }

  /** In exact arithmetic the k-th retry waits min(Max, Default * (1 + m)^k). */
  lemma {:induction false} ClosedForm(c: Settings, k: nat)
    requires Clamped(c) && k >= 1
    ensures Exact(c, k) == Min(c.max as real, Compounded(c.default as real, 1.0 + c.multiplier, k))
  {
    if k > 1 {
      ClosedForm(c, k - 1);
    }
    ExactIsCompounded(c.max as real, c.default as real, c.multiplier, k - 1);
  }

  lemma TruncatedStep(c: Settings, b: int, e: real)
    requires Clamped(c) && b as real <= e
    ensures Grown(c, b) as real <= ExactNext(c.max as real, c.default as real, c.multiplier, e)
  {
    var from, growth := GrownParts(c, b);
    var from', growth' := ExactParts(c, e);
    SmallerGrows(from as real, growth, from', growth', c.multiplier);
    TruncatedBound(c.max, from, growth, from', growth');
  }

  lemma GrownParts(c: Settings, b: int) returns (from: int, growth: real)
    ensures from == (if b < c.default then c.default else b) && growth == from as real * c.multiplier
    ensures Grown(c, b) == Next(c.max, from, growth)
  {
    from := if b < c.default then c.default else b;
    growth := from as real * c.multiplier;
  }

  lemma ExactParts(c: Settings, e: real) returns (from: real, growth: real)
    ensures from == (if e < c.default as real then c.default as real else e) && growth == from * c.multiplier
    ensures ExactNext(c.max as real, c.default as real, c.multiplier, e) == ExactFrom(c.max as real, from, growth)
  {
    from := if e < c.default as real then c.default as real else e;
    growth := from * c.multiplier;
  }

  lemma SmallerGrows(a: real, growth: real, b: real, growth': real, m: real)
    requires a <= b && m >= 0.0 && growth == a * m && growth' == b * m
    ensures growth <= growth'
  {
  }

  /** Truncating the growth and clamping keeps the order of two waits. */
  lemma TruncatedBound(max: int, b: int, growth: real, e: real, growth': real)
    requires b as real <= e && growth <= growth'
    ensures Next(max, b, growth) as real <= ExactFrom(max as real, e, growth')
  {
  }

  /** Truncation only ever shortens the wait. */
  lemma {:induction false} TruncatedBelowExact(c: Settings, k: nat)
    requires Clamped(c)
    ensures Grow(c, k) as real <= Exact(c, k)
  {
    if k > 0 {
      TruncatedBelowExact(c, k - 1);
      TruncatedStep(c, Grow(c, k - 1), Exact(c, k - 1));
    }
  }
}
