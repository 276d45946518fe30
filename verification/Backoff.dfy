/** Relay configuration and the retry delay, in the 64-bit nanoseconds the program computes with. */
module Backoff {
  import opened Common

  const Second: int := 1_000_000_000
  const Minute: int := 60 * Second
  const Hour: int := 60 * Minute
  const Two62: int := 0x4000_0000_0000_0000
  const Two63: int := 0x8000_0000_0000_0000
  const Two64: int := 0x1_0000_0000_0000_0000

  datatype Config = Config(
    batchSize: int, pollInterval: int, maxAttempts: int, baseBackoff: int, maxBackoff: int, retention: int,
    statsInterval: int)

  /** Zero, negative and inconsistent fields take their defaults; everything else is kept. */
  function WithDefaults(c: Config): (r: Config)
    ensures r.batchSize >= 1 && r.pollInterval > 0 && r.maxAttempts >= 1 && r.retention > 0 && r.statsInterval > 0
    ensures 0 < r.baseBackoff <= r.maxBackoff
    ensures c.baseBackoff > 0 && c.maxBackoff >= c.baseBackoff ==>
              r.baseBackoff == c.baseBackoff && r.maxBackoff == c.maxBackoff
  {
    var base := if c.baseBackoff <= 0 then Second else c.baseBackoff;
    Config(
      if c.batchSize < 1 then 100 else c.batchSize,
      if c.pollInterval <= 0 then Second else c.pollInterval,
      if c.maxAttempts < 1 then 10 else c.maxAttempts,
      base,
      if c.maxBackoff < base then Max(10 * Minute, base) else c.maxBackoff,
      if c.retention <= 0 then 7 * 24 * Hour else c.retention,
      if c.statsInterval <= 0 then 30 * Second else c.statsInterval)
  }

  /** Defaults are settled at once: applying them again changes nothing. */
  lemma DefaultsAreStable(c: Config)
    ensures WithDefaults(WithDefaults(c)) == WithDefaults(c)
  {
  }

  function Pow2(n: nat): (r: nat)
    ensures r >= 1
  {
    if n == 0 then 1 else 2 * Pow2(n - 1)
  }

  /** Two's complement on 64 bits. */
  function Wrap(x: int): (r: int)
    ensures -Two63 <= r < Two63
    ensures -Two63 <= x < Two63 ==> r == x
  {
    (x + Two63) % Two64 - Two63
  }

  /** The delay after at most n doublings, stopping at the ceiling. */
  function Doubled(n: nat, delay: int, ceiling: int): int
    decreases n
  {
    if n == 0 || delay >= ceiling then delay else Doubled(n - 1, Wrap(2 * delay), ceiling)
  }

  /** What the relay waits before the given attempt is retried. */
  function Delay(attempt: int, base: int, ceiling: int): int
  {
    Min(Doubled(if attempt < 1 then 0 else attempt - 1, base, ceiling), ceiling)
  }

  /** What it is documented to wait: the base doubled per attempt, capped at the ceiling. */
  function Documented(attempt: int, base: int, ceiling: int): int
  {
    Min(base * Pow2(if attempt < 1 then 0 else attempt - 1), ceiling)
  }

  /** The largest doubling of base that fits in 63 bits. */
  function Highest(base: int): (r: int)
    requires 0 < base < Two63
    ensures Two62 <= r < Two63
    decreases Two63 - base
  {
    if base >= Two62 then base else Highest(2 * base)
  }

  method Backoff(attempt: int, base: int, ceiling: int) returns (r: int)
    requires -Two63 <= base < Two63
    ensures r == Delay(attempt, base, ceiling)
    ensures 0 < base <= ceiling <= Highest(base) ==> r == Documented(attempt, base, ceiling)
  {
    var delay := base;
    var i := 1;
    while i < attempt && delay < ceiling
      invariant 1 <= i && (attempt >= 1 ==> i <= attempt) && (attempt < 1 ==> delay == base)
      invariant attempt >= 1 ==> Doubled(attempt - i, delay, ceiling) == Doubled(attempt - 1, base, ceiling)
      decreases attempt - i
    {
      delay := Wrap(delay * 2);
      i := i + 1;
    }
    r := Min(delay, ceiling);
    if 0 < base <= ceiling <= Highest(base) {
      DelayIsDocumented(attempt, base, ceiling);
    }
  }

  lemma {:induction false} DoubledIsExact(n: nat, base: int, ceiling: int)
    requires 0 < base < Two63 && ceiling <= Highest(base)
    ensures Min(Doubled(n, base, ceiling), ceiling) == Min(base * Pow2(n), ceiling)
    ensures Doubled(n, base, ceiling) > 0
    decreases n
  {
    if base >= ceiling {
      ScaleMonotone(base, 1, Pow2(n));
    } else if n > 0 {
      assert base < Two62;
      DoubledIsExact(n - 1, 2 * base, ceiling);
      DoubleScale(base, n - 1);
    }
  }

  lemma DoubleScale(base: int, n: nat)
    ensures base * Pow2(n + 1) == 2 * base * Pow2(n)
  {
  }

  lemma ScaleMonotone(base: int, x: int, y: int)
    requires base > 0 && x <= y
    ensures base * x <= base * y
  {
  }

  lemma DelayIsDocumented(attempt: int, base: int, ceiling: int)
    requires 0 < base < Two63 && base <= ceiling <= Highest(base)
    ensures Delay(attempt, base, ceiling) == Documented(attempt, base, ceiling)
  {
    DoubledIsExact(if attempt < 1 then 0 else attempt - 1, base, ceiling);
  }

  /** Until it first passes 2^63 the doubled delay is exact, and the doubling that passes it is
      negative. */
  lemma {:induction false} FirstOverflow(base: int, ceiling: int) returns (n: nat)
    requires 0 < base < Two63 && Highest(base) < ceiling < Two63
    ensures Doubled(n, base, ceiling) < 0 && base * Pow2(n) >= ceiling
    decreases Two63 - base
  {
    if base >= Two62 {
      n := 1;
      assert Doubled(1, base, ceiling) == Wrap(2 * base) == 2 * base - Two64 by {
        assert Doubled(0, Wrap(2 * base), ceiling) == Wrap(2 * base);
      }
      assert Pow2(1) == 2 * Pow2(0);
    } else {
      var m := FirstOverflow(2 * base, ceiling);
      n := m + 1;
      assert Doubled(n, base, ceiling) == Doubled(m, 2 * base, ceiling);
      DoubleScale(base, m);
    }
  }

  /** The delay is the documented one at every attempt exactly when the ceiling is no more than the
      largest doubling of the base that fits; above that some attempt gets a negative delay. */
  lemma ExactIffCeilingFits(base: int, ceiling: int)
    requires 0 < base <= ceiling < Two63
    ensures (forall attempt :: Delay(attempt, base, ceiling) == Documented(attempt, base, ceiling))
            <==> ceiling <= Highest(base)
  {
    if ceiling <= Highest(base) {
      forall attempt ensures Delay(attempt, base, ceiling) == Documented(attempt, base, ceiling) {
        DelayIsDocumented(attempt, base, ceiling);
      }
    } else {
      var n := FirstOverflow(base, ceiling);
      assert Delay(n + 1, base, ceiling) < 0 < Documented(n + 1, base, ceiling);
    }
  }

  /** A ceiling of 2^62 nanoseconds or less always fits. */
  lemma ModestCeilingIsExact(attempt: int, base: int, ceiling: int)
    requires 0 < base <= ceiling <= Two62
    ensures Delay(attempt, base, ceiling) == Documented(attempt, base, ceiling)
  {
    DelayIsDocumented(attempt, base, ceiling);
  }

  lemma {:induction false} PowMonotone(m: nat, n: nat)
    requires m <= n
    ensures Pow2(m) <= Pow2(n)
    decreases n
  {
    if m < n {
      PowMonotone(m, n - 1);
    }
  }

  /** Delays never shrink from one attempt to the next and stay between base and ceiling. */
  lemma DelayGrowsWithinBounds(attempt: int, later: int, base: int, ceiling: int)
    requires 0 < base < Two63 && base <= ceiling <= Highest(base) && attempt <= later
    ensures base <= Delay(attempt, base, ceiling) <= Delay(later, base, ceiling) <= ceiling
  {
    DelayIsDocumented(attempt, base, ceiling);
    DelayIsDocumented(later, base, ceiling);
    var m, n := if attempt < 1 then 0 else attempt - 1, if later < 1 then 0 else later - 1;
    PowMonotone(m, n);
    ScaleMonotone(base, 1, Pow2(m));
    ScaleMonotone(base, Pow2(m), Pow2(n));
  }

  /** No doubling that the loop performs overflows, from any state it can reach. */
  lemma {:induction false} LoopNeverOverflows(n: nat, base: int, ceiling: int)
    requires 0 < base < Two63 && ceiling <= Highest(base)
    ensures n > 0 && Doubled(n - 1, base, ceiling) < ceiling ==> 2 * Doubled(n - 1, base, ceiling) < Two63
    decreases n
  {
    if n > 1 && base < ceiling {
      LoopNeverOverflows(n - 1, 2 * base, ceiling);
    }
  }
}
