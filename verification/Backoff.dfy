/** Delayed-retry backoff in 64-bit arithmetic (durations in nanoseconds). */
module Backoff {

  const TWO_64: int := 0x1_0000_0000_0000_0000
  const MAX_INT64: int := 0x7FFF_FFFF_FFFF_FFFF
  const SECOND: int := 1_000_000_000

  datatype Policy = Policy(base: int, max: int)

  const DEFAULT := Policy(10 * SECOND, 300 * SECOND)

  /** Two's-complement wrap of an integer to 64 bits. */
  function Wrap64(n: int): (r: int)
    ensures -MAX_INT64 - 1 <= r <= MAX_INT64
  {
    var low := n % TWO_64;
    if low <= MAX_INT64 then low else low - TWO_64
  }

  lemma WrapDiffersByMultiple(n: int) returns (k: int)
    ensures n == Wrap64(n) + k * TWO_64
  {
    k := n / TWO_64 + if n % TWO_64 <= MAX_INT64 then 0 else 1;
  }

  lemma WrapKeepsSmall(n: int)
    requires 0 <= n <= MAX_INT64
    ensures Wrap64(n) == n
  {
  }

  function Pow2(n: nat): (r: nat)
    ensures r >= 1
  {
    if n == 0 then 1 else 2 * Pow2(n - 1)
  }

  /** The left shift of a 64-bit duration. */
  function ShiftLeft(d: int, n: nat): int {
    Wrap64(d * Pow2(n))
  }

  /** The exponential delay before jitter. */
  function Ceiling(p: Policy, attempt: int): int {
    var a := if attempt < 1 then 1 else attempt;
    var d := ShiftLeft(p.base, a - 1);
    if d > p.max || d <= 0 then p.max else d
  }

  /** Equal jitter: half fixed, half scaled by a uniform r in [0, 1), truncated. */
  function Delay(p: Policy, attempt: int, r: real): int {
    var half := Ceiling(p, attempt) / 2;
    half + (r * half as real).Floor
  }

  // ---- The default policy ----

  function Min(a: int, b: int): int {
    if a < b then a else b
  }

  lemma {:induction false} Pow2Adds(m: nat, n: nat)
    ensures Pow2(m + n) == Pow2(m) * Pow2(n)
  {
    if m > 0 {
      Pow2Adds(m - 1, n);
      assert Pow2(m + n) == 2 * Pow2((m - 1) + n);
      assert Pow2(m) * Pow2(n) == 2 * (Pow2(m - 1) * Pow2(n));
    }
  }

  lemma {:induction false} Pow2Monotone(m: nat, n: nat)
    requires m <= n
    ensures Pow2(m) <= Pow2(n)
    decreases n - m
  {
    if m < n {
      Pow2Monotone(m + 1, n);
    }
  }

  /** The powers the argument needs. */
  lemma Pow2Values()
    ensures Pow2(5) == 32 && Pow2(10) == 1024 && Pow2(39) == 549_755_813_888
    ensures Pow2(29) == 536_870_912 && Pow2(64) == TWO_64
  {
    assert Pow2(5) == 32;
    Pow2Adds(5, 5);
    Pow2Adds(10, 10);
    Pow2Adds(20, 5);
    assert Pow2(4) == 16;
    Pow2Adds(25, 4);
    Pow2Adds(29, 10);
    Pow2Adds(39, 25);
  }

  /** The base is an odd-sized part times 2^10. */
  lemma ShiftedBase(n: nat)
    ensures DEFAULT.base * Pow2(n) == 9_765_625 * Pow2(n + 10)
  {
    Pow2Values();
    Pow2Adds(10, n);
    assert DEFAULT.base == 9_765_625 * 1024;
    Regroup(9_765_625, 1024, Pow2(n));
  }

  lemma Regroup(a: int, b: int, c: int)
    ensures (a * b) * c == a * (b * c)
  {
  }

  lemma Distribute(a: int, k: int, f: int, g: int)
    ensures (a - k * f) * g == a * g - k * (f * g)
  {
  }

  /** Wrapping a multiple of a divisor of 2^64 keeps it a multiple. */
  lemma WrapKeepsDivisor(a: int, f: int, g: int) returns (q: int)
    requires f * g == TWO_64
    ensures Wrap64(a * g) == q * g
  {
    var k := WrapDiffersByMultiple(a * g);
    q := a - k * f;
    Distribute(a, k, f, g);
  }

  /** So a wrapped shift of the base keeps its power of two. */
  lemma WrappedValueIsMultiple(n: nat) returns (q: int)
    requires n + 10 <= 64
    ensures ShiftLeft(DEFAULT.base, n) == q * Pow2(n + 10)
  {
    ShiftedBase(n);
    Pow2Adds(64 - (n + 10), n + 10);
    Pow2Values();
    q := WrapKeepsDivisor(9_765_625, Pow2(64 - (n + 10)), Pow2(n + 10));
  }

  lemma PositiveMultipleIsLarge(q: int, g: nat)
    requires q * g > 0
    ensures q * g >= g
  {
    assert q >= 1;
    assert (q - 1) * g >= 0;
    assert (q - 1) * g == q * g - g;
  }

  lemma ShiftOutIsZero(n: nat)
    requires n + 10 >= 64
    ensures ShiftLeft(DEFAULT.base, n) == 0
  {
    ShiftedBase(n);
    Pow2Values();
    Pow2Adds(n + 10 - 64, 64);
    Regroup(9_765_625, Pow2(n + 10 - 64), TWO_64);
    MultipleWrapsToZero(9_765_625 * Pow2(n + 10 - 64));
  }

  lemma MultipleWrapsToZero(k: int)
    ensures Wrap64(k * TWO_64) == 0
  {
    assert (k * TWO_64) % TWO_64 == 0;
  }

  /** Past 29 doublings every outcome of the overflowing shift is zero, negative, or above the cap. */
  lemma OverflowIsHarmless(n: nat)
    requires n >= 29
    ensures ShiftLeft(DEFAULT.base, n) <= 0 || ShiftLeft(DEFAULT.base, n) > DEFAULT.max
  {
    if n + 10 >= 64 {
      ShiftOutIsZero(n);
    } else {
      var q := WrappedValueIsMultiple(n);
      Pow2Values();
      Pow2Monotone(39, n + 10);
      if q * Pow2(n + 10) > 0 {
        PositiveMultipleIsLarge(q, Pow2(n + 10));
      }
    }
  }

  lemma PowerBelow29(n: nat)
    requires n < 29
    ensures Pow2(n) <= 268_435_456
  {
    Pow2Values();
    Pow2Monotone(n + 1, 29);
  }

  lemma SmallShiftIsExact(n: nat)
    requires n < 29
    ensures ShiftLeft(DEFAULT.base, n) == DEFAULT.base * Pow2(n)
  {
    PowerBelow29(n);
    var shifted := DEFAULT.base * Pow2(n);
    assert shifted == 10_000_000_000 * Pow2(n);
    WrapKeepsSmall(shifted);
  }

  /** The capped value of a shift that is exact, and of one that is harmless. */
  lemma CapOfShift(n: nat)
    ensures var d := ShiftLeft(DEFAULT.base, n);
            (if d > DEFAULT.max || d <= 0 then DEFAULT.max else d) == Min(DEFAULT.base * Pow2(n), DEFAULT.max)
  {
    if n < 29 {
      SmallShiftIsExact(n);
    } else {
      OverflowIsHarmless(n);
      Pow2Values();
      Pow2Monotone(5, n);
      assert DEFAULT.base * Pow2(n) == 10_000_000_000 * Pow2(n);
    }
  }

  /** The default delay ceiling is min(10s * 2^(attempt-1), 5m) for every attempt, although the 64-bit
      shift overflows from attempt 31 on. */
  lemma DefaultCeilingIsExact(attempt: int)
    requires attempt >= 1
    ensures Ceiling(DEFAULT, attempt) == Min(10 * SECOND * Pow2(attempt - 1), 300 * SECOND)
  {
    CapOfShift(attempt - 1);
  }

  lemma ScaledByFraction(x: real, r: real)
    requires x >= 0.0 && 0.0 <= r < 1.0
    ensures 0.0 <= r * x <= x
  {
    assert (1.0 - r) * x >= 0.0;
    assert (1.0 - r) * x == x - r * x;
  }

  lemma FloorBetween(x: real, n: int)
    requires 0.0 <= x <= n as real
    ensures 0 <= x.Floor <= n
  {
  }

  lemma JitterBounds(half: nat, r: real)
    requires 0.0 <= r < 1.0
    ensures 0 <= (r * half as real).Floor <= half
  {
    ScaledByFraction(half as real, r);
    FloorBetween(r * half as real, half);
  }

  lemma DelayBounds(p: Policy, attempt: int, r: real)
    requires Ceiling(p, attempt) >= 0 && 0.0 <= r < 1.0
    ensures Ceiling(p, attempt) / 2 <= Delay(p, attempt, r) <= Ceiling(p, attempt)
  {
    JitterBounds(Ceiling(p, attempt) / 2, r);
  }

  /** The delay lies between half the ceiling and the ceiling, for any jitter. */
  lemma DefaultDelayBounds(attempt: int, r: real)
    requires attempt >= 1 && 0.0 <= r < 1.0
    ensures var d := Min(10 * SECOND * Pow2(attempt - 1), 300 * SECOND);
            d / 2 <= Delay(DEFAULT, attempt, r) <= d
  {
    DefaultCeilingIsExact(attempt);
    DelayBounds(DEFAULT, attempt, r);
  }

  // ---- Every other policy ----

  /** The delay the policy means: its base doubled once per earlier attempt, capped. */
  function Intended(p: Policy, attempt: int): int
    requires attempt >= 1
  {
    Min(p.base * Pow2(attempt - 1), p.max)
  }

  /** For every positive base and every 64-bit cap, the computed ceiling of an attempt is the intended one exactly
      when the doubled base fits 64 bits, or its wrapped value happens to be zero, negative or not below the
      cap. */
  lemma CeilingIsExactIff(p: Policy, attempt: int)
    requires p.base > 0 && p.max <= MAX_INT64 && attempt >= 1
    ensures var e := p.base * Pow2(attempt - 1);
            Ceiling(p, attempt) == Intended(p, attempt) <==> e <= MAX_INT64 || !(0 < Wrap64(e) < p.max)
  {
    var e := p.base * Pow2(attempt - 1);
    PositiveProduct(p.base, Pow2(attempt - 1));
    CappedIsExactIff(e, p.max);
  }

  lemma PositiveProduct(a: int, b: int)
    requires a >= 1 && b >= 1
    ensures a * b >= 1 && a * b >= b
  {
    assert (a - 1) * b >= 0;
    assert (a - 1) * b == a * b - b;
  }

  lemma CappedIsExactIff(e: int, max: int)
    requires e >= 1 && max <= MAX_INT64
    ensures var d := Wrap64(e);
            (if d > max || d <= 0 then max else d) == Min(e, max) <==> e <= MAX_INT64 || !(0 < d < max)
  {
    if e <= MAX_INT64 {
      WrapKeepsSmall(e);
    } else {
      WrapIsBelow(e);
    }
  }

  lemma WrapIsBelow(e: int)
    requires e > MAX_INT64
    ensures Wrap64(e) < e
  {
  }

  /** What a worker can check of its settings: if the base still fits 64 bits when doubled for the last retry,
      every retry waits between half the intended delay and the intended delay. */
  lemma FittingPolicyIsExact(p: Policy, maxRetries: nat, attempt: int, r: real)
    requires p.base > 0 && 1 <= attempt <= maxRetries && p.base * Pow2(maxRetries - 1) <= MAX_INT64
    requires 0 < p.max <= MAX_INT64 && 0.0 <= r < 1.0
    ensures Ceiling(p, attempt) == Intended(p, attempt)
    ensures Intended(p, attempt) / 2 <= Delay(p, attempt, r) <= Intended(p, attempt)
  {
    Pow2Monotone(attempt - 1, maxRetries - 1);
    ScalesMonotonically(p.base, Pow2(attempt - 1), Pow2(maxRetries - 1));
    CeilingIsExactIff(p, attempt);
    PositiveProduct(p.base, Pow2(attempt - 1));
    DelayBounds(p, attempt, r);
  }

  /** An attempt below one waits like the first. */
  lemma EarlyAttemptsWaitLikeTheFirst(p: Policy, attempt: int, r: real)
    requires attempt < 1
    ensures Delay(p, attempt, r) == Delay(p, 1, r)
  {
  }

  /** The jitter spreads evenly: the k-th of the equal parts of [0, 1), as many as half the intended delay has
      nanoseconds, adds exactly k to that half. */
  lemma JitterSpreadsEvenly(p: Policy, attempt: int, k: nat)
    requires p.base > 0 && p.max <= MAX_INT64 && attempt >= 1
    requires var e := p.base * Pow2(attempt - 1); e <= MAX_INT64 || !(0 < Wrap64(e) < p.max)
    requires k < Intended(p, attempt) / 2
    ensures var half := Intended(p, attempt) / 2; Delay(p, attempt, k as real / half as real) == half + k
  {
    CeilingIsExactIff(p, attempt);
    PartOfWhole(k, Intended(p, attempt) / 2);
  }

  lemma PartOfWhole(k: nat, n: nat)
    requires k < n
    ensures 0.0 <= k as real / n as real < 1.0 && ((k as real / n as real) * n as real).Floor == k
  {
    var r := k as real / n as real;
    assert r * n as real == k as real;
    assert n as real > 0.0 && k as real < n as real;
    QuotientBelowOne(k as real, n as real);
  }

  lemma QuotientBelowOne(x: real, y: real)
    requires 0.0 <= x < y
    ensures 0.0 <= x / y < 1.0
  {
  }

  lemma ScalesMonotonically(a: int, b: int, c: int)
    requires a >= 0 && b <= c
    ensures a * b <= a * c
  {
    assert a * (c - b) >= 0;
    assert a * (c - b) == a * c - a * b;
  }

  /** Where the base does not fit the delay can be too short: this policy's 32nd attempt waits about half its cap. */
  lemma OtherPolicyWrapsBelowItsCeiling()
    ensures var p := Policy(0x2_0000_0001, 0x4_0000_0000);
            && p.base * Pow2(31) > MAX_INT64
            && Ceiling(p, 32) == 0x8000_0000 && Intended(p, 32) == p.max && Ceiling(p, 32) < p.max
  {
    Pow2Values();
    Pow2Adds(29, 2);
    assert Pow2(31) == 0x8000_0000;
    var p := Policy(0x2_0000_0001, 0x4_0000_0000);
    assert p.base * Pow2(31) == 0x8000_0000 + TWO_64;
    assert (0x8000_0000 + TWO_64) % TWO_64 == 0x8000_0000;
  }
}
