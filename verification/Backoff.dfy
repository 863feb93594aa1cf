/** The retry ladder of comm/backoff.py: a doubling ceiling, capped, with the
    random draw taken as an argument.  Floats are real numbers. */
module Backoff {
  import opened Common

  /** Past this attempt number the source does not compute the power at all. */
  const LAST_EXACT_ATTEMPT := 64

  function Pow2(k: nat): (p: real)
    ensures p >= 1.0
  {
    if k == 0 then 1.0 else 2.0 * Pow2(k - 1)
  }

  /** `base` doubled k times: the source's base * 2 ** k. */
  function Doubled(base: real, k: nat): (r: real)
    ensures base > 0.0 ==> r >= base
  {
    if k == 0 then base else 2.0 * Doubled(base, k - 1)
  }

  lemma {:induction false} DoubledIsScaled(base: real, k: nat)
    ensures Doubled(base, k) == base * Pow2(k)
  {
    if k > 0 {
      DoubledIsScaled(base, k - 1);
      ScaleBy2(base, Pow2(k - 1));
    }
  }

  lemma ScaleBy2(x: real, y: real)
    ensures 2.0 * (x * y) == x * (2.0 * y)
    ensures x * (y - 1.0) == x * y - x
  {
  }

  function RetryCeiling(attempt: int, base: real, cap: real): real {
    var a := if attempt < 1 then 1 else attempt;
    if base <= 0.0 then 0.0
    else if a > LAST_EXACT_ATTEMPT then cap
    else Min(cap, Doubled(base, a - 1))
  }

  /** A jitter source that draws from [0, ceiling]. */
  ghost predicate DrawsBelow(jitter: real -> real) {
    forall c: real :: 0.0 < c ==> 0.0 <= jitter(c) <= c
  }

  /** `jitter` stands for the uniform draw: it takes the ceiling and returns the delay. */
  function RetryDelay(attempt: int, base: real, cap: real, jitter: real -> real): (d: real)
    ensures base <= 0.0 || cap <= 0.0 ==> d == 0.0
    ensures 0.0 < RetryCeiling(attempt, base, cap) ==> d == jitter(RetryCeiling(attempt, base, cap))
    ensures DrawsBelow(jitter) && 0.0 <= cap ==> 0.0 <= d <= RetryCeiling(attempt, base, cap)
  {
    var ceiling := RetryCeiling(attempt, base, cap);
    if ceiling <= 0.0 then 0.0 else jitter(ceiling)
  }

  lemma {:induction false} DoubledMonotone(base: real, i: nat, j: nat)
    requires base > 0.0 && i <= j
    ensures 0.0 < Doubled(base, i) <= Doubled(base, j)
  {
    if i < j {
      DoubledMonotone(base, i, j - 1);
    } else if i > 0 {
      DoubledMonotone(base, i - 1, j - 1);
    }
  }

  /** The ladder never goes down, whatever the base and the cap. */
  lemma CeilingMonotone(a: int, b: int, base: real, cap: real)
    requires a <= b
    ensures RetryCeiling(a, base, cap) <= RetryCeiling(b, base, cap)
  {
    var a', b' := if a < 1 then 1 else a, if b < 1 then 1 else b;
    if base > 0.0 && b' <= LAST_EXACT_ATTEMPT {
      DoubledMonotone(base, a' - 1, b' - 1);
    }
  }

  /** It stays at or below the cap exactly when the ladder is on or the cap is not negative. */
  lemma CeilingBelowCap(base: real, cap: real)
    ensures (forall a: int :: RetryCeiling(a, base, cap) <= cap) <==> base > 0.0 || cap >= 0.0
  {
    if base <= 0.0 && cap < 0.0 {
      assert RetryCeiling(1, base, cap) > cap;
    }
  }

  /** Each rung is the previous one doubled and capped, except that the guard at
      attempt 65 jumps straight to the cap, which shows only when 64 doublings
      have not reached it. */
  lemma CeilingDoubles(n: int, base: real, cap: real)
    requires 1 <= n && base > 0.0 && cap >= 0.0
    ensures RetryCeiling(n + 1, base, cap) == Min(cap, 2.0 * RetryCeiling(n, base, cap))
            <==> n != 64 || cap <= Doubled(base, 64)
  {
    if n <= LAST_EXACT_ATTEMPT {
      DoubledMonotone(base, n - 1, n);
    }
  }

  /** The ceilings of the first n retries, added up. */
  function LadderSum(n: nat, base: real, cap: real): real {
    if n == 0 then 0.0 else LadderSum(n - 1, base, cap) + RetryCeiling(n, base, cap)
  }

  lemma {:induction false} LadderSumFlat(n: nat, base: real, cap: real)
    requires base > 0.0
    ensures LadderSum(n, base, cap) <= n as real * cap
  {
    if n > 0 {
      LadderSumFlat(n - 1, base, cap);
      assert n as real * cap == (n - 1) as real * cap + cap;
    }
  }

  lemma {:induction false} LadderSumGeometric(n: nat, base: real, cap: real)
    requires base > 0.0
    requires n <= LAST_EXACT_ATTEMPT || cap <= Doubled(base, LAST_EXACT_ATTEMPT)
    ensures LadderSum(n, base, cap) <= Doubled(base, n) - base
  {
    if n > 0 {
      LadderSumGeometric(n - 1, base, cap);
      if n > LAST_EXACT_ATTEMPT {
        DoubledMonotone(base, LAST_EXACT_ATTEMPT, n - 1);
      }
    }
  }

  lemma {:induction false} LadderSumUncapped(n: nat, base: real, cap: real)
    requires base > 0.0 && n <= LAST_EXACT_ATTEMPT
    requires n > 0 ==> Doubled(base, n - 1) <= cap
    ensures LadderSum(n, base, cap) == Doubled(base, n) - base
  {
    if n > 0 {
      if n > 1 {
        DoubledMonotone(base, n - 2, n - 1);
      }
      LadderSumUncapped(n - 1, base, cap);
    }
  }

  /** The doubling bound on the total holds for every number of retries exactly
      when the cap is within 64 doublings of the base. */
  lemma LadderSumGeometricExactly(base: real, cap: real)
    requires base > 0.0
    ensures (forall n: nat :: LadderSum(n, base, cap) <= Doubled(base, n) - base)
            <==> cap <= Doubled(base, 64)
  {
    if cap <= Doubled(base, LAST_EXACT_ATTEMPT) {
      forall n: nat ensures LadderSum(n, base, cap) <= Doubled(base, n) - base {
        LadderSumGeometric(n, base, cap);
      }
    } else {
      var last := LAST_EXACT_ATTEMPT;
      DoubledMonotone(base, last - 1, last);
      LadderSumUncapped(last, base, cap);
      assert LadderSum(last + 1, base, cap) > Doubled(base, last + 1) - base;
    }
  }

  lemma GeometricIsDoubled(base: real, n: nat)
    ensures base * (Pow2(n) - 1.0) == Doubled(base, n) - base
  {
    DoubledIsScaled(base, n);
    ScaleBy2(base, Pow2(n));
  }

  /** The whole ladder in closed form. */
  lemma LadderSumBound(n: nat, base: real, cap: real)
    requires base > 0.0
    ensures LadderSum(n, base, cap) <= n as real * cap
    ensures n <= 64 ==> LadderSum(n, base, cap) <= base * (Pow2(n) - 1.0)
  {
    LadderSumFlat(n, base, cap);
    if n <= LAST_EXACT_ATTEMPT {
      LadderSumGeometric(n, base, cap);
      GeometricIsDoubled(base, n);
    }
  }

  /** What n retries really wait, each with its own draw. */
  function TotalDelay(draws: seq<real -> real>, base: real, cap: real): real {
    if draws == [] then 0.0
    else
      var n := |draws|;
      TotalDelay(draws[..n - 1], base, cap) + RetryDelay(n, base, cap, draws[n - 1])
  }

  lemma {:induction false} TotalDelayBelowLadder(draws: seq<real -> real>, base: real, cap: real)
    requires base > 0.0 && cap >= 0.0
    requires forall i :: 0 <= i < |draws| ==> DrawsBelow(draws[i])
    ensures 0.0 <= TotalDelay(draws, base, cap) <= LadderSum(|draws|, base, cap)
  {
    if draws != [] {
      TotalDelayBelowLadder(draws[..|draws| - 1], base, cap);
    }
  }

  /** A task that is retried n times is held for at most n * cap seconds in all. */
  lemma TotalHoldFlat(draws: seq<real -> real>, base: real, cap: real)
    requires base > 0.0 && cap >= 0.0
    requires forall i :: 0 <= i < |draws| ==> DrawsBelow(draws[i])
    ensures 0.0 <= TotalDelay(draws, base, cap) <= |draws| as real * cap
  {
    TotalDelayBelowLadder(draws, base, cap);
    var n := |draws|;
    LadderSumFlat(n, base, cap);
    Between(TotalDelay(draws, base, cap), LadderSum(n, base, cap), n as real * cap);
  }

  lemma Between(low: real, middle: real, high: real)
    requires low <= middle <= high
    ensures low <= high
  {
  }

  /** And, up to 64 retries, for at most base * (2^n - 1). */
  lemma TotalHoldGeometric(draws: seq<real -> real>, base: real, cap: real)
    requires base > 0.0 && cap >= 0.0
    requires |draws| <= 64
    requires forall i :: 0 <= i < |draws| ==> DrawsBelow(draws[i])
    ensures 0.0 <= TotalDelay(draws, base, cap) <= base * (Pow2(|draws|) - 1.0)
  {
    TotalDelayBelowLadder(draws, base, cap);
    LadderSumWithin(|draws|, base, cap, TotalDelay(draws, base, cap));
  }

  lemma LadderSumWithin(n: nat, base: real, cap: real, delay: real)
    requires base > 0.0 && n <= LAST_EXACT_ATTEMPT && delay <= LadderSum(n, base, cap)
    ensures delay <= base * (Pow2(n) - 1.0)
  {
    LadderSumBound(n, base, cap);
  }
}
