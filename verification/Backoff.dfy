/** The retry delay: base, 2*base, 4*base, ... capped at a maximum, computed by a loop
    over int64 nanoseconds whose doublings wrap around silently. */
module Backoff {

  const TWO_TO_63: int := 0x8000_0000_0000_0000

  type Duration = d: int | -TWO_TO_63 <= d < TWO_TO_63

  function Wrap(x: int): Duration {
    (x + TWO_TO_63) % (2 * TWO_TO_63) - TWO_TO_63
  }

  /** The loop from `d` with `doublings` passes to go. */
  function Doubled(d: Duration, doublings: nat, max: Duration): Duration
    decreases doublings
  {
    if doublings == 0 then (if d > max then max else d)
    else if Wrap(2 * d) >= max then max
    else Doubled(Wrap(2 * d), doublings - 1, max)
  }

  function Delay(attempt: int, base: Duration, max: Duration): Duration {
    Doubled(base, if attempt > 1 then attempt - 1 else 0, max)
  }

  method BackoffDuration(attempt: int, base: Duration, max: Duration) returns (d: Duration)
    ensures d == Delay(attempt, base, max)
    ensures attempt >= 1 && 0 < base <= max && CapFits(base, max) ==> d == Capped(base, attempt - 1, max)
  {
    if attempt >= 1 && 0 < base <= max && CapFits(base, max) {
      DoubledIsCapped(base, attempt - 1, max);
    }
    d := base;
    var i := 1;
    while i < attempt
      invariant attempt >= 1 ==> 1 <= i <= attempt
      invariant attempt < 1 ==> i == 1 && d == base
      invariant attempt >= 1 ==> Doubled(d, attempt - i, max) == Delay(attempt, base, max)
    {
      d := Wrap(2 * d);
      if d >= max {
        return max;
      }
      i := i + 1;
    }
    if d > max {
      return max;
    }
  }

  // ---- What the delay is meant to be ----

  function Pow2(n: nat): (p: nat)
    ensures p >= 1
  {
    if n == 0 then 1 else 2 * Pow2(n - 1)
  }

  function Capped(base: int, doublings: nat, max: int): int {
    if base * Pow2(doublings) < max then base * Pow2(doublings) else max
  }

  /** The first doubling of `d` that reaches the cap still fits an int64. */
  predicate CapFits(d: int, max: int)
    requires 0 < d
    decreases max - d
  {
    if 2 * d >= max then 2 * d < TWO_TO_63 else CapFits(2 * d, max)
  }

  lemma Power(d: int, k: nat)
    requires k > 0
    ensures d * Pow2(k) == (2 * d) * Pow2(k - 1)
  {}

  lemma AtLeast(d: int, k: nat)
    requires d > 0
    ensures d * Pow2(k) >= d
  {
    var p := Pow2(k);
    assert d * p >= d * 1;
  }

  lemma {:induction false} DoubledIsCapped(d: Duration, doublings: nat, max: Duration)
    requires 0 < d && CapFits(d, max)
    ensures Doubled(d, doublings, max) == Capped(d, doublings, max)
    decreases doublings
  {
    if doublings == 0 {
      assert d * Pow2(0) == d;
    } else {
      Power(d, doublings);
      AtLeast(2 * d, doublings - 1);
      if 2 * d < max {
        assert Wrap(2 * d) == 2 * d;
        DoubledIsCapped(2 * d, doublings - 1, max);
        assert Capped(2 * d, doublings - 1, max) == Capped(d, doublings, max);
      } else {
        assert Wrap(2 * d) == 2 * d;
        assert d * Pow2(doublings) >= max;
      }
    }
  }

  /** When the cap does not fit, some number of doublings wraps to a negative delay. */
  lemma {:induction false} SomeDelayWraps(d: Duration, max: Duration) returns (doublings: nat)
    requires 0 < d && 0 < max && !CapFits(d, max)
    ensures Doubled(d, doublings, max) < 0
    decreases max - d
  {
    if 2 * d >= max {
      doublings := 1;
      assert Wrap(2 * d) == 2 * d - 2 * TWO_TO_63;
      assert Doubled(Wrap(2 * d), 0, max) == Wrap(2 * d);
    } else {
      doublings := SomeDelayWraps(2 * d, max);
      assert Wrap(2 * d) == 2 * d;
      doublings := doublings + 1;
    }
  }

  /** All delays are right if and only if the first doubling to reach the cap fits. */
  lemma DelayCorrectExactlyWhen(base: Duration, max: Duration)
    requires 0 < base && 0 < max
    ensures CapFits(base, max)
       <==> forall attempt {:trigger Delay(attempt, base, max)} :: attempt >= 1
              ==> Delay(attempt, base, max) == Capped(base, attempt - 1, max)
  {
    if CapFits(base, max) {
      forall attempt {:trigger Delay(attempt, base, max)} | attempt >= 1
        ensures Delay(attempt, base, max) == Capped(base, attempt - 1, max)
      {
        DoubledIsCapped(base, attempt - 1, max);
      }
    } else {
      var doublings := SomeDelayWraps(base, max);
      AtLeast(base, doublings);
      assert Delay(doublings + 1, base, max) < 0;
    }
  }

  /** Every configuration below 2^62 nanoseconds (146 years) is on the right side. */
  lemma {:induction false} SmallCapsFit(d: int, max: int)
    requires 0 < d <= max < TWO_TO_63 / 2
    ensures CapFits(d, max)
    decreases max - d
  {
    if 2 * d < max {
      SmallCapsFit(2 * d, max);
    }
  }

  /** Later attempts never wait less, and never more than the cap. */
  lemma {:induction false} DelayMonotone(base: Duration, max: Duration, i: int, j: int)
    requires 0 < base <= max && CapFits(base, max) && 1 <= i <= j
    ensures 0 < Delay(i, base, max) <= Delay(j, base, max) <= max
  {
    DoubledIsCapped(base, i - 1, max);
    DoubledIsCapped(base, j - 1, max);
    AtLeast(base, i - 1);
    PowersGrow(base, i - 1, j - 1);
  }

  lemma {:induction false} PowersGrow(base: int, i: nat, j: nat)
    requires 0 < base && i <= j
    ensures base * Pow2(i) <= base * Pow2(j)
    decreases j
  {
    if i < j {
      PowersGrow(base, i, j - 1);
      Power(base, j);
      assert (2 * base) * Pow2(j - 1) == 2 * (base * Pow2(j - 1));
      AtLeast(base, j - 1);
    }
  }
}
