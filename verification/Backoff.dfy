/**
 ExponentialBackoffCalculator (sdk/couchbase-core/src/retrybesteffort.rs).  Durations are counted in
 nanoseconds; the floating-point power is an exact real, casts and integer widths are those of the source.
 */
module Backoff {
  import opened Wrappers
  import opened Common
  import opened Arithmetic

  const U128_MAX: nat := 0xFFFF_FFFF_FFFF_FFFF_FFFF_FFFF_FFFF_FFFF
  const I32_LIMIT: nat := 0x8000_0000
  const U32_LIMIT: nat := 0x1_0000_0000
  const NANOS_PER_MILLI: nat := 1_000_000

  datatype Calculator = Calculator(min: nat, max: nat, factor: real)

  function Pow(b: real, n: nat): real {
    if n == 0 then 1.0 else b * Pow(b, n - 1)
  }

  /** powi of the attempt number cast to i32: from 2^31 on the exponent is negative. */
  function Powi(b: real, attempts: nat): real
    requires b >= 1.0 && attempts < U32_LIMIT
  {
    PowAtLeastOne(b, if attempts < I32_LIMIT then 0 else U32_LIMIT - attempts);
    if attempts < I32_LIMIT then Pow(b, attempts) else 1.0 / Pow(b, U32_LIMIT - attempts)
  }

  /** The cast of a non-negative float to u128 truncates and saturates. */
  function ToU128(x: real): nat
    requires x >= 0.0
  {
    if x.Floor > U128_MAX then U128_MAX else x.Floor
  }

  /** The part after the power; None is the division by zero. */
  function BackoffOf(c: Calculator, factor: nat): Option<nat> {
    var millis := c.min / NANOS_PER_MILLI;
    if millis == 0 then None
    else if U128_MAX / millis < factor then Some(c.max)
    else
      var val := millis * factor;
      if val > U64_MAX then Some(c.max)
      else
        var backoff := val * NANOS_PER_MILLI;
        var capped := if backoff > c.max then c.max else backoff;
        Some(if capped < c.min then c.min else capped)
  }

  function Backoff(c: Calculator, attempts: nat): Option<nat>
    requires c.factor >= 1.0 && attempts < U32_LIMIT
  {
    PowiNonNegative(c.factor, attempts);
    BackoffOf(c, ToU128(Powi(c.factor, attempts)))
  }

  // ---------------------------------------------------------------- powers

  lemma RealMulAtLeast(x: real, y: real)
    requires x >= 1.0 && y >= 0.0
    ensures x * y >= y
  {
    assert (x - 1.0) * y >= 0.0;
  }

  lemma {:induction false} PowAtLeastOne(b: real, n: nat)
    requires b >= 1.0
    ensures Pow(b, n) >= 1.0
    ensures b > 1.0 && n > 0 ==> Pow(b, n) > 1.0
  {
    if n > 0 {
      PowAtLeastOne(b, n - 1);
      assert b * Pow(b, n - 1) >= b by {
        RealMulAtLeast(Pow(b, n - 1), b);
      }
    }
  }

  lemma {:induction false} PowMonotone(b: real, m: nat, n: nat)
    requires b >= 1.0 && m <= n
    ensures Pow(b, m) <= Pow(b, n)
    decreases n
  {
    if m < n {
      PowMonotone(b, m, n - 1);
      PowAtLeastOne(b, n - 1);
      RealMulAtLeast(b, Pow(b, n - 1));
    }
  }

  lemma ReciprocalBelow(x: real)
    requires x >= 1.0
    ensures 0.0 < 1.0 / x <= 1.0
    ensures x > 1.0 ==> 1.0 / x < 1.0
  {
    var y := 1.0 / x;
    assert x * y == 1.0;
    if y > 1.0 {
      RealMulAtLeast(x, y);
    }
  }

  lemma PowiNonNegative(b: real, attempts: nat)
    requires b >= 1.0 && attempts < U32_LIMIT
    ensures Powi(b, attempts) >= 0.0
  {
    if attempts < I32_LIMIT {
      PowAtLeastOne(b, attempts);
    } else {
      PowAtLeastOne(b, U32_LIMIT - attempts);
      ReciprocalBelow(Pow(b, U32_LIMIT - attempts));
    }
  }

  // ---------------------------------------------------------------- main results

  /** The division by zero: a wait can be computed exactly if the minimum is at least one millisecond. */
  lemma PanicsIffMinBelowOneMilli(c: Calculator, attempts: nat)
    requires c.factor >= 1.0 && attempts < U32_LIMIT
    ensures Backoff(c, attempts).None? <==> c.min < NANOS_PER_MILLI
  {}

  /** No 128-bit or 64-bit step overflows once the guards have passed. */
  lemma NoOverflow(c: Calculator, factor: nat)
    requires c.min >= NANOS_PER_MILLI && U128_MAX / (c.min / NANOS_PER_MILLI) >= factor
    ensures c.min / NANOS_PER_MILLI * factor <= U128_MAX
  {
    var millis := c.min / NANOS_PER_MILLI;
    var q := U128_MAX / millis;
    assert q * millis <= U128_MAX;
    if factor < q {
      MulLess(factor, q, millis);
    }
  }

  /** The result always lies between the minimum and the maximum. */
  lemma StaysInRange(c: Calculator, attempts: nat)
    requires NANOS_PER_MILLI <= c.min <= c.max && c.factor >= 1.0 && attempts < U32_LIMIT
    ensures var r := Backoff(c, attempts); r.Some? && c.min <= r.value <= c.max
  {}

  lemma MonotoneInFactor(c: Calculator, f: nat, g: nat)
    requires NANOS_PER_MILLI <= c.min <= c.max && f <= g
    ensures BackoffOf(c, f).value <= BackoffOf(c, g).value
  {
    var millis := c.min / NANOS_PER_MILLI;
    assert millis * f <= millis * g by {
      if f < g {
        MulLess(f, g, millis);
      }
    }
  }

  /** Waiting times do not decrease with the attempt number below 2^31, across all early returns and clamps. */
  lemma NonDecreasing(c: Calculator, m: nat, n: nat)
    requires NANOS_PER_MILLI <= c.min <= c.max && c.factor >= 1.0 && m <= n < I32_LIMIT
    ensures Backoff(c, m).value <= Backoff(c, n).value
  {
    PowMonotone(c.factor, m, n);
    PowAtLeastOne(c.factor, m);
    assert ToU128(Pow(c.factor, m)) <= ToU128(Pow(c.factor, n));
    MonotoneInFactor(c, ToU128(Pow(c.factor, m)), ToU128(Pow(c.factor, n)));
  }

  /** From 2^31 attempts on the exponent has wrapped and the wait is the minimum again. */
  lemma WrappedExponentGivesMinimum(c: Calculator, attempts: nat)
    requires NANOS_PER_MILLI <= c.min <= c.max && c.factor > 1.0 && I32_LIMIT <= attempts < U32_LIMIT
    ensures Backoff(c, attempts) == Some(c.min)
  {
    var k := U32_LIMIT - attempts;
    PowAtLeastOne(c.factor, k);
    ReciprocalBelow(Pow(c.factor, k));
    assert ToU128(Powi(c.factor, attempts)) == 0;
  }

  /** A power below two gives the minimum, unless the minimum itself does not fit 64 bits of milliseconds. */
  lemma SmallFactorGivesMinimum(c: Calculator, factor: nat)
    requires NANOS_PER_MILLI <= c.min <= c.max && factor <= 1 && c.min / NANOS_PER_MILLI <= U64_MAX
    ensures BackoffOf(c, factor) == Some(c.min)
  {
    var millis := c.min / NANOS_PER_MILLI;
    var q := U128_MAX / millis;
    assert q >= 1;
    assert millis * factor <= millis;
  }

  /** A larger power, or such a minimum, gives more than the minimum if the maximum allows it. */
  lemma LargeFactorGivesMore(c: Calculator, factor: nat)
    requires NANOS_PER_MILLI <= c.min < c.max && (factor >= 2 || c.min / NANOS_PER_MILLI > U64_MAX) && factor >= 1
    ensures BackoffOf(c, factor).Some? && BackoffOf(c, factor).value > c.min
  {
    var millis := c.min / NANOS_PER_MILLI;
    assert millis * factor >= millis && (factor >= 2 ==> millis * factor >= 2 * millis) by {
      MulLess(0, factor, millis);
      if factor >= 2 {
        MulLess(1, factor, millis);
      }
    }
    assert c.min < (millis + 1) * NANOS_PER_MILLI;
  }

  lemma {:induction false} PowOfOne(n: nat)
    ensures Pow(1.0, n) == 1.0
  {
    if n > 0 {
      PowOfOne(n - 1);
    }
  }

  lemma FactorOneIsConstant(c: Calculator, m: nat, n: nat)
    requires c.factor == 1.0 && m < U32_LIMIT && n < U32_LIMIT
    ensures Backoff(c, m) == Backoff(c, n)
  {
    PowOfOne(m);
    PowOfOne(n);
    PowOfOne(if m < I32_LIMIT then 0 else U32_LIMIT - m);
    PowOfOne(if n < I32_LIMIT then 0 else U32_LIMIT - n);
    assert Powi(1.0, m) == 1.0 && Powi(1.0, n) == 1.0;
  }

  /** Before the exponent wraps, exactly when the wait is the minimum. */
  lemma MinimumIff(c: Calculator, m: nat)
    requires NANOS_PER_MILLI <= c.min <= c.max && c.factor >= 1.0 && m < I32_LIMIT
    ensures Backoff(c, m) == Some(c.min) <==>
            c.min == c.max || (Pow(c.factor, m) < 2.0 && c.min / NANOS_PER_MILLI <= U64_MAX)
  {
    var factor := ToU128(Pow(c.factor, m));
    PowAtLeastOne(c.factor, m);
    StaysInRange(c, m);
    assert factor >= 1 && (factor <= 1 <==> Pow(c.factor, m) < 2.0);
    if c.min < c.max {
      if factor <= 1 && c.min / NANOS_PER_MILLI <= U64_MAX {
        SmallFactorGivesMinimum(c, factor);
      } else {
        LargeFactorGivesMore(c, factor);
      }
    }
  }

  /**
   Exactly when a later attempt waits at least as long: before its exponent wraps, after the earlier one's has
   wrapped, if there is nothing to grow, or if the earlier wait had not grown yet.
   */
  lemma NonDecreasingIffNotWrapped(c: Calculator, m: nat, n: nat)
    requires NANOS_PER_MILLI <= c.min <= c.max && c.factor >= 1.0 && m <= n < U32_LIMIT
    ensures Backoff(c, m).value <= Backoff(c, n).value <==>
            n < I32_LIMIT || m >= I32_LIMIT || c.factor == 1.0 || c.min == c.max
            || (Pow(c.factor, m) < 2.0 && c.min / NANOS_PER_MILLI <= U64_MAX)
  {
    StaysInRange(c, m);
    StaysInRange(c, n);
    if c.factor == 1.0 {
      FactorOneIsConstant(c, m, n);
    } else if n < I32_LIMIT {
      NonDecreasing(c, m, n);
    } else {
      WrappedExponentGivesMinimum(c, n);
      if m >= I32_LIMIT {
        WrappedExponentGivesMinimum(c, m);
      } else {
        MinimumIff(c, m);
      }
    }
  }

  /** The first wait is the minimum exactly if the minimum in milliseconds fits 64 bits or is the maximum. */
  lemma FirstWaitIsMinimumIff(c: Calculator)
    requires NANOS_PER_MILLI <= c.min <= c.max && c.factor >= 1.0
    ensures Backoff(c, 0) == Some(c.min) <==> c.min / NANOS_PER_MILLI <= U64_MAX || c.min == c.max
  {
    MinimumIff(c, 0);
  }

  // ---------------------------------------------------------------- the exact wait

  function Min(a: nat, b: nat): nat {
    if a < b then a else b
  }

  /** The whole part of the power, as far as 128 bits go. */
  function Growth(c: Calculator, n: nat): nat
    requires c.factor >= 1.0
  {
    PowAtLeastOne(c.factor, n);
    Min(Pow(c.factor, n).Floor, U128_MAX)
  }

  /** The milliseconds of the minimum times the growth, without any bound. */
  function Grown(c: Calculator, n: nat): nat
    requires c.factor >= 1.0
  {
    c.min / NANOS_PER_MILLI * Growth(c, n)
  }

  /** The product is at least its factors. */
  lemma GrownAtLeast(c: Calculator, n: nat)
    requires c.min >= NANOS_PER_MILLI && c.factor >= 1.0
    ensures Growth(c, n) >= 1 && Grown(c, n) >= Growth(c, n) && Grown(c, n) >= c.min / NANOS_PER_MILLI
  {
    var millis, g := c.min / NANOS_PER_MILLI, Growth(c, n);
    PowAtLeastOne(c.factor, n);
    assert millis * g >= g && millis * g >= millis by {
      MulLess(0, millis, g);
      MulLess(0, g, millis);
    }
  }

  /** A quotient that is too small means that the product is too large. */
  lemma QuotientBelow(millis: nat, g: nat)
    requires millis > 0 && U128_MAX / millis < g
    ensures millis * g > U128_MAX
  {
    var q := U128_MAX / millis;
    assert U128_MAX == q * millis + U128_MAX % millis;
    MulLess(q, g, millis);
  }

  /**
   The wait before the exponent wraps: the grown minimum in whole milliseconds, held between minimum and
   maximum, or the maximum once the milliseconds do not fit 64 bits.
   */
  lemma ExactWait(c: Calculator, n: nat)
    requires NANOS_PER_MILLI <= c.min <= c.max && c.factor >= 1.0 && n < I32_LIMIT
    ensures Backoff(c, n) == Some(
      if Grown(c, n) > U64_MAX then c.max
      else if Grown(c, n) * NANOS_PER_MILLI < c.min then c.min
      else Min(c.max, Grown(c, n) * NANOS_PER_MILLI))
  {
    PowAtLeastOne(c.factor, n);
    assert ToU128(Powi(c.factor, n)) == Growth(c, n);
    if U128_MAX / (c.min / NANOS_PER_MILLI) < Growth(c, n) {
      QuotientBelow(c.min / NANOS_PER_MILLI, Growth(c, n));
    }
  }

  /** For a minimum of whole milliseconds and a maximum below 2^64 - 1 of them: the minimum times the growth, capped. */
  lemma WholeMillisWait(c: Calculator, n: nat)
    requires NANOS_PER_MILLI <= c.min <= c.max && c.factor >= 1.0 && n < I32_LIMIT
    requires c.min % NANOS_PER_MILLI == 0 && c.max / NANOS_PER_MILLI < U64_MAX
    ensures Backoff(c, n) == Some(Min(c.max, c.min * Growth(c, n)))
  {
    var millis, g := c.min / NANOS_PER_MILLI, Growth(c, n);
    ExactWait(c, n);
    GrownAtLeast(c, n);
    assert c.min == millis * NANOS_PER_MILLI;
    assert c.min * g == Grown(c, n) * NANOS_PER_MILLI by {
      MulAssociative(millis, NANOS_PER_MILLI, g);
      MulAssociative(millis, g, NANOS_PER_MILLI);
    }
  }

  lemma {:induction false} PowTwoIsWhole(n: nat) returns (k: nat)
    ensures Pow(2.0, n) == k as real && k >= 1
  {
    if n == 0 {
      k := 1;
    } else {
      var half := PowTwoIsWhole(n - 1);
      k := 2 * half;
    }
  }

  /** With factor two the growth doubles, as far as 128 bits go. */
  lemma GrowthDoubles(c: Calculator, n: nat)
    requires c.factor == 2.0
    ensures Growth(c, n + 1) == Min(2 * Growth(c, n), U128_MAX)
  {
    var k := PowTwoIsWhole(n);
    assert Pow(2.0, n + 1) == (2 * k) as real;
    assert Pow(2.0, n).Floor == k && Pow(2.0, n + 1).Floor == 2 * k;
  }

  lemma CappedDouble(min: nat, max: nat, g: nat, limit: nat)
    requires min >= 1 && max <= limit
    ensures Min(max, min * Min(2 * g, limit)) == Min(max, 2 * Min(max, min * g))
  {
    MulAtLeast(min, 2 * g);
    MulAtLeast(min, limit);
    TwiceProduct(min, g);
  }

  lemma MulAtLeast(a: nat, b: nat)
    requires a >= 1
    ensures a * b >= b
  {
    MulLess(0, a, b);
  }

  lemma TwiceProduct(a: nat, b: nat)
    ensures a * (2 * b) == 2 * (a * b)
  {}

  /** With factor two each wait is twice the one before it, up to the maximum. */
  lemma WaitsDouble(c: Calculator, n: nat)
    requires NANOS_PER_MILLI <= c.min <= c.max && c.factor == 2.0 && n + 1 < I32_LIMIT
    requires c.min % NANOS_PER_MILLI == 0 && c.max / NANOS_PER_MILLI < U64_MAX
    ensures Backoff(c, n + 1) == Some(Min(c.max, 2 * Backoff(c, n).value))
  {
    WholeMillisWait(c, n);
    WholeMillisWait(c, n + 1);
    GrowthDoubles(c, n);
    CappedDouble(c.min, c.max, Growth(c, n), U128_MAX);
  }
}
