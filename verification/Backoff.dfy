/** The exponential backoff delays in int64 nanoseconds. */
module Backoff {
  import opened Numerals

  const SECOND := 1_000_000_000

  function Pow2(n: nat): nat {
    if n == 0 then 1 else 2 * Pow2(n - 1)
  }

  /** The delay requested before attempt `a`: starts at one second and doubles, wrapping as int64 does. */
  function Delay(a: nat): int64
    requires a >= 1
  {
    if a == 1 then SECOND else WrapInt64(2 * Delay(a - 1))
  }

  /** The sum of the delays requested before attempts 1 to `retries`. */
  function TotalDelay(retries: nat): int {
    if retries == 0 then 0 else TotalDelay(retries - 1) + Delay(retries)
  }

  lemma {:induction false} Pow2Monotone(m: nat, n: nat)
    requires m <= n
    ensures Pow2(m) <= Pow2(n)
  {
    if m < n { Pow2Monotone(m, n - 1); }
  }

  lemma Pow2Values()
    ensures Pow2(33) == 0x2_0000_0000 && Pow2(34) == 0x4_0000_0000 && Pow2(55) == 0x80_0000_0000_0000
  {
    assert Pow2(8) == 0x100;
    assert Pow2(16) == 0x1_0000;
    assert Pow2(24) == 0x100_0000;
    assert Pow2(32) == 0x1_0000_0000;
    assert Pow2(40) == 0x100_0000_0000;
    assert Pow2(48) == 0x1_0000_0000_0000;
  }

  lemma WrapSmall(v: int)
    requires -TWO63 <= v < TWO63
    ensures WrapInt64(v) == v
  {}

  lemma WrapDouble(v: int)
    ensures WrapInt64(2 * WrapInt64(v)) == WrapInt64(2 * v)
  {
    var k := v / TWO64 + (if v % TWO64 < TWO63 then 0 else 1);
    assert WrapInt64(v) == v - k * TWO64;
    assert (2 * v - (2 * k) * TWO64) % TWO64 == (2 * v) % TWO64;
  }

  /** The delay before attempt `a` is 2^(a-1) seconds, reduced as int64 arithmetic reduces it. */
  lemma {:induction false} DelayIsWrappedPower(a: nat)
    requires a >= 1
    ensures Delay(a) == WrapInt64(SECOND * Pow2(a - 1))
  {
    if a == 1 {
      WrapSmall(SECOND);
    } else {
      DelayIsWrappedPower(a - 1);
      WrapDouble(SECOND * Pow2(a - 2));
      assert SECOND * Pow2(a - 1) == 2 * (SECOND * Pow2(a - 2));
    }
  }

  /** The doubling is exact through attempt 34 and falls short of it from attempt 35 on. */
  lemma DelayExactIff(a: nat)
    requires a >= 1
    ensures Delay(a) == SECOND * Pow2(a - 1) <==> a <= 34
    ensures Delay(a) <= SECOND * Pow2(a - 1)
  {
    DelayIsWrappedPower(a);
    Pow2Values();
    if a <= 34 {
      Pow2Monotone(a - 1, 33);
      WrapSmall(SECOND * Pow2(a - 1));
    } else {
      Pow2Monotone(34, a - 1);
    }
  }

  /** The whole backoff asks for 2^retries - 1 seconds iff MaxRetries is at most 34. */
  lemma {:induction false} TotalDelayExactIff(retries: nat)
    ensures TotalDelay(retries) == SECOND * (Pow2(retries) - 1) <==> retries <= 34
    ensures TotalDelay(retries) <= SECOND * (Pow2(retries) - 1)
  {
    if retries > 0 {
      TotalDelayExactIff(retries - 1);
      DelayExactIff(retries);
      assert SECOND * (Pow2(retries) - 1) == SECOND * (Pow2(retries - 1) - 1) + SECOND * Pow2(retries - 1);
    }
  }

  lemma {:induction false} Pow2Sum(m: nat, n: nat)
    ensures Pow2(m + n) == Pow2(m) * Pow2(n)
  {
    if n > 0 { Pow2Sum(m, n - 1); }
  }

  lemma Pow2Positive(n: nat)
    ensures Pow2(n) > 0
  {
    Pow2Monotone(0, n);
  }

  /** A second is 1953125 times 2^9 nanoseconds, so the delay before attempt `a` is 1953125 shifted left. */
  lemma DelayIsShift(a: nat)
    requires 35 <= a <= 55
    ensures Delay(a) == WrapInt64(1953125 * Pow2(a + 8)) && Pow2(a + 8) * Pow2(55 - a) == TWO63
  {
    DelayIsWrappedPower(a);
    SecondShifted(a - 1);
    ShiftComplement(a + 8);
  }

  lemma SecondShifted(n: nat)
    ensures SECOND * Pow2(n) == 1953125 * Pow2(n + 9)
  {
    Pow2Sum(n, 9);
    assert Pow2(9) == 512;
    ShiftFactor(Pow2(n));
  }

  lemma ShiftFactor(p: nat)
    ensures SECOND * p == 1953125 * (p * 512)
  {}

  lemma ShiftComplement(n: nat)
    requires n <= 63
    ensures Pow2(n) * Pow2(63 - n) == TWO63
  {
    Pow2Sum(n, 63 - n);
    Pow2Values();
    Pow2Sum(55, 8);
    assert Pow2(8) == 256;
  }

  lemma WrapSign(h: nat, r: int)
    requires 0 <= r < TWO63
    ensures WrapInt64(h * TWO63 + r) < 0 <==> h % 2 == 1
  {
    var k := h / 2;
    assert h * TWO63 + r == k * TWO64 + (h % 2) * TWO63 + r;
    WrapShift(k, (h % 2) * TWO63 + r);
  }

  lemma WrapShift(k: int, v: int)
    requires 0 <= v < TWO64
    ensures WrapInt64(k * TWO64 + v) == if v < TWO63 then v else v - TWO64
  {
    assert (k * TWO64 + v) % TWO64 == v;
  }

  lemma ShiftSplits(x: nat, unit: nat, q: nat)
    requires unit * q == TWO63 && q > 0
    ensures x * unit == (x / q) * TWO63 + (x % q) * unit && 0 <= (x % q) * unit < TWO63
  {
    assert x == (x / q) * q + x % q;
    assert x * unit == ((x / q) * q + x % q) * unit == (x / q) * (q * unit) + (x % q) * unit;
    assert (x % q) * unit <= (q - 1) * unit == TWO63 - unit;
  }

  /** Attempts 35 to 55: the wrapped delay is negative, so that the retry does not wait at all, exactly
      where 1953125 has a one at binary position 55 - a. */
  lemma LateDelaySign(a: nat)
    requires 35 <= a <= 55
    ensures Pow2(55 - a) > 0
    ensures Delay(a) < 0 <==> (1953125 / Pow2(55 - a)) % 2 == 1
  {
    Pow2Positive(55 - a);
    Pow2Positive(a + 8);
    DelayIsShift(a);
    ShiftSplits(1953125, Pow2(a + 8), Pow2(55 - a));
    WrapSign(1953125 / Pow2(55 - a), (1953125 % Pow2(55 - a)) * Pow2(a + 8));
  }

  lemma DelayOf56()
    ensures Delay(56) == 0
  {
    Pow2Values();
    DelayIsWrappedPower(56);
    WrapMultiple(1953125);
  }

  lemma WrapMultiple(k: int)
    ensures WrapInt64(k * TWO64) == 0
  {}

  /** From retry 56 on the requested delay is zero. */
  lemma {:induction false} LateRetriesDoNotWait(a: nat)
    requires a >= 56
    ensures Delay(a) == 0
  {
    if a == 56 { DelayOf56(); } else { LateRetriesDoNotWait(a - 1); }
  }
}
