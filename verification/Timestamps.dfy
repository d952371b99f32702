/** Seconds or milliseconds: src/server.rs, `maybe_to_ms` and `digit_count`. */
module Timestamps {
  const I64_MIN: int := -0x8000_0000_0000_0000
  const I64_MAX: int := 0x7fff_ffff_ffff_ffff

  type I64 = i: int | -0x8000_0000_0000_0000 <= i <= 0x7fff_ffff_ffff_ffff

  function Abs(n: int): nat {
    if n < 0 then -n else n
  }

  // Floor of the decimal logarithm.
  function Log10(n: nat): nat
    requires n > 0
  {
    if n < 10 then 0 else 1 + Log10(n / 10)
  }

  function DigitCount(n: nat): nat {
    if n == 0 then 1 else Log10(n) + 1
  }

  // When the current time in milliseconds has over two digits more, `ts` is in seconds.
  // The result is the mathematical product; whether it stays in i64 is a lemma.
  function MaybeToMs(ts: I64, nowMs: I64): int {
    var nowDigits := DigitCount(Abs(nowMs));
    var tsDigits := DigitCount(Abs(ts));
    if nowDigits > tsDigits && nowDigits - tsDigits > 2 then ts * 1000 else ts
  }

  function Pow10(k: nat): nat {
    if k == 0 then 1 else 10 * Pow10(k - 1)
  }

  /** A number has d digits exactly when it lies between 10^(d-1) and 10^d. */
  lemma {:induction false} DigitBounds(n: nat)
    requires n > 0
    ensures Pow10(DigitCount(n) - 1) <= n < Pow10(DigitCount(n))
  {
    if n >= 10 {
      DigitBounds(n / 10);
    }
  }

  lemma {:induction false} Pow10Monotone(a: nat, b: nat)
    requires a <= b
    ensures 1 <= Pow10(a) <= Pow10(b)
  {
    if a < b {
      Pow10Monotone(a, b - 1);
    } else if a > 0 {
      Pow10Monotone(a - 1, b - 1);
    }
  }

  lemma {:induction false} TenMoreDigits(n: nat)
    requires n > 0
    ensures DigitCount(10 * n) == DigitCount(n) + 1
  {
    assert 10 * n / 10 == n;
  }

  /** Scaling to milliseconds adds three digits. */
  lemma ScaledDigits(n: nat)
    requires n > 0
    ensures DigitCount(1000 * n) == DigitCount(n) + 3
  {
    TenMoreDigits(n);
    TenMoreDigits(10 * n);
    TenMoreDigits(100 * n);
  }

  lemma Pow10Of18()
    ensures Pow10(18) == 1_000_000_000_000_000_000
  {
    assert Pow10(6) == 1_000_000;
    assert Pow10(12) == 1_000_000 * Pow10(6);
    assert Pow10(18) == 1_000_000 * Pow10(12);
  }

  // Does the heuristic take `ts` for seconds?
  predicate Scales(ts: I64, nowMs: I64) {
    DigitCount(Abs(ts)) + 2 < DigitCount(Abs(nowMs))
  }

  lemma DigitsBelow(n: nat, d: nat)
    requires DigitCount(n) <= d
    ensures n < Pow10(d)
  {
    Pow10Monotone(0, d);
    if n > 0 {
      DigitBounds(n);
      Pow10Monotone(DigitCount(n), d);
    }
  }

  /** A scaled timestamp has fewer digits than one more than the current time. */
  lemma ScaledBound(ts: I64, nowMs: I64)
    requires Scales(ts, nowMs)
    ensures MaybeToMs(ts, nowMs) == 1000 * ts
    ensures Abs(1000 * ts) < Pow10(DigitCount(Abs(nowMs)))
  {
    var n := DigitCount(Abs(nowMs));
    DigitsBelow(Abs(ts), n - 3);
    assert Pow10(n) == 10 * Pow10(n - 1) && Pow10(n - 1) == 10 * Pow10(n - 2) && Pow10(n - 2) == 10 * Pow10(n - 3);
  }

  lemma SixteenDigits()
    ensures DigitCount(9_999_999_999_999_999) == 16
  {
    assert Log10(9_999) == 3;
    assert Log10(99_999_999) == 4 + Log10(9_999);
    assert Log10(999_999_999_999) == 4 + Log10(99_999_999);
    assert Log10(9_999_999_999_999_999) == 4 + Log10(999_999_999_999);
  }

  /** The multiplication never leaves i64, whatever the timestamp, exactly when the current
      time has at most 18 digits. */
  lemma NoOverflowIff(nowMs: I64)
    ensures (forall ts: I64 :: I64_MIN <= MaybeToMs(ts, nowMs) <= I64_MAX) <==> DigitCount(Abs(nowMs)) <= 18
  {
    var n := DigitCount(Abs(nowMs));
    if n <= 18 {
      forall ts: I64
        ensures I64_MIN <= MaybeToMs(ts, nowMs) <= I64_MAX
      {
        if Scales(ts, nowMs) {
          ScaledBound(ts, nowMs);
          Pow10Monotone(n, 18);
          Pow10Of18();
        }
      }
    } else {
      // The largest timestamp of 16 digits.
      var ts: I64 := 9_999_999_999_999_999;
      SixteenDigits();
      assert MaybeToMs(ts, nowMs) > I64_MAX;
    }
  }

  lemma DigitsOf(n: nat, d: nat)
    requires d >= 1 && Pow10(d - 1) <= n < Pow10(d)
    ensures DigitCount(n) == d
  {
    Pow10Monotone(0, d - 1);
    DigitBounds(n);
    if DigitCount(n) < d {
      Pow10Monotone(DigitCount(n), d - 1);
    } else if DigitCount(n) > d {
      Pow10Monotone(d, DigitCount(n) - 1);
    }
  }

  /** The heuristic by magnitude, without counting digits: when the current time lies between
      10^(n-1) and 10^n, exactly the timestamps below 10^(n-3) are scaled, by 1000. */
  lemma ScalesByMagnitude(ts: I64, nowMs: I64, n: nat)
    requires n >= 1 && Pow10(n - 1) <= Abs(nowMs) < Pow10(n)
    ensures MaybeToMs(ts, nowMs) == if n >= 4 && Abs(ts) < Pow10(n - 3) then 1000 * ts else ts
  {
    DigitsOf(Abs(nowMs), n);
    if n >= 4 && DigitCount(Abs(ts)) <= n - 3 {
      DigitsBelow(Abs(ts), n - 3);
    } else if n >= 4 {
      DigitBounds(Abs(ts));
      Pow10Monotone(n - 3, DigitCount(Abs(ts)) - 1);
    }
  }

  /** With the clock standing still, converting twice is converting once exactly when the
      timestamp is zero or has at least N - 5 digits, N being the current time's. */
  lemma IdempotentIff(ts: I64, nowMs: I64)
    requires DigitCount(Abs(nowMs)) <= 18
    ensures I64_MIN <= MaybeToMs(ts, nowMs) <= I64_MAX
    ensures MaybeToMs(MaybeToMs(ts, nowMs), nowMs) == MaybeToMs(ts, nowMs) <==>
            ts == 0 || DigitCount(Abs(ts)) >= DigitCount(Abs(nowMs)) - 5
  {
    NoOverflowIff(nowMs);
    if ts != 0 {
      ScaledDigits(Abs(ts));
      assert Abs(1000 * ts) == 1000 * Abs(ts);
    }
  }
}
