/** The integer comparisons in RiskCurve are the real-valued curve, rounded half to even. */
module RiskCurveExact {
  import opened Common
  import opened Powers
  import opened RiskCurve

  function Times(a: nat, b: nat): nat {
    a * b
  }

  /** All that is used of the natural logarithm. */
  ghost predicate IsLogarithm(ln: nat -> real) {
    && ln(1) == 0.0
    && (forall a, b :: a > 0 && b > 0 ==> ln(Times(a, b)) == ln(a) + ln(b))
    && (forall a, b :: 0 < a < b ==> ln(a) < ln(b))
  }

  /** `v` is the unrounded curve at `raw`. Below the knee, v = 45 * (raw/120)^0.7 is the
      non-negative real whose tenth power is 45^10 * (raw/120)^7. */
  ghost predicate IsCurveValue(ln: nat -> real, raw: nat, v: real) {
    if raw == 0 then v == 0.0
    else if raw <= 120 then
      v >= 0.0 && RPow(v, 10) * Pow(120, 7) as real == (Pow(45, 10) * Pow(raw, 7)) as real
    else
      v * ln(1381) == 45.0 * ln(1381) + 55.0 * ln(raw - 119)
  }

  /** Python's round(): to the nearest integer, ties to the even one. */
  ghost predicate RoundsTo(v: real, n: int) {
    && n as real - 0.5 <= v <= n as real + 0.5
    && (v == n as real - 0.5 || v == n as real + 0.5 ==> n % 2 == 0)
  }

  /** Rounding gives at least `m` exactly above m - 1/2, or on it when `m` is even. */
  ghost predicate RoundsToAtLeast(v: real, m: int) {
    v > m as real - 0.5 || (v == m as real - 0.5 && m % 2 == 0)
  }

  lemma RoundingThreshold(v: real, n: int, m: int)
    requires RoundsTo(v, n)
    ensures m <= n <==> RoundsToAtLeast(v, m)
  {
    if m < n {
      assert m as real <= n as real - 1.0;
    } else if m > n {
      assert m as real >= n as real + 1.0;
    }
  }

  lemma LogOfProduct(ln: nat -> real, a: nat, b: nat)
    requires IsLogarithm(ln) && a > 0 && b > 0
    ensures ln(a * b) == ln(a) + ln(b)
  {
    assert ln(Times(a, b)) == ln(a) + ln(b);
  }

  lemma OneMore(e: nat, x: real)
    requires e > 0
    ensures e as real * x == (e - 1) as real * x + x
  {
    assert e as real == (e - 1) as real + 1.0;
  }

  lemma {:induction false} LogOfPower(ln: nat -> real, b: nat, e: nat)
    requires IsLogarithm(ln) && b > 0
    ensures ln(Pow(b, e)) == e as real * ln(b)
  {
    if e == 0 {
    } else {
      LogOfPower(ln, b, e - 1);
      PowPositive(b, e - 1);
      LogOfProduct(ln, b, Pow(b, e - 1));
      OneMore(e, ln(b));
    }
  }

  lemma LogOrder(ln: nat -> real, x: nat, y: nat)
    requires IsLogarithm(ln) && x > 0 && y > 0
    ensures x < y <==> ln(x) < ln(y)
    ensures x == y <==> ln(x) == ln(y)
  {
    if x < y {
    } else if y < x {
    }
  }

  lemma BelowKneeThreshold(ln: nat -> real, raw: nat, v: real, n: nat)
    requires 0 < raw <= KNEE_RAW && n > 0 && IsCurveValue(ln, raw, v)
    ensures Reaches(raw, n) <==> RoundsToAtLeast(v, n)
  {
    var two_v, m := 2.0 * v, 2 * n - 1;
    var k := Pow(KNEE_RAW, 7);
    var value, boundary := Pow(2 * KNEE_SCORE, 10) * Pow(raw, 7), Pow(m, 10) * k;
    PowPositive(KNEE_RAW, 7);
    ScaledTenthPower(v, k, Pow(raw, 7));
    RPowOfInt(m, 10);
    assert boundary as real == RPow(m as real, 10) * k as real;
    RPowOrder(two_v, m as real, 10);
    ScaleOrder(RPow(two_v, 10), RPow(m as real, 10), k as real);
    assert m as real == 2.0 * (n as real - 0.5);
  }

  lemma ScaledTenthPower(v: real, k: nat, p: nat)
    requires RPow(v, 10) * k as real == (Pow(KNEE_SCORE, 10) * p) as real
    ensures RPow(2.0 * v, 10) * k as real == (Pow(2 * KNEE_SCORE, 10) * p) as real
  {
    RPowProduct(2.0, v, 10);
    RPowOfInt(2, 10);
    RPowOfInt(45, 10);
    RPowOfInt(90, 10);
    RPowProduct(2.0, 45.0, 10);
    var two := RPow(2.0, 10);
    assert RPow(2.0 * v, 10) * k as real == two * (RPow(v, 10) * k as real);
    assert two * RPow(45.0, 10) == RPow(90.0, 10);
    assert (Pow(90, 10) * p) as real == Pow(90, 10) as real * p as real;
    assert (Pow(45, 10) * p) as real == Pow(45, 10) as real * p as real;
    assert two * (Pow(45, 10) as real * p as real) == (two * Pow(45, 10) as real) * p as real;
  }

  lemma ScaleOrder(x: real, y: real, k: real)
    requires k > 0.0
    ensures x < y <==> x * k < y * k
    ensures x == y <==> x * k == y * k
  {
    if x < y {
      assert (y - x) * k > 0.0;
    } else if y < x {
      assert (x - y) * k > 0.0;
    }
  }

  lemma PowersByLogs(ln: nat -> real, a: nat, e: nat, b: nat, d: nat)
    requires IsLogarithm(ln) && a > 0 && b > 0
    ensures Pow(a, e) > Pow(b, d) <==> e as real * ln(a) > d as real * ln(b)
    ensures Pow(a, e) == Pow(b, d) <==> e as real * ln(a) == d as real * ln(b)
  {
    LogOfPower(ln, a, e);
    LogOfPower(ln, b, d);
    PowPositive(a, e);
    PowPositive(b, d);
    LogOrder(ln, Pow(b, d), Pow(a, e));
    LogOrder(ln, Pow(a, e), Pow(b, d));
  }

  lemma CurveAlgebra(x: real, l: real, v: real, d: real)
    requires l > 0.0 && v * l == 45.0 * l + 55.0 * x
    ensures 110.0 * x > d * l <==> 2.0 * (v - 45.0) > d
    ensures 110.0 * x == d * l <==> 2.0 * (v - 45.0) == d
  {
    assert (2.0 * (v - 45.0)) * l == 110.0 * x;
    ScaleOrder(d, 2.0 * (v - 45.0), l);
  }

  /** Above the knee, comparing v with n - 1/2 is comparing two powers. */
  lemma AboveKneeLogs(ln: nat -> real, raw: nat, v: real, d: nat)
    requires IsLogarithm(ln) && raw > KNEE_RAW && IsCurveValue(ln, raw, v)
    ensures Pow(raw - 119, 110) > Pow(1381, d) <==> 2.0 * (v - 45.0) > d as real
    ensures Pow(raw - 119, 110) == Pow(1381, d) <==> 2.0 * (v - 45.0) == d as real
  {
    var x, l := ln(raw - 119), ln(1381);
    LogIsPositive(ln, 1381);
    CurveAlgebra(x, l, v, d as real);
    PowersByLogs(ln, raw - 119, 110, 1381, d);
    assert 110 as real * x == 110.0 * x;
  }

  lemma LogIsPositive(ln: nat -> real, a: nat)
    requires IsLogarithm(ln) && a > 1
    ensures ln(a) > 0.0
  {
  }

  lemma AboveKneeThreshold(ln: nat -> real, raw: nat, v: real, n: nat)
    requires IsLogarithm(ln) && raw > KNEE_RAW && n > 0 && IsCurveValue(ln, raw, v)
    ensures Reaches(raw, n) <==> RoundsToAtLeast(v, n)
  {
    var d := 2 * n as int - 91;
    assert d as real == 2.0 * (n as real - 0.5 - 45.0);
    if d < 0 {
      AboveKneeLogs(ln, raw, v, 0);
      PowPositive(raw - 119, 110);
      PowStrict(1, raw - 119, 110);
    } else {
      AboveKneeLogs(ln, raw, v, d);
      assert Reaches(raw, n) <==> AtLeast(Pow(raw - 119, 110), Pow(1381, d), n);
    }
  }

  /** On every raw sum the score is the curve's value rounded half to even, capped at 100. */
  lemma NormalizeIsTheRoundedCurve(ln: nat -> real, raw: nat, v: real, n: int)
    requires IsLogarithm(ln) && IsCurveValue(ln, raw, v) && RoundsTo(v, n)
    ensures Normalize(raw) == Min(n, 100)
  {
    assert v >= 0.0 by {
      if raw > KNEE_RAW {
        var l := ln(1381);
        assert l > 0.0 && (v - 45.0) * l == 55.0 * ln(raw - 119) > 0.0;
        ScaleOrder(0.0, v - 45.0, l);
      }
    }
    assert n >= 0;
    forall m: nat | 0 < m <= 100 ensures Reaches(raw, m) <==> m <= n {
      RoundingThreshold(v, n, m);
      if raw == 0 {
      } else if raw <= KNEE_RAW {
        BelowKneeThreshold(ln, raw, v, m);
      } else {
        AboveKneeThreshold(ln, raw, v, m);
      }
    }
    var s := Normalize(raw);
    HighestIs(raw, 100, 0);
    HighestIs(raw, 100, s);
    HighestIs(raw, 100, Min(n, 100));
  }
}
