/** Integer and real powers, as far as the risk curve needs them. */
module Powers {

  function Pow(b: nat, e: nat): nat {
    if e == 0 then 1 else b * Pow(b, e - 1)
  }

  function RPow(x: real, e: nat): real {
    if e == 0 then 1.0 else x * RPow(x, e - 1)
  }

  lemma {:induction false} PowPositive(b: nat, e: nat)
    requires b > 0
    ensures Pow(b, e) > 0
  {
    if e == 0 {
    } else {
      PowPositive(b, e - 1);
    }
  }

  lemma {:induction false} PowMonotone(a: nat, b: nat, e: nat)
    requires a <= b
    ensures Pow(a, e) <= Pow(b, e)
  {
    if e == 0 {
    } else {
      PowMonotone(a, b, e - 1);
      MulMonotone(a, b, Pow(a, e - 1), Pow(b, e - 1));
    }
  }

  lemma {:induction false} PowStrict(a: nat, b: nat, e: nat)
    requires a < b && e > 0
    ensures Pow(a, e) < Pow(b, e)
  {
    PowMonotone(a, b, e - 1);
    PowPositive(b, e - 1);
    MulMonotone(a, a, Pow(a, e - 1), Pow(b, e - 1));
    assert a * Pow(b, e - 1) < b * Pow(b, e - 1);
  }

  lemma {:induction false} PowAdd(b: nat, m: nat, n: nat)
    ensures Pow(b, m + n) == Pow(b, m) * Pow(b, n)
  {
    if m > 0 {
      PowAdd(b, m - 1, n);
      MulAssociates(b, Pow(b, m - 1), Pow(b, n));
    }
  }

  lemma {:induction false} PowPow(b: nat, m: nat, n: nat)
    ensures Pow(b, m * n) == Pow(Pow(b, m), n)
  {
    if n == 0 {
    } else {
      PowPow(b, m, n - 1);
      PowAdd(b, m, m * (n - 1));
      assert m * n == m + m * (n - 1);
    }
  }

  lemma {:induction false} ExponentMonotone(b: nat, m: nat, n: nat)
    requires b > 0 && m <= n
    ensures Pow(b, m) <= Pow(b, n)
  {
    if m < n {
      ExponentMonotone(b, m, n - 1);
      MulMonotone(1, b, Pow(b, n - 1), Pow(b, n - 1));
    }
  }

  lemma {:induction false} ExponentStrict(b: nat, m: nat, n: nat)
    requires b > 1 && m < n
    ensures Pow(b, m) < Pow(b, n)
  {
    ExponentMonotone(b, m, n - 1);
    PowPositive(b, n - 1);
    assert b * Pow(b, n - 1) > Pow(b, n - 1);
  }

  lemma MulMonotone(a: nat, b: nat, x: nat, y: nat)
    requires a <= b && x <= y
    ensures a * x <= b * y
  {
    assert a * x <= a * y;
    assert a * y <= b * y;
  }

  lemma MulAssociates(a: nat, b: nat, c: nat)
    ensures a * b * c == a * (b * c)
  {
  }

  // ---- Reals ----

  lemma {:induction false} RPowOfInt(b: nat, e: nat)
    ensures RPow(b as real, e) == Pow(b, e) as real
  {
    if e == 0 {
    } else {
      RPowOfInt(b, e - 1);
      assert (b * Pow(b, e - 1)) as real == b as real * Pow(b, e - 1) as real;
    }
  }

  lemma {:induction false} RPowProduct(x: real, y: real, e: nat)
    ensures RPow(x * y, e) == RPow(x, e) * RPow(y, e)
  {
    if e == 0 {
    } else {
      var p, q := RPow(x, e - 1), RPow(y, e - 1);
      calc {
        RPow(x * y, e);
        (x * y) * RPow(x * y, e - 1);
        { RPowProduct(x, y, e - 1); }
        (x * y) * (p * q);
        (x * p) * (y * q);
        RPow(x, e) * RPow(y, e);
      }
    }
  }

  lemma {:induction false} RPowNonNegative(x: real, e: nat)
    requires x >= 0.0
    ensures RPow(x, e) >= 0.0
    ensures x > 0.0 ==> RPow(x, e) > 0.0
  {
    if e == 0 {
    } else {
      RPowNonNegative(x, e - 1);
    }
  }

  lemma {:induction false} RPowStrict(x: real, y: real, e: nat)
    requires 0.0 <= x < y && e > 0
    ensures RPow(x, e) < RPow(y, e)
  {
    RPowNonNegative(x, e - 1);
    RPowNonNegative(y, e - 1);
    if e > 1 {
      RPowStrict(x, y, e - 1);
    }
    assert x * RPow(x, e - 1) <= x * RPow(y, e - 1);
    assert x * RPow(y, e - 1) < y * RPow(y, e - 1);
  }

  /** On non-negative reals, comparing tenth powers is comparing. */
  lemma RPowOrder(x: real, y: real, e: nat)
    requires x >= 0.0 && y >= 0.0 && e > 0
    ensures x < y <==> RPow(x, e) < RPow(y, e)
    ensures x == y <==> RPow(x, e) == RPow(y, e)
  {
    if x < y {
      RPowStrict(x, y, e);
    } else if y < x {
      RPowStrict(y, x, e);
    }
  }
}
