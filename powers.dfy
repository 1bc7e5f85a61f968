/** Integer powers of reals: Python's `x ** p` for an integral exponent `p`. */
module Powers {

  /** `x ** n` for a natural exponent: never zero for a non-zero base, positive for a positive one. */
  function NatPow(x: real, n: nat): (r: real)
    ensures x != 0.0 ==> r != 0.0
    ensures x > 0.0 ==> r > 0.0
  {
    if n == 0 then 1.0 else x * NatPow(x, n - 1)
  }

  /** `x ** n`; a zero base with a negative exponent is the caller's ZeroDivisionError. */
  function RealPow(x: real, n: int): real
    requires x != 0.0 || n >= 0
  {
    if n >= 0 then NatPow(x, n) else 1.0 / NatPow(x, -n)
  }

  lemma {:induction false} NatPowOne(n: nat)
    ensures NatPow(1.0, n) == 1.0
  {
    if n > 0 {
      NatPowOne(n - 1);
    }
  }

  /** A positive base stays positive under every power; 1 stays 1. */
  lemma RealPowSign(x: real, n: int)
    requires x != 0.0
    ensures RealPow(x, n) != 0.0
    ensures x > 0.0 ==> RealPow(x, n) > 0.0
    ensures RealPow(1.0, n) == 1.0
  {
    NatPowOne(if n >= 0 then n else -n);
  }

  /** `x ** -n` is the reciprocal of `x ** n`. */
  lemma RealPowNegate(x: real, n: int)
    requires x != 0.0
    ensures RealPow(x, n) != 0.0
    ensures RealPow(x, -n) == 1.0 / RealPow(x, n)
  {
    RealPowSign(x, n);
  }
  /** `x ** (a + b) == x ** a * x ** b` for natural exponents. */
  lemma {:induction false} NatPowAdd(x: real, a: nat, b: nat)
    ensures NatPow(x, a + b) == NatPow(x, a) * NatPow(x, b)
  {
    if a > 0 {
      NatPowAdd(x, a - 1, b);
      assert NatPow(x, a + b) == x * NatPow(x, a - 1 + b);
      RealMulAssociates(x, NatPow(x, a - 1), NatPow(x, b));
    }
  }

  lemma RealMulAssociates(x: real, y: real, z: real)
    ensures x * (y * z) == (x * y) * z
  {
  }

  /** The reciprocal of a product is the product of the reciprocals. */
  lemma ReciprocalOfProduct(a: real, b: real)
    requires a != 0.0 && b != 0.0
    ensures 1.0 / (a * b) == (1.0 / a) * (1.0 / b)
  {
  }

  /** If `c == p * b` then `p == c / b`. */
  lemma DivideOut(c: real, p: real, b: real)
    requires b != 0.0 && c == p * b
    ensures p == c * (1.0 / b)
  {
  }

  /** `a * (1 / (a * q)) == 1 / q`. */
  lemma CancelInReciprocal(a: real, q: real)
    requires a != 0.0 && q != 0.0
    ensures a * (1.0 / (a * q)) == 1.0 / q
  {
  }

  /** Exponents add: `x ** (m + n) == x ** m * x ** n` for every integer `m` and `n`. */
  lemma RealPowAdd(x: real, m: int, n: int)
    requires x != 0.0
    ensures RealPow(x, m + n) == RealPow(x, m) * RealPow(x, n)
  {
    if m >= 0 && n >= 0 {
      NatPowAdd(x, m, n);
    } else if m < 0 && n < 0 {
      RealPowAddNegative(x, m, n);
    } else if m >= 0 {
      RealPowAddMixed(x, m, n);
    } else {
      RealPowAddMixed(x, n, m);
    }
  }

  lemma RealPowAddNegative(x: real, m: int, n: int)
    requires x != 0.0 && m < 0 && n < 0
    ensures RealPow(x, m + n) == RealPow(x, m) * RealPow(x, n)
  {
    var a, b := NatPow(x, -m), NatPow(x, -n);
    NatPowAdd(x, -m, -n);
    assert RealPow(x, m + n) == 1.0 / (a * b);
    ReciprocalOfProduct(a, b);
  }

  lemma RealPowAddMixed(x: real, m: int, n: int)
    requires x != 0.0 && m >= 0 && n < 0
    ensures RealPow(x, m + n) == RealPow(x, m) * RealPow(x, n)
  {
    var a, b := NatPow(x, m), NatPow(x, -n);
    assert RealPow(x, m) * RealPow(x, n) == a * (1.0 / b);
    if m + n >= 0 {
      var c := NatPow(x, m + n);
      NatPowAdd(x, m + n, -n);
      assert a == c * b;
      DivideOut(a, c, b);
    } else {
      var q := NatPow(x, -(m + n));
      NatPowAdd(x, m, -(m + n));
      assert b == a * q;
      CancelInReciprocal(a, q);
    }
  }
}
