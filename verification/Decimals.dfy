/**
 Decimal numbers as Python's default context rounds them: 28 significant digits, half to even, exponents
 from -999999 to 999999. The arithmetic under backend/app/services/payment_service.py.
 */
module Decimals {
  import opened Wrappers

  const PRECISION := 28
  const E_TINY := -1000026
  const E_TOP := 999972

  // ---------- Powers of ten ----------

  function Pow10(n: nat): (r: int)
    ensures r > 0
  {
    if n == 0 then 1 else 10 * Pow10(n - 1)
  }

  lemma {:induction false} PowAdd(a: nat, b: nat)
    ensures Pow10(a + b) == Pow10(a) * Pow10(b)
    decreases a
  {
    if a > 0 {
      PowAdd(a - 1, b);
      assert 10 * Pow10(a - 1) * Pow10(b) == 10 * (Pow10(a - 1) * Pow10(b));
    }
  }

  lemma PowGrows(a: nat, b: nat)
    requires a <= b
    ensures Pow10(a) <= Pow10(b)
  {
    PowAdd(a, b - a);
    AtLeastOnce(Pow10(a), Pow10(b - a));
  }

  lemma AtLeastOnce(x: int, y: int)
    requires x > 0 && y > 0
    ensures x <= x * y
  {
  }

  lemma Cancel(x: int, y: int, p: int)
    requires p > 0
    ensures x * p == y * p <==> x == y
  {
  }

  // ---------- Values ----------

  /** The number coefficient times ten to the exponent. */
  datatype Dec = Dec(coefficient: nat, exponent: int)

  /** A number counted in units of ten to the `k`. */
  function At(a: Dec, k: int): int
    requires k <= a.exponent
  {
    a.coefficient * Pow10(a.exponent - k)
  }

  /** Two representations of one number. */
  predicate Same(a: Dec, b: Dec) {
    if a.exponent >= b.exponent then At(a, b.exponent) == b.coefficient else a.coefficient == At(b, a.exponent)
  }

  lemma AtLower(a: Dec, j: int, k: int)
    requires k <= j <= a.exponent
    ensures At(a, k) == At(a, j) * Pow10(j - k)
  {
    PowAdd(a.exponent - j, j - k);
    Associate(a.coefficient, Pow10(a.exponent - j), Pow10(j - k));
  }

  lemma Associate(x: int, y: int, z: int)
    ensures x * (y * z) == (x * y) * z
  {
  }

  /** Two numbers are the same when their counts of any small enough unit are. */
  lemma SameAt(a: Dec, b: Dec, k: int)
    requires k <= a.exponent && k <= b.exponent
    ensures Same(a, b) <==> At(a, k) == At(b, k)
  {
    if a.exponent >= b.exponent {
      AtLower(a, b.exponent, k);
      Cancel(At(a, b.exponent), b.coefficient, Pow10(b.exponent - k));
    } else {
      AtLower(b, a.exponent, k);
      Cancel(a.coefficient, At(b, a.exponent), Pow10(a.exponent - k));
    }
  }

  function Least(a: Dec, b: Dec): int {
    if a.exponent <= b.exponent then a.exponent else b.exponent
  }

  lemma SameSubstitutes(a: Dec, b: Dec, c: Dec)
    requires Same(a, b)
    ensures Same(b, a) && (Same(a, c) <==> Same(b, c))
  {
    var k := if Least(a, b) <= c.exponent then Least(a, b) else c.exponent;
    SameAt(a, b, k);
    SameAt(b, a, k);
    SameAt(a, c, k);
    SameAt(b, c, k);
  }

  // ---------- Digits ----------

  /** How many decimal digits a number has. */
  function Size(n: nat): nat {
    if n < 10 then 1 else 1 + Size(n / 10)
  }

  /** How many zeroes a positive number ends with. */
  function TrailingZeroes(n: nat): nat
    requires n > 0
  {
    if n % 10 == 0 then 1 + TrailingZeroes(n / 10) else 0
  }

  lemma {:induction false} SizeBounds(n: nat)
    requires n > 0
    ensures Size(n) > 0 && Pow10(Size(n) - 1) <= n < Pow10(Size(n))
    decreases n
  {
    if n < 10 {
      assert Pow10(1) == 10 * Pow10(0);
    } else {
      SizeBounds(n / 10);
    }
  }

  lemma {:induction false} ShiftedSize(n: nat, k: nat)
    requires n > 0
    ensures n * Pow10(k) > 0
    ensures Size(n * Pow10(k)) == Size(n) + k && TrailingZeroes(n * Pow10(k)) == TrailingZeroes(n) + k
    decreases k
  {
    if k > 0 {
      ShiftedSize(n, k - 1);
      var m := n * Pow10(k - 1);
      assert n * Pow10(k) == 10 * m by {
        Associate(n, 10, Pow10(k - 1));
        Associate(10, n, Pow10(k - 1));
      }
    } else {
      assert Pow10(0) == 1;
    }
  }

  /** Powers of ten divide a number up to its trailing zeroes. */
  lemma {:induction false} DividesUpTo(n: nat, k: nat)
    requires n > 0
    ensures n % Pow10(k) == 0 <==> k <= TrailingZeroes(n)
    decreases k
  {
    if k > 0 {
      var p := Pow10(k - 1);
      assert Pow10(k) == 10 * p;
      SplitDivision(n, p);
      if n % 10 == 0 {
        DividesUpTo(n / 10, k - 1);
      }
    }
  }

  lemma SplitDivision(n: nat, p: int)
    requires p > 0
    ensures n % (10 * p) == 0 <==> n % 10 == 0 && (n / 10) % p == 0
  {
    var t, r := n / 10, n % 10;
    var q, s := t / p, t % p;
    Unique(n, 10 * p, q, 10 * s + r);
  }

  /** Division with remainder has one answer. */
  lemma Unique(n: int, d: int, q: int, r: int)
    requires d > 0 && 0 <= r < d && n == q * d + r
    ensures n / d == q && n % d == r
  {
    var q', r' := n / d, n % d;
    assert (q - q') * d == r' - r;
    if q != q' {
      BigMultiple(q - q', d);
    }
  }

  lemma BigMultiple(k: int, d: int)
    requires d > 0 && k != 0
    ensures k * d >= d || k * d <= -d
  {
  }

  // ---------- Rounding ----------

  /** The unit the context keeps: 28 digits down from the leading one, but never below the smallest. */
  function Unit(a: Dec): int {
    var u := a.exponent + Size(a.coefficient) - PRECISION;
    if u < E_TINY then E_TINY else u
  }

  /** n divided by p to the nearest whole number, a tie going to the even one. */
  function HalfEven(n: nat, p: int): nat
    requires p > 0
  {
    var q, r := n / p, n % p;
    if 2 * r > p || (2 * r == p && q % 2 == 1) then q + 1 else q
  }

  /** The number as the context stores it; nothing if it is too large. */
  function Rounded(a: Dec): Option<Dec> {
    var u := Unit(a);
    if u > E_TOP then None
    else if a.exponent >= u then Some(a)
    else
      var q := HalfEven(a.coefficient, Pow10(u - a.exponent));
      if q < Pow10(PRECISION) then Some(Dec(q, u))
      else if u + 1 > E_TOP then None
      else Some(Dec(q / 10, u + 1))
  }

  /** No digit lies below the unit the context keeps. */
  predicate Kept(a: Dec) {
    Unit(a) <= a.exponent || a.coefficient % Pow10(Unit(a) - a.exponent) == 0
  }

  /** In plain terms: at most 28 significant digits, none of them below the smallest unit. */
  lemma KeptMeaning(a: Dec)
    requires a.coefficient > 0
    ensures Kept(a) <==> Size(a.coefficient) - TrailingZeroes(a.coefficient) <= PRECISION
                         && E_TINY <= a.exponent + TrailingZeroes(a.coefficient)
  {
    if Unit(a) > a.exponent {
      DividesUpTo(a.coefficient, Unit(a) - a.exponent);
    }
  }

  /** A quotient rounded to at most ten to the 28: when it reaches that bound it is a one and 28 zeroes. */
  lemma QuotientFits(a: Dec)
    requires a.coefficient > 0 && Unit(a) > a.exponent
    ensures var p := Pow10(Unit(a) - a.exponent);
      && a.coefficient / p < Pow10(PRECISION)
      && HalfEven(a.coefficient, p) <= Pow10(PRECISION)
  {
    var d, k := Size(a.coefficient), Unit(a) - a.exponent;
    SizeBounds(a.coefficient);
    PowGrows(d, k + PRECISION);
    PowAdd(PRECISION, k);
    QuotientBelow(a.coefficient, Pow10(k), Pow10(PRECISION));
  }

  lemma QuotientBelow(n: nat, p: int, bound: int)
    requires p > 0 && n < bound * p
    ensures n / p < bound
  {
    if n / p >= bound {
      assert n / p * p >= bound * p by { MulGrows(bound, n / p, p); }
      assert false;
    }
  }

  lemma MulGrows(x: int, y: int, p: int)
    requires x <= y && p > 0
    ensures x * p <= y * p
  {
  }

  /** The nearest whole number, and the even one when two are as near. */
  lemma HalfEvenMeaning(n: nat, p: int)
    requires p > 0
    ensures var d := n - HalfEven(n, p) * p;
      -p <= 2 * d <= p && (2 * d == p || 2 * d == -p ==> HalfEven(n, p) % 2 == 0)
  {
    var q, r := n / p, n % p;
    assert n == q * p + r;
    assert (q + 1) * p == q * p + p;
  }

  lemma HalfEvenExact(n: nat, p: int)
    requires p > 0
    ensures HalfEven(n, p) * p == n <==> n % p == 0
    ensures n % p == 0 ==> HalfEven(n, p) == n / p
  {
    var q, r := n / p, n % p;
    assert n == q * p + r;
    assert (q + 1) * p == q * p + p;
  }

  /** A stored number is the number itself exactly when every digit was kept. */
  lemma RoundedIsExact(a: Dec)
    requires a.coefficient > 0 && Rounded(a).Some?
    ensures Same(Rounded(a).value, a) <==> Kept(a)
  {
    var u, r := Unit(a), Rounded(a).value;
    if a.exponent >= u {
      assert Pow10(0) == 1 && At(a, a.exponent) == a.coefficient;
    } else {
      var p := Pow10(u - a.exponent);
      var q := HalfEven(a.coefficient, p);
      QuotientFits(a);
      HalfEvenExact(a.coefficient, p);
      if q == Pow10(PRECISION) {
        CarriedIsSame(q, u, a.exponent);
      }
      assert At(r, a.exponent) == q * p;
    }
  }

  /** A carry out of the last place moves the point and changes nothing. */
  lemma CarriedIsSame(q: nat, u: int, k: int)
    requires q == Pow10(PRECISION) && k <= u
    ensures At(Dec(q / 10, u + 1), k) == q * Pow10(u - k)
  {
    var tenth := Pow10(PRECISION - 1);
    assert q == 10 * tenth && q / 10 == tenth;
    assert Pow10(u + 1 - k) == 10 * Pow10(u - k);
    Associate(tenth, 10, Pow10(u - k));
  }

  // ---------- Whole numbers ----------

  /** The whole number a number is, if it is one. */
  function Integral(a: Dec): Option<nat> {
    if a.exponent >= 0 then Some(a.coefficient * Pow10(a.exponent))
    else if a.coefficient % Pow10(-a.exponent) == 0 then Some(a.coefficient / Pow10(-a.exponent))
    else None
  }

  lemma IntegralMeaning(a: Dec, m: nat)
    ensures Integral(a) == Some(m) <==> Same(Dec(m, 0), a)
  {
    if a.exponent >= 0 {
      assert Pow10(0) == 1;
    } else {
      var p := Pow10(-a.exponent);
      if m * p == a.coefficient {
        Unique(a.coefficient, p, m, 0);
      }
      assert a.coefficient == a.coefficient / p * p + a.coefficient % p;
    }
  }

  /** A stored number read as a whole number: if every digit was kept, it is `m` exactly when the number
      is; and whenever it is `m`, the number is `m` exactly when every digit was kept. */
  lemma WholeAfterRounding(a: Dec, m: nat)
    requires a.coefficient > 0 && Rounded(a).Some?
    ensures Kept(a) ==> (Integral(Rounded(a).value) == Some(m) <==> Same(Dec(m, 0), a))
    ensures Integral(Rounded(a).value) == Some(m) ==> (Same(Dec(m, 0), a) <==> Kept(a))
  {
    var r := Rounded(a).value;
    RoundedIsExact(a);
    IntegralMeaning(r, m);
    if Same(r, a) {
      SameSubstitutes(r, a, Dec(m, 0));
      SameBothWays(r, Dec(m, 0));
      SameBothWays(a, Dec(m, 0));
    } else if Same(Dec(m, 0), r) {
      SameSubstitutes(Dec(m, 0), r, a);
    }
  }

  lemma SameBothWays(a: Dec, b: Dec)
    ensures Same(a, b) <==> Same(b, a)
  {
    SameAt(a, b, Least(a, b));
    SameAt(b, a, Least(a, b));
  }
}
