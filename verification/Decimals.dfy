/** Decimal amounts: when they are exact in binary64, and how they print with six decimals.

    An amount is accepted only if decimal.Float64 reports it exact; amounts leave the
    service as text with six decimals (StringFixed). */
module Decimals {
  import opened Arithmetic

  /** coef * 10^-scale, the value a decimal string denotes. */
  datatype Decimal = Decimal(coef: int, scale: nat) {
    function Value(): real {
      coef as real / Pow10(scale) as real
    }
  }

  const PRECISION: nat := 53
  const MIN_EXPONENT := -1074
  const MAX_EXPONENT := 971

  /** coef * 10^-scale == m * 2^e with (m, e) a finite binary64 (IEEE 754-2019, section 3.6). */
  ghost predicate Represents(d: Decimal, m: int, e: int) {
    && MIN_EXPONENT <= e <= MAX_EXPONENT
    && Abs(m) < Pow2(PRECISION)
    && if e >= 0
       then d.coef == m * Pow2(e) * Pow10(d.scale)
       else d.coef * Pow2(-e) == m * Pow10(d.scale)
  }

  ghost predicate Binary64(d: Decimal) {
    exists m, e :: Represents(d, m, e)
  }

  /** The exactness test on the digits: 5^scale divides the coefficient and the quotient, an odd
      number times a power of two, fits the 53-bit significand and the exponent range. */
  predicate Exact(d: Decimal) {
    d.coef == 0 ||
    (&& Abs(d.coef) % Pow5(d.scale) == 0
     && FitsBinary64(Abs(d.coef) / Pow5(d.scale), d.scale))
  }

  /** q * 2^-scale is a finite binary64. */
  predicate FitsBinary64(q: nat, scale: nat) {
    q > 0 &&
    var e := Twos(q) - scale;
    && MIN_EXPONENT <= e
    && Odd(q) * Pow2(if e > MAX_EXPONENT then e - MAX_EXPONENT else 0) < Pow2(PRECISION)
  }

  // --- Exactness is representability -------------------------------------------------------

  /** What representability says about the digits: c * 2^a == m * 2^b * 5^k. */
  lemma RepresentedDigits(d: Decimal, m: int, e: int) returns (a: nat, b: nat)
    requires Represents(d, m, e)
    ensures b == a + e + d.scale && (a == 0 || b == d.scale)
    ensures Abs(d.coef) * Pow2(a) == Abs(m) * Pow2(b) * Pow5(d.scale)
  {
    if e >= 0 {
      a, b := 0, e + d.scale;
      AbsOfTens(d.coef, m, e, d.scale);
    } else {
      a, b := -e, d.scale;
      MulAbs(d.coef, Pow2(a));
      AbsOfTens(d.coef * Pow2(a), m, 0, d.scale);
    }
  }

  lemma FitsFromSignificand(q: nat, a: nat, m: nat, b: nat, k: nat, e: int)
    requires MIN_EXPONENT <= e <= MAX_EXPONENT && 0 < m < Pow2(PRECISION)
    requires b == a + e + k && q * Pow2(a) == m * Pow2(b)
    ensures FitsBinary64(q, k)
  {
    ProductPositive(m, Pow2(b));
    ProductPositive(q, Pow2(a));
    Align(q, a, m, b);
    var t := Twos(q) - k;
    SignificandBound(m, if t > MAX_EXPONENT then t - MAX_EXPONENT else 0);
  }

  lemma RepresentableIsExact(d: Decimal, m: int, e: int)
    requires Represents(d, m, e)
    ensures Exact(d)
  {
    if d.coef != 0 {
      var a, b := RepresentedDigits(d, m, e);
      var c, n := Abs(d.coef), Abs(m) * Pow2(b);
      DigitsQuotient(c, a, n, d.scale);
      ProductPositive(c, Pow2(a));
      ProductPositive(n, Pow5(d.scale));
      ProductPositive(Abs(m), Pow2(b));
      FitsFromSignificand(c / Pow5(d.scale), a, Abs(m), b, d.scale, e);
    }
  }

  /** q * 2^-k fits, so it has a significand and an exponent in range. */
  lemma FitsSignificand(q: nat, k: nat) returns (m: nat, x: nat, e: int)
    requires FitsBinary64(q, k)
    ensures MIN_EXPONENT <= e <= MAX_EXPONENT && 0 < m < Pow2(PRECISION)
    ensures Twos(q) == x + e + k && m == Odd(q) * Pow2(x)
    ensures e < 0 ==> x == 0 && m == Odd(q)
  {
    e := Twos(q) - k;
    x := 0;
    if e > MAX_EXPONENT {
      x, e := e - MAX_EXPONENT, MAX_EXPONENT;
    }
    m := Odd(q) * Pow2(x);
    ProductPositive(Odd(q), Pow2(x));
  }

  lemma ExactIsRepresentable(d: Decimal)
    requires Exact(d)
    ensures Binary64(d)
  {
    var k, c := d.scale, Abs(d.coef);
    if d.coef == 0 {
      PowMonotone(0, PRECISION);
      assert Represents(d, 0, 0);
    } else {
      var q := c / Pow5(k);
      var m, x, e := FitsSignificand(q, k);
      QuotientOfMultiple(Pow5(k), c);
      OddTwos(q);
      if e >= 0 {
        RegroupLarge(c, q, Odd(q), Twos(q), k, x, e);
      } else {
        RegroupSmall(c, q, m, Twos(q), k, -e);
      }
      SignedRepresentation(d, c, m, e);
    }
  }

  lemma SignedRepresentation(d: Decimal, c: nat, m: nat, e: int)
    requires c == Abs(d.coef)
    requires MIN_EXPONENT <= e <= MAX_EXPONENT && m < Pow2(PRECISION)
    requires e >= 0 ==> c == m * Pow2(e) * Pow10(d.scale)
    requires e < 0 ==> c * Pow2(-e) == m * Pow10(d.scale)
    ensures Binary64(d)
  {
    var s := if d.coef < 0 then -(m as int) else m;
    if e >= 0 {
      SignedProducts(s, m, Pow2(e), Pow10(d.scale));
    } else {
      SignedProducts(s, m, Pow10(d.scale), 1);
      SignedProducts(d.coef, c, Pow2(-e), 1);
    }
    assert Represents(d, s, e);
  }

  /** Amounts are accepted exactly when some finite binary64 equals them. */
  lemma ExactIffBinary64(d: Decimal)
    ensures Exact(d) <==> Binary64(d)
  {
    if Binary64(d) {
      var m, e :| Represents(d, m, e);
      RepresentableIsExact(d, m, e);
    }
    if Exact(d) {
      ExactIsRepresentable(d);
    }
  }

  /** For amounts in cents below 25 * 2^53, exact means a multiple of a quarter. */
  lemma ExactCents(d: Decimal)
    requires d.scale == 2 && Abs(d.coef) < 225179981368524800
    ensures Exact(d) <==> Abs(d.coef) % 25 == 0
  {
    PrecisionIs();
    assert Pow5(2) == 25 by {
      assert Pow5(1) == 5 * Pow5(0);
    }
    if d.coef != 0 && Abs(d.coef) % 25 == 0 {
      SmallFits(Abs(d.coef) / 25, 2);
    }
  }

  lemma PrecisionIs()
    ensures Pow2(PRECISION) == 9007199254740992
  {
    assert Pow2(3) == 8 && Pow2(10) == 1024;
    PowAdd(10, 10);
    PowAdd(20, 20);
    PowAdd(40, 10);
    PowAdd(50, 3);
  }

  lemma {:induction false} PartsOfPow2(n: nat)
    ensures Odd(Pow2(n)) == 1 && Twos(Pow2(n)) == n
    decreases n
  {
    if n > 0 {
      PartsOfPow2(n - 1);
    }
  }

  lemma WholeIsExactIff(c: nat)
    requires c > 0
    ensures Exact(Decimal(c, 0)) <==> FitsBinary64(c, 0)
  {
    assert Pow5(0) == 1;
  }

  lemma PowerFitsIff(n: nat)
    ensures FitsBinary64(Pow2(n), 0) <==> n <= 1023
  {
    PartsOfPow2(n);
    if n > MAX_EXPONENT {
      PowBelowIff(n - MAX_EXPONENT);
    } else {
      PowBelowIff(0);
    }
  }

  /** A power of two is exact up to 2^1023, and down to 2^-1074. */
  lemma PowersAreExactIff(n: nat)
    ensures Exact(Decimal(Pow2(n), 0)) <==> n <= 1023
    ensures Exact(Decimal(Pow5(n), n)) <==> n <= 1074
  {
    WholeIsExactIff(Pow2(n));
    PowerFitsIff(n);
    SmallPower(n);
  }

  lemma SmallPower(n: nat)
    ensures Exact(Decimal(Pow5(n), n)) <==> n <= 1074
  {
    QuotientOfMultiple(Pow5(n), Pow5(n));
    PrecisionIs();
    assert Pow5(n) / Pow5(n) == 1;
    assert Odd(1) == 1 && Twos(1) == 0;
  }

  lemma PowBelowIff(n: nat)
    ensures Pow2(n) < Pow2(PRECISION) <==> n < 53
  {
    if n < 53 {
      PowMonotone(n + 1, 53);
    } else {
      PowMonotone(53, n);
    }
  }

  /** 53 bits and no more. */
  lemma FiftyThreeBits()
    ensures Exact(Decimal(9007199254740991, 0)) && !Exact(Decimal(9007199254740993, 0))
  {
    PrecisionIs();
    WholeIsExactIff(9007199254740991);
    WholeIsExactIff(9007199254740993);
  }

  lemma SmallFits(q: nat, k: nat)
    requires 0 < q < Pow2(PRECISION) && k <= -MIN_EXPONENT
    ensures FitsBinary64(q, k)
  {
    FitsFromSignificand(q, 0, q, 0, k, 0 - k);
  }

  // --- Printing with six decimals ----------------------------------------------------------

  function HalfUp(x: real): int {
    (x + 0.5).Floor
  }

  /** decimal.StringFixed(6), as a count of millionths: half away from zero. */
  function Fixed6(x: real): int {
    if x < 0.0 then -HalfUp(-x * 1000000.0) else HalfUp(x * 1000000.0)
  }

  lemma Fixed6Error(x: real)
    ensures -0.5 <= Fixed6(x) as real - x * 1000000.0 <= 0.5
    ensures if x >= 0.0 then -0.5 < Fixed6(x) as real - x * 1000000.0 else Fixed6(x) as real - x * 1000000.0 < 0.5
  {
    var y := if x < 0.0 then -x * 1000000.0 else x * 1000000.0;
    var n := HalfUp(y);
    assert n as real <= y + 0.5 < n as real + 1.0;
  }

  predicate Sixtyfourths(d: Decimal) {
    (64 * Abs(d.coef)) % Pow10(d.scale) == 0
  }

  /** For accepted amounts, six decimals are enough exactly for the multiples of 1/64. */
  lemma MillionthsIffSixtyfourths(d: Decimal)
    requires Exact(d)
    ensures (1000000 * Abs(d.coef)) % Pow10(d.scale) == 0 <==> Sixtyfourths(d)
  {
    var q := Abs(d.coef) / Pow5(d.scale);
    if d.coef != 0 {
      ReduceToTwos(1000000, Abs(d.coef), d.scale);
      ReduceToTwos(64, Abs(d.coef), d.scale);
      assert 1000000 * q == (64 * q) * 15625;
      CancelOdd(64 * q, 15625, d.scale);
    }
  }

  lemma Fixed6Odd(x: real)
    ensures Fixed6(-x) == -Fixed6(x)
  {
    assert HalfUp(0.0) == 0;
  }

  lemma Fixed6OfRatio(c: nat, p: nat)
    requires p > 0
    ensures var x := c as real / p as real;
            Fixed6(x) as real == x * 1000000.0 <==> (1000000 * c) % p == 0
  {
    RatioScale(c, p);
    var r := (1000000 * c) as real / p as real;
    RatioIsInteger(1000000 * c, p);
    HalfUpExact(r);
  }

  lemma HalfUpExact(r: real)
    ensures HalfUp(r) as real == r <==> r.Floor as real == r
  {
    FloorOfInteger(r, HalfUp(r));
    FloorOfInteger(r, r.Floor);
  }

  lemma FloorOfInteger(r: real, n: int)
    ensures n as real == r ==> r.Floor == n && (r + 0.5).Floor == n
  {
    if n as real == r {
      var m, h := r.Floor, (r + 0.5).Floor;
      assert m as real <= r < (m + 1) as real;
      assert h as real <= r + 0.5 < (h + 1) as real;
    }
  }

  /** An accepted amount prints exactly with six decimals when it is a multiple of 1/64, and only then. */
  lemma Fixed6ExactIffSixtyfourths(d: Decimal)
    requires Exact(d)
    ensures Fixed6(d.Value()) as real == d.Value() * 1000000.0 <==> Sixtyfourths(d)
  {
    var c, p := Abs(d.coef), Pow10(d.scale);
    Fixed6OfRatio(c, p);
    MillionthsIffSixtyfourths(d);
    if d.coef < 0 {
      RatioScale(c, p);
      Fixed6Odd(c as real / p as real);
    }
  }

  /** Amounts admitted by the request validators (at most six decimals) always print exactly. */
  lemma SixDecimalsPrintExactly(d: Decimal)
    requires Exact(d) && d.scale <= 6
    ensures Sixtyfourths(d)
  {
    if d.coef != 0 {
      SixtyfourthsFromFives(Abs(d.coef), d.scale);
    } else {
      MultipleMod(Pow10(d.scale), 0);
    }
  }

  lemma SixtyfourthsFromFives(c: nat, k: nat)
    requires c % Pow5(k) == 0 && k <= 6
    ensures (64 * c) % Pow10(k) == 0
  {
    ReduceToTwos(64, c, k);
    SixtyfourIsMultiple(c / Pow5(k), k);
  }

  lemma SixtyfourIsMultiple(q: nat, k: nat)
    requires k <= 6
    ensures (64 * q) % Pow2(k) == 0
  {
    var m := Pow2(6 - k);
    PowAdd(k, 6 - k);
    assert Pow2(3) == 8;
    assert Pow2(k) * m == 64;
    Assoc(Pow2(k), m, q);
    MultipleMod(Pow2(k), m * q);
  }
}
