/** Powers of two, five and ten, odd parts, and division. */
module Arithmetic {

  function Pow2(n: nat): (p: nat)
    ensures p > 0
  {
    if n == 0 then 1 else 2 * Pow2(n - 1)
  }

  function Pow5(n: nat): (p: nat)
    ensures p > 0
  {
    if n == 0 then 1 else 5 * Pow5(n - 1)
  }

  function Pow10(n: nat): (p: nat)
    ensures p > 0
  {
    if n == 0 then 1 else 10 * Pow10(n - 1)
  }

  function Abs(x: int): nat {
    if x < 0 then -x else x
  }

  /** The odd part of n, and how often two divides n. */
  function Odd(n: nat): (o: nat)
    requires n > 0
    ensures 0 < o <= n && o % 2 == 1
  {
    if n % 2 == 1 then n else Odd(n / 2)
  }

  function Twos(n: nat): (t: nat)
    requires n > 0
  {
    if n % 2 == 1 then 0 else 1 + Twos(n / 2)
  }

  lemma {:induction false} PowAdd(i: nat, j: nat)
    ensures Pow2(i + j) == Pow2(i) * Pow2(j)
  {
    if i > 0 {
      PowAdd(i - 1, j);
      Assoc(2, Pow2(i - 1), Pow2(j));
    }
  }

  lemma {:induction false} PowTen(n: nat)
    ensures Pow10(n) == Pow2(n) * Pow5(n)
  {
    if n > 0 {
      PowTen(n - 1);
      var a, b := Pow2(n - 1), Pow5(n - 1);
      assert 10 * (a * b) == (2 * a) * (5 * b);
    }
  }

  lemma {:induction false} PowOdd(n: nat)
    ensures Pow5(n) % 2 == 1
  {
    if n > 0 {
      PowOdd(n - 1);
      ProductParity(5, Pow5(n - 1));
    }
  }

  lemma {:induction false} OddTwos(n: nat)
    requires n > 0
    ensures n == Odd(n) * Pow2(Twos(n))
  {
    if n % 2 == 0 {
      OddTwos(n / 2);
      var p := Pow2(Twos(n / 2));
      assert 2 * (Odd(n / 2) * p) == Odd(n / 2) * (2 * p);
    }
  }

  /** Odd part and power of two are determined by the product. */
  lemma {:induction false} OddTwosUnique(n: nat, o: nat, t: nat)
    requires n > 0 && o % 2 == 1 && n == o * Pow2(t)
    ensures o == Odd(n) && t == Twos(n)
  {
    if t == 0 {
    } else {
      assert n == 2 * (o * Pow2(t - 1)) by {
        assert o * (2 * Pow2(t - 1)) == 2 * (o * Pow2(t - 1));
      }
      OddTwosUnique(n / 2, o, t - 1);
    }
  }

  /** An odd divisor of 2^n * c divides c. */
  lemma {:induction false} CancelTwos(f: nat, c: nat, n: nat)
    requires f % 2 == 1 && (c * Pow2(n)) % f == 0
    ensures c % f == 0
  {
    if n > 0 {
      Twice(c, Pow2(n - 1));
      Halve(f, c * Pow2(n - 1));
      CancelTwos(f, c, n - 1);
    }
  }

  lemma Twice(c: int, p: int)
    ensures c * (2 * p) == 2 * (c * p)
  {
  }

  lemma Halve(f: nat, x: nat)
    requires f % 2 == 1 && (2 * x) % f == 0
    ensures x % f == 0
  {
    var k := (2 * x) / f;
    assert 2 * x == f * k;
    ProductParity(f, k);
    Twice(f, k / 2);
    MultipleMod(f, k / 2);
  }

  lemma ProductParity(f: nat, k: nat)
    requires f % 2 == 1
    ensures (f * k) % 2 == k % 2
  {
    var g := f / 2;
    assert f * k == 2 * (g * k) + k;
  }

  lemma MultipleMod(f: nat, k: nat)
    requires f > 0
    ensures (f * k) % f == 0 && (f * k) / f == k
  {
    DivModUnique(f * k, f, k, 0);
  }

  lemma DivModUnique(n: nat, f: nat, q: nat, r: nat)
    requires f > 0 && n == f * q + r && r < f
    ensures n / f == q && n % f == r
  {
    var q', r' := n / f, n % f;
    assert n == f * q' + r';
    if q > q' {
      LessTimes(f, q', q);
    } else if q < q' {
      LessTimes(f, q, q');
    }
  }

  lemma LessTimes(f: nat, a: nat, b: nat)
    requires a < b
    ensures f * a + f <= f * b
  {
    var d: nat := b - a - 1;
    var fd: nat := f * d;
    assert b == a + d + 1;
    assert f * (a + d + 1) == f * a + fd + f;
  }

  lemma MulAbs(m: int, p: nat)
    ensures Abs(m * p) == Abs(m) * p
  {
    if m < 0 {
      assert m * p == -((-m) * p);
      var n: nat := (-m) * p;
    } else {
      var n: nat := m * p;
    }
  }

  lemma {:induction false} PowMonotone(i: nat, j: nat)
    requires i <= j
    ensures Pow2(i) <= Pow2(j)
  {
    if i < j {
      PowMonotone(i, j - 1);
    }
  }

  lemma Assoc(x: int, y: int, z: int)
    ensures x * y * z == x * (y * z)
  {
  }

  /** n == o * 2^t scaled by 2^a is o * 2^(t + a). */
  lemma Shift(n: int, o: int, t: nat, a: nat)
    requires n == o * Pow2(t)
    ensures n * Pow2(a) == o * Pow2(t + a)
  {
    PowAdd(t, a);
    Assoc(o, Pow2(t), Pow2(a));
  }

  /** q * 2^a == m * 2^b, for positive q and m, aligns odd parts and exponents. */
  lemma Align(q: nat, a: nat, m: nat, b: nat)
    requires q > 0 && m > 0 && q * Pow2(a) == m * Pow2(b)
    ensures Odd(q) == Odd(m) && Twos(q) + a == Twos(m) + b
  {
    var n := q * Pow2(a);
    ProductPositive(q, Pow2(a));
    AlignOne(q, a, n);
    AlignOne(m, b, n);
  }

  lemma AlignOne(q: nat, a: nat, n: nat)
    requires q > 0 && n > 0 && n == q * Pow2(a)
    ensures Odd(n) == Odd(q) && Twos(n) == Twos(q) + a
  {
    OddTwos(q);
    Shift(q, Odd(q), Twos(q), a);
    OddTwosUnique(n, Odd(q), Twos(q) + a);
  }

  lemma ProductPositive(x: nat, y: nat)
    ensures x * y > 0 <==> x > 0 && y > 0
  {
    if x > 0 && y > 0 {
      LessTimes(x, 0, y);
    }
  }

  lemma QuotientOfMultiple(f: nat, c: nat)
    requires f > 0 && c % f == 0
    ensures c == f * (c / f)
  {
  }

  lemma CancelFactor(f: nat, x: nat, y: nat)
    requires f > 0 && f * x == f * y
    ensures x == y
  {
    if x < y {
      LessTimes(f, x, y);
    } else if y < x {
      LessTimes(f, y, x);
    }
  }

  /** m * 2^i * 10^k as a multiple of 5^k. */
  lemma TensAsTwosAndFives(m: int, i: nat, k: nat)
    ensures m * Pow2(i) * Pow10(k) == m * Pow2(i + k) * Pow5(k)
  {
    PowTen(k);
    Assoc(m * Pow2(i), Pow2(k), Pow5(k));
    Shift(m * Pow2(i), m, i, k);
  }

  lemma AbsOfTens(c: int, m: int, i: nat, k: nat)
    requires c == m * Pow2(i) * Pow10(k)
    ensures Abs(c) == Abs(m) * Pow2(i + k) * Pow5(k)
  {
    TensAsTwosAndFives(m, i, k);
    MulAbs(m, Pow2(i + k));
    MulAbs(m * Pow2(i + k), Pow5(k));
  }

  /** c * 2^a == n * 5^k leaves 5^k dividing c. */
  lemma DigitsQuotient(c: nat, a: nat, n: nat, k: nat)
    requires c * Pow2(a) == n * Pow5(k)
    ensures c % Pow5(k) == 0 && (c / Pow5(k)) * Pow2(a) == n
  {
    var f := Pow5(k);
    PowOdd(k);
    Commute(n, f);
    MultipleMod(f, n);
    CancelTwos(f, c, a);
    QuotientOfMultiple(f, c);
    ScaleProduct(c, f, c / f, Pow2(a));
    CancelFactor(f, (c / f) * Pow2(a), n);
  }

  lemma Commute(x: int, y: int)
    ensures x * y == y * x
  {
  }

  lemma ScaleProduct(n: int, x: int, y: int, z: int)
    requires n == x * y
    ensures n * z == x * (y * z)
  {
    Assoc(x, y, z);
  }

  /** The odd part of m times no more than m's power of two is at most m. */
  lemma SignificandBound(m: nat, x: nat)
    requires m > 0 && x <= Twos(m)
    ensures Odd(m) * Pow2(x) <= m
  {
    OddTwos(m);
    PowMonotone(x, Twos(m));
    MulMonotone(Odd(m), Pow2(x), Pow2(Twos(m)));
  }

  lemma MulMonotone(f: nat, x: nat, y: nat)
    requires x <= y
    ensures f * x <= f * y
  {
    if x < y {
      LessTimes(f, x, y);
    }
  }

  /** c == o * 2^t * 5^k is (o * 2^x) * 2^e * 10^k when t == x + e + k. */
  lemma RegroupLarge(c: nat, q: nat, o: nat, t: nat, k: nat, x: nat, e: nat)
    requires c == Pow5(k) * q && q == o * Pow2(t) && t == x + e + k
    ensures c == o * Pow2(x) * Pow2(e) * Pow10(k)
  {
    Shift(o * Pow2(x), o, x, e);
    TensAsTwosAndFives(o, x + e, k);
    Commute(Pow5(k), q);
  }

  /** c == o * 2^t * 5^k scaled by 2^n is o * 10^k when t + n == k. */
  lemma RegroupSmall(c: nat, q: nat, o: nat, t: nat, k: nat, n: nat)
    requires c == Pow5(k) * q && q == o * Pow2(t) && t + n == k
    ensures c * Pow2(n) == o * Pow10(k)
  {
    ScaleProduct(c, Pow5(k), q, Pow2(n));
    Shift(q, o, t, n);
    Commute(Pow5(k), o * Pow2(k));
    TensAsTwosAndFives(o, 0, k);
  }

  lemma SignedProducts(s: int, m: int, x: nat, y: nat)
    requires s == m || s == -m
    ensures s * x * y == if s == m then m * x * y else -(m * x * y)
  {
    if s != m {
      assert (-m) * x == -(m * x);
      Negate(m * x, y);
    }
  }

  lemma Negate(x: int, y: int)
    ensures (-x) * y == -(x * y)
  {
  }

  /** An odd factor does not help a power of two divide. */
  lemma {:induction false} CancelOdd(x: nat, o: nat, k: nat)
    requires o % 2 == 1
    ensures (x * o) % Pow2(k) == 0 <==> x % Pow2(k) == 0
    decreases k
  {
    if k > 0 {
      ProductParity(o, x);
      Commute(o, x);
      if x % 2 == 0 {
        Twice(o, x / 2);
        Commute(x / 2, o);
        assert x * o == 2 * ((x / 2) * o);
        ScaleModulus(x / 2, Pow2(k - 1), 2);
        ScaleModulus((x / 2) * o, Pow2(k - 1), 2);
        CancelOdd(x / 2, o, k - 1);
      } else {
        OddNotMultiple(x, Pow2(k - 1));
        OddNotMultiple(x * o, Pow2(k - 1));
      }
    }
  }

  lemma OddNotMultiple(n: nat, p: nat)
    requires p > 0 && n % 2 == 1
    ensures n % (2 * p) != 0
  {
    if n % (2 * p) == 0 {
      QuotientOfMultiple(2 * p, n);
      Assoc(2, p, n / (2 * p));
      assert false;
    }
  }

  lemma ScaleModulus(x: nat, p: nat, f: nat)
    requires p > 0 && f > 0
    ensures p * f > 0
    ensures (x * f) % (p * f) == 0 <==> x % p == 0
  {
    ProductPositive(p, f);
    if x % p == 0 {
      ScaleProduct(x, p, x / p, f);
      Commute(x / p, f);
      Assoc(p, f, x / p);
      MultipleMod(p * f, x / p);
    }
    if (x * f) % (p * f) == 0 {
      var k := (x * f) / (p * f);
      QuotientOfMultiple(p * f, x * f);
      Assoc(p, f, k);
      Commute(f, k);
      Assoc(p, k, f);
      Commute(p * k, f);
      Commute(x, f);
      CancelFactor(f, x, p * k);
      MultipleMod(p, k);
    }
  }

  /** With 5^k dividing c, the digits test for n * c needs only the powers of two. */
  lemma ReduceToTwos(n: nat, c: nat, k: nat)
    requires c % Pow5(k) == 0
    ensures (n * c) % Pow10(k) == 0 <==> (n * (c / Pow5(k))) % Pow2(k) == 0
  {
    var f := Pow5(k);
    var q := c / f;
    QuotientOfMultiple(f, c);
    Commute(f, q);
    Assoc(n, q, f);
    PowTen(k);
    ScaleModulus(n * q, Pow2(k), f);
  }

  lemma RatioTimes(n: int, p: nat)
    requires p > 0
    ensures (n as real / p as real) * p as real == n as real
  {
  }

  lemma RatioUnique(p: real, r: real, k: real)
    requires p > 0.0 && r * p == p * k
    ensures r == k
  {
  }

  lemma RatioIsInteger(n: nat, p: nat)
    requires p > 0
    ensures (n as real / p as real).Floor as real == n as real / p as real <==> n % p == 0
  {
    var r := n as real / p as real;
    RatioTimes(n, p);
    RatioScale(n, p);
    if n % p == 0 {
      var k := n / p;
      QuotientOfMultiple(p, n);
      assert n as real == p as real * k as real;
      RatioUnique(p as real, r, k as real);
    }
    if r.Floor as real == r {
      var k := r.Floor;
      assert n as real == (p * k) as real;
      assert n == p * k;
      MultipleMod(p, k);
    }
  }

  lemma RatioScale(c: int, p: nat)
    requires p > 0
    ensures c as real / p as real * 1000000.0 == (1000000 * c) as real / p as real
    ensures (-c) as real / p as real == -(c as real / p as real)
    ensures c >= 0 ==> c as real / p as real >= 0.0
    ensures c > 0 ==> c as real / p as real > 0.0
  {
  }
}
