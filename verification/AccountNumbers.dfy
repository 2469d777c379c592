/** Account numbers shown as zero-padded decimal text, String.format("%012d", n). */
module AccountNumbers {
  import opened Common
  import Arithmetic

  const WIDTH: nat := 12

  function Digit(d: nat): (c: char)
    requires d < 10
    ensures '0' <= c <= '9'
  {
    '0' + d as char
  }

  /** Plain decimal digits, no leading zeros. */
  function Digits(n: nat): (s: string)
    ensures |s| > 0
  {
    if n < 10 then [Digit(n)] else Digits(n / 10) + [Digit(n % 10)]
  }

  function Zeros(k: nat): (s: string)
    ensures |s| == k
  {
    if k == 0 then "" else "0" + Zeros(k - 1)
  }

  /** At least width digits: the last one, after the others in one place less. */
  function Padded(width: nat, n: nat): (s: string)
    ensures |s| > 0
  {
    if width <= 1 then Digits(n) else Padded(width - 1, n / 10) + [Digit(n % 10)]
  }

  /** The minus sign takes one place of the width. */
  function Fmt12(n: Option<int>): string {
    match n
    case None => ""
    case Some(v) => if v < 0 then "-" + Padded(WIDTH - 1, -v) else Padded(WIDTH, v)
  }

  predicate AllDigits(s: string) {
    forall i :: 0 <= i < |s| ==> '0' <= s[i] <= '9'
  }

  function DigitValue(c: char): (d: int)
    ensures '0' <= c <= '9' ==> 0 <= d < 10
  {
    c as int - '0' as int
  }

  function DecimalValue(s: string): int {
    if s == "" then 0 else 10 * DecimalValue(s[..|s| - 1]) + DigitValue(s[|s| - 1])
  }

  /** The digits of s after the first `from` characters. */
  function ParseDigits(s: string, from: nat): Option<int> {
    if |s| <= from then None
    else
      var last := s[|s| - 1];
      if !('0' <= last <= '9') then None
      else if |s| == from + 1 then Some(DigitValue(last))
      else match ParseDigits(s[..|s| - 1], from)
        case None => None
        case Some(v) => Some(10 * v + DigitValue(last))
  }

  /** Long.parseLong: digits after an optional minus sign. */
  function Parse(s: string): Option<int> {
    if s != "" && s[0] == '-' then
      match ParseDigits(s, 1)
      case None => None
      case Some(v) => Some(-v)
    else ParseDigits(s, 0)
  }

  lemma ValueOfNext(s: string, d: nat)
    requires s != "" && AllDigits(s) && d < 10
    ensures AllDigits(s + [Digit(d)]) && DecimalValue(s + [Digit(d)]) == 10 * DecimalValue(s) + d
  {
    var t := s + [Digit(d)];
    assert t[..|t| - 1] == s && t[|t| - 1] == Digit(d);
  }

  lemma {:induction false} DigitsValue(n: nat)
    ensures AllDigits(Digits(n)) && DecimalValue(Digits(n)) == n
  {
    if n >= 10 {
      DigitsValue(n / 10);
      ValueOfNext(Digits(n / 10), n % 10);
    } else {
      assert [Digit(n)][..0] == "";
    }
  }

  lemma {:induction false} PaddedValue(w: nat, n: nat)
    ensures AllDigits(Padded(w, n)) && DecimalValue(Padded(w, n)) == n
    decreases w
  {
    if w <= 1 {
      DigitsValue(n);
    } else {
      PaddedValue(w - 1, n / 10);
      ValueOfNext(Padded(w - 1, n / 10), n % 10);
    }
  }

  /** Padding is zeros before the digits, up to the width. */
  lemma {:induction false} PaddedWithZeros(w: nat, n: nat)
    ensures Padded(w, n) == if |Digits(n)| < w then Zeros(w - |Digits(n)|) + Digits(n) else Digits(n)
    decreases w
  {
    if w > 1 {
      PaddedWithZeros(w - 1, n / 10);
      if n < 10 {
        ZerosEnd(w - 1);
        assert Digits(n / 10) == "0" && Digits(n) == [Digit(n)];
      }
    }
  }

  lemma {:induction false} ZerosEnd(k: nat)
    requires k > 0
    ensures Zeros(k) == Zeros(k - 1) + "0"
  {
    if k > 1 {
      ZerosEnd(k - 1);
    }
  }

  lemma {:induction false} DigitsParse(s: string)
    requires s != "" && AllDigits(s)
    ensures ParseDigits(s, 0) == Some(DecimalValue(s))
    decreases |s|
  {
    if |s| > 1 {
      DigitsParse(s[..|s| - 1]);
    } else {
      assert s[..0] == "";
    }
  }

  lemma {:induction false} SignedDigitsParse(s: string)
    requires s != "" && AllDigits(s)
    ensures ParseDigits("-" + s, 1) == Some(DecimalValue(s))
    decreases |s|
  {
    if |s| > 1 {
      SignedDigitsParse(s[..|s| - 1]);
      assert ("-" + s)[..|s|] == "-" + s[..|s| - 1];
    } else {
      assert s[..0] == "";
    }
  }

  lemma ParsePadded(w: nat, n: nat)
    ensures Parse(Padded(w, n)) == Some(n)
    ensures Parse("-" + Padded(w, n)) == Some(-(n as int))
  {
    PaddedValue(w, n);
    DigitsParse(Padded(w, n));
    SignedDigitsParse(Padded(w, n));
  }

  /** Parsing the shown number gives the number back, for every long. */
  lemma ParseFmt12(n: int)
    ensures Parse(Fmt12(Some(n))) == Some(n)
  {
    if n < 0 {
      ParsePadded(WIDTH - 1, -n);
    } else {
      ParsePadded(WIDTH, n);
    }
  }

  /** Two accounts are never shown under one number, and no number is shown as a missing one. */
  lemma Fmt12Injective(a: Option<int>, b: Option<int>)
    requires Fmt12(a) == Fmt12(b)
    ensures a == b
  {
    if a.Some? {
      ParseFmt12(a.value);
    }
    if b.Some? {
      ParseFmt12(b.value);
    }
  }

  // --- Twelve digits, in numeric order -------------------------------------------------------

  lemma {:induction false} DigitsLength(n: nat, k: nat)
    requires k > 0
    ensures |Digits(n)| <= k <==> n < Arithmetic.Pow10(k)
  {
    if k == 1 {
      assert Arithmetic.Pow10(1) == 10;
    } else if n < 10 {
      AtLeastTen(k);
    } else {
      DigitsLength(n / 10, k - 1);
    }
  }

  lemma {:induction false} AtLeastTen(k: nat)
    requires k > 0
    ensures Arithmetic.Pow10(k) >= 10
  {
    if k > 1 {
      AtLeastTen(k - 1);
    } else {
      assert Arithmetic.Pow10(0) == 1;
    }
  }

  lemma {:induction false} PaddedLength(w: nat, n: nat)
    requires w > 0
    ensures |Padded(w, n)| == if |Digits(n)| < w then w else |Digits(n)|
    decreases w
  {
    if w > 1 {
      PaddedLength(w - 1, n / 10);
    }
  }

  /** Exactly twelve digits for the numbers of the account sequence, more for larger ones. */
  lemma TwelveDigits(n: nat)
    ensures AllDigits(Fmt12(Some(n)))
    ensures |Fmt12(Some(n))| == 12 <==> n < 1000000000000
    ensures |Fmt12(Some(n))| >= 12
  {
    DigitsLength(n, WIDTH);
    PaddedLength(WIDTH, n);
    PaddedValue(WIDTH, n);
    assert Arithmetic.Pow10(6) == 1000000;
    assert Arithmetic.Pow10(12) == 1000000000000;
  }

  /** A minus sign takes the place of one digit; a missing number is shown as nothing. */
  lemma SignTakesOnePlace(n: nat)
    requires n > 0
    ensures Fmt12(Some(-(n as int))) == "-" + Padded(11, n)
    ensures |Fmt12(Some(-(n as int)))| == 12 <==> n < 100000000000
    ensures Fmt12(None) == ""
  {
    DigitsLength(n, 11);
    PaddedLength(11, n);
    assert Arithmetic.Pow10(5) == 100000;
    assert Arithmetic.Pow10(11) == 100000000000;
  }

  ghost predicate Before(s: string, t: string) {
    exists i :: 0 <= i < |s| && i < |t| && s[..i] == t[..i] && s[i] < t[i]
  }

  lemma BeforeLast(s: string, t: string)
    requires |s| == |t| && s != ""
    ensures var n := |s| - 1;
            && (Before(s, t) <==> Before(s[..n], t[..n]) || (s[..n] == t[..n] && s[n] < t[n]))
            && (s == t <==> s[..n] == t[..n] && s[n] == t[n])
  {
    var n := |s| - 1;
    var p, q := s[..n], t[..n];
    assert forall i :: 0 <= i <= n ==> p[..i] == s[..i] && q[..i] == t[..i];
    if Before(p, q) {
      var i :| 0 <= i < n && p[..i] == q[..i] && p[i] < q[i];
      assert s[..i] == t[..i] && s[i] < t[i];
    }
    if Before(s, t) {
      var i :| 0 <= i <= n && s[..i] == t[..i] && s[i] < t[i];
      assert i < n ==> p[..i] == q[..i] && p[i] < q[i];
    }
    if p == q && s[n] == t[n] {
      assert forall i :: 0 <= i < n ==> s[i] == p[i] && t[i] == q[i];
    }
  }

  /** For digit strings of one length, lexicographic order is the order of their values. */
  lemma {:induction false} LexicographicIsNumeric(s: string, t: string)
    requires |s| == |t| && AllDigits(s) && AllDigits(t)
    ensures Before(s, t) <==> DecimalValue(s) < DecimalValue(t)
    ensures s == t <==> DecimalValue(s) == DecimalValue(t)
    decreases |s|
  {
    if s != "" {
      var n := |s| - 1;
      LexicographicIsNumeric(s[..n], t[..n]);
      BeforeLast(s, t);
      LastDigit(DecimalValue(s[..n]), DecimalValue(t[..n]), DigitValue(s[n]), DigitValue(t[n]));
    }
  }

  lemma LastDigit(a: int, b: int, x: int, y: int)
    requires 0 <= x < 10 && 0 <= y < 10
    ensures 10 * a + x < 10 * b + y <==> a < b || (a == b && x < y)
    ensures 10 * a + x == 10 * b + y <==> a == b && x == y
  {
  }

  lemma Fmt12Order(m: nat, n: nat)
    requires m < 1000000000000 && n < 1000000000000
    ensures Before(Fmt12(Some(m)), Fmt12(Some(n))) <==> m < n
  {
    TwelveDigits(m);
    TwelveDigits(n);
    PaddedValue(WIDTH, m);
    PaddedValue(WIDTH, n);
    LexicographicIsNumeric(Fmt12(Some(m)), Fmt12(Some(n)));
  }
}
