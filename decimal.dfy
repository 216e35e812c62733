/** Decimal rendering of integers, as Python's `str(n)`, `f"{n}"` and `f"{n:0W}"` produce it. */
module Decimal {
  import opened Outcomes
  import opened Strings

  /** `10 ** k`. */
  function Pow10(k: nat): nat
  {
    if k == 0 then 1 else 10 * Pow10(k - 1)
  }

  /** `int(math.log10(n))` computed exactly on integers: the largest `k` with `10^k <= n`. */
  function Log10Floor(n: nat): (k: nat)
    requires n >= 1
    ensures Pow10(k) <= n < Pow10(k + 1)
  {
    if n < 10 then 0 else 1 + Log10Floor(n / 10)
  }

  predicate IsDigit(ch: char)
  {
    '0' <= ch <= '9'
  }

  predicate AllDigits(s: string)
  {
    forall i :: 0 <= i < |s| ==> IsDigit(s[i])
  }

  function DigitChar(d: nat): (ch: char)
    requires d < 10
    ensures IsDigit(ch) && ch as int - '0' as int == d
  {
    ('0' as int + d) as char
  }

  /** `str(n)` for a non-negative integer: no sign and no leading zero. */
  function Digits(n: nat): (s: string)
    ensures |s| >= 1 && AllDigits(s)
    ensures n >= 10 ==> s[0] != '0'
  {
    if n < 10 then [DigitChar(n)] else Digits(n / 10) + [DigitChar(n % 10)]
  }

  /** The value a string of decimal digits denotes (leading zeros allowed). */
  function Value(s: string): nat
    requires AllDigits(s)
  {
    if |s| == 0 then 0 else 10 * Value(s[..|s| - 1]) + (s[|s| - 1] as int - '0' as int)
  }

  /** Reading the digits back gives the number: `Digits` is injective. */
  lemma {:induction false} ValueOfDigits(n: nat)
    ensures Value(Digits(n)) == n
  {
    if n >= 10 {
      var s := Digits(n);
      assert s[..|s| - 1] == Digits(n / 10);
      ValueOfDigits(n / 10);
    }
  }

  /** The number of decimal digits of `n >= 1` is `int(log10(n)) + 1`. */
  lemma {:induction false} DigitCount(n: nat)
    requires n >= 1
    ensures |Digits(n)| == Log10Floor(n) + 1
  {
    if n >= 10 {
      DigitCount(n / 10);
    }
  }

  /** A larger number never has fewer digits. */
  lemma {:induction false} DigitsMonotone(m: nat, n: nat)
    requires m <= n
    ensures |Digits(m)| <= |Digits(n)|
  {
    if m >= 10 {
      DigitsMonotone(m / 10, n / 10);
    }
  }

  /** `str(i)` for any integer: a minus sign before the digits of a negative number. */
  function IntToString(i: int): (s: string)
    ensures |s| >= 1
    ensures i < 0 <==> s[0] == '-'
  {
    if i < 0 then "-" + Digits(-i) else Digits(i)
  }

  function Zeros(k: nat): (s: string)
    ensures |s| == k && forall j :: 0 <= j < k ==> s[j] == '0'
  {
    if k == 0 then "" else Zeros(k - 1) + "0"
  }

  /** Python's `0W` format of a non-negative integer: its digits, left-padded with zeros
      to at least `width` characters; a number with more digits is not cut. */
  function ZeroPad(n: nat, width: nat): (s: string)
    ensures |s| == if |Digits(n)| < width then width else |Digits(n)|
    ensures AllDigits(s)
  {
    var d := Digits(n);
    if |d| < width then Zeros(width - |d|) + d else d
  }

  lemma {:induction false} ValueOfZeros(k: nat)
    ensures Value(Zeros(k)) == 0
  {
    if k > 0 {
      assert Zeros(k)[..k - 1] == Zeros(k - 1);
      ValueOfZeros(k - 1);
    }
  }

  /** Appending digits after a prefix: the prefix's value is shifted by the suffix's length. */
  lemma {:induction false} ValueConcat(a: string, b: string)
    requires AllDigits(a) && AllDigits(b)
    ensures AllDigits(a + b) && Value(a + b) == Value(a) * Pow10(|b|) + Value(b)
  {
    if |b| > 0 {
      var ab, b' := a + b, b[..|b| - 1];
      assert ab[..|ab| - 1] == a + b';
      assert ab[|ab| - 1] == b[|b| - 1];
      ValueConcat(a, b');
      ShiftStep(Value(a), Value(b'), Pow10(|b'|), b[|b| - 1] as int - '0' as int);
    } else {
      assert a + b == a;
    }
  }

  lemma ShiftStep(va: int, vb: int, p: int, last: int)
    ensures 10 * (va * p + vb) + last == va * (10 * p) + (10 * vb + last)
  {
  }

  /** Zero padding does not change the number the text denotes. */
  lemma {:induction false} ValueOfZeroPad(n: nat, width: nat)
    ensures Value(ZeroPad(n, width)) == n
  {
    var d := Digits(n);
    ValueOfDigits(n);
    if |d| < width {
      var z := Zeros(width - |d|);
      ValueOfZeros(width - |d|);
      ValueConcat(z, d);
      assert ZeroPad(n, width) == z + d;
      assert Value(z) * Pow10(|d|) == 0;
    }
  }

  // ---------------------------------------------------------------------------
  // Python's int() on text, for ASCII decimal numerals
  // ---------------------------------------------------------------------------

  /** A decimal numeral as `int()` accepts it: digits, with single underscores allowed
      between two digits. */
  predicate IsNumeral(s: string)
  {
    && |s| > 0 && IsDigit(s[0]) && IsDigit(s[|s| - 1])
    && (forall i :: 0 <= i < |s| ==> IsDigit(s[i]) || s[i] == '_')
    && (forall i :: 0 <= i < |s| - 1 ==> s[i] == '_' ==> s[i + 1] != '_')
  }

  function DropUnderscores(s: string): (r: string)
    requires forall i :: 0 <= i < |s| ==> IsDigit(s[i]) || s[i] == '_'
    ensures AllDigits(r)
    ensures AllDigits(s) ==> r == s
  {
    if |s| == 0 then ""
    else if s[0] == '_' then DropUnderscores(s[1..])
    else [s[0]] + DropUnderscores(s[1..])
  }

  /** `int(s)`: surrounding whitespace ignored, an optional sign, then a numeral. */
  function ParseInt(s: string): Option<int>
  {
    var t := Strip(s);
    if |t| > 0 && (t[0] == '+' || t[0] == '-') && IsNumeral(t[1..]) then
      var v: int := Value(DropUnderscores(t[1..]));
      Some(if t[0] == '-' then -v else v)
    else if IsNumeral(t) then Some(Value(DropUnderscores(t)))
    else None
  }

  lemma DigitsAreNumeral(n: nat)
    ensures IsNumeral(Digits(n)) && DropUnderscores(Digits(n)) == Digits(n)
    ensures Value(DropUnderscores(Digits(n))) == n
  {
    ValueOfDigits(n);
  }

  /** `int(str(i)) == i`: the decimal text of an integer reads back as that integer. */
  lemma {:induction false} ParseIntToString(i: int)
    ensures ParseInt(IntToString(i)) == Some(i)
  {
    if i < 0 {
      var n: nat := -i;
      assert IntToString(i) == "-" + Digits(n);
      ParseNegative(n);
    } else {
      assert IntToString(i) == Digits(i);
      ParseNonNegative(i);
    }
  }

  lemma DigitNotSpace(ch: char)
    requires IsDigit(ch)
    ensures !IsSpace(ch) && ch != '+' && ch != '-'
  {
  }

  lemma ParseNonNegative(n: nat)
    ensures ParseInt(Digits(n)) == Some(n)
  {
    var d := Digits(n);
    DigitsAreNumeral(n);
    DigitNotSpace(d[0]);
    DigitNotSpace(d[|d| - 1]);
    assert Strip(d) == d;
    assert IsNumeral(d) && Value(DropUnderscores(d)) == n;
  }

  lemma ParseNegative(n: nat)
    requires n > 0
    ensures ParseInt("-" + Digits(n)) == Some(-(n as int))
  {
    var d := Digits(n);
    var s := "-" + d;
    DigitsAreNumeral(n);
    DigitNotSpace(d[|d| - 1]);
    assert s[1..] == d && s[0] == '-' && s[|s| - 1] == d[|d| - 1];
    assert !IsSpace('-');
    assert Strip(s) == s;
  }
}
