/** Number parsing (`strconv.Atoi`, `strconv.ParseFloat` on decimal integers), the decimal
    truncation `snipEth` of phrase.go, and Go's `10^dec`, which is an XOR. */
module Numbers {
  import opened Base

  predicate IsDigit(c: char)
  {
    '0' <= c <= '9'
  }

  predicate AllDigits(s: string)
  {
    forall i :: 0 <= i < |s| ==> IsDigit(s[i])
  }

  /** The value of a string of decimal digits, most significant digit first. */
  function DigitsValue(s: string): nat
    requires AllDigits(s)
    decreases |s|
  {
    if s == [] then 0 else DigitsValue(s[..|s| - 1]) * 10 + (s[|s| - 1] as int - '0' as int)
  }

  function Pow10(n: nat): (r: nat)
    ensures r >= 1
  {
    if n == 0 then 1 else 10 * Pow10(n - 1)
  }

  /** An optionally signed decimal integer: the syntax shared by Atoi and, for the
      integer strings the explorers send, ParseFloat. */
  function ParseSigned(s: string): Option<int>
  {
    if |s| >= 1 && AllDigits(s) then Some(DigitsValue(s))
    else if |s| >= 2 && (s[0] == '+' || s[0] == '-') && AllDigits(s[1..]) then
      Some(if s[0] == '-' then 0 - DigitsValue(s[1..]) else DigitsValue(s[1..]))
    else None
  }

  const MinInt64: int := -0x8000_0000_0000_0000
  const MaxInt64: int := 0x7FFF_FFFF_FFFF_FFFF

  /** `strconv.Atoi` on a 64-bit platform. */
  function Atoi(s: string): (r: Result<int>)
    ensures r.Success? ==> MinInt64 <= r.value <= MaxInt64 && ParseSigned(s) == Some(r.value)
    ensures r.Failure? <==> ParseSigned(s).None? || !(MinInt64 <= ParseSigned(s).value <= MaxInt64)
  {
    match ParseSigned(s)
    case None => Failure(SyntaxError(s))
    case Some(v) => if MinInt64 <= v <= MaxInt64 then Success(v) else Failure(RangeError(s))
  }

  /** `strconv.ParseFloat(s, 64)` on optionally signed decimal integers; it returns 0
      with its error. */
  function ParseFloat(s: string): (r: (real, Option<Error>))
    ensures r.1.None? <==> ParseSigned(s).Some?
    ensures r.1.None? ==> r.0 == ParseSigned(s).value as real
    ensures r.1.Some? ==> r.0 == 0.0
  {
    match ParseSigned(s)
    case None => (0.0, Some(SyntaxError(s)))
    case Some(v) => (v as real, None)
  }

  // ---- A decimal printer, to check the parsers against ----

  function DigitChar(d: nat): (c: char)
    requires d < 10
    ensures IsDigit(c) && c as int - '0' as int == d
  {
    ('0' as int + d) as char
  }

  /** The decimal text of a natural number, with no leading zeros. */
  function NatText(n: nat): (t: string)
    ensures |t| >= 1
    decreases n
  {
    if n < 10 then [DigitChar(n)] else NatText(n / 10) + [DigitChar(n % 10)]
  }

  /** The decimal text of an integer, with a '-' for a negative one (as strconv.Itoa). */
  function DecimalText(n: int): string
  {
    if n < 0 then "-" + NatText(-n) else NatText(n)
  }

  lemma {:induction false} NatTextValue(n: nat)
    ensures AllDigits(NatText(n)) && DigitsValue(NatText(n)) == n
    decreases n
  {
    if n >= 10 {
      NatTextValue(n / 10);
      var t := NatText(n / 10);
      var s := t + [DigitChar(n % 10)];
      assert s[..|s| - 1] == t;
      assert forall i :: 0 <= i < |s| ==> IsDigit(s[i]) by {
        forall i | 0 <= i < |s| ensures IsDigit(s[i]) {
          if i < |t| { assert s[i] == t[i]; }
        }
      }
    }
  }

  /** Every integer printed in decimal parses back to itself: Atoi gives it when it fits in
      an int64 and the range error otherwise, and ParseFloat gives its value. */
  lemma ParseRoundTrip(n: int)
    ensures MinInt64 <= n <= MaxInt64 ==> Atoi(DecimalText(n)) == Success(n)
    ensures !(MinInt64 <= n <= MaxInt64) ==> Atoi(DecimalText(n)) == Failure(RangeError(DecimalText(n)))
    ensures ParseFloat(DecimalText(n)) == (n as real, None)
  {
    var s := DecimalText(n);
    if n < 0 {
      NatTextValue(-n);
      assert s[1..] == NatText(-n);
      assert !IsDigit(s[0]);
    } else {
      NatTextValue(n);
    }
    assert ParseSigned(s) == Some(n);
  }

  /** A string with a character that is neither a digit nor a leading sign, an empty string,
      and a lone sign are all rejected by both parsers, with a syntax error. */
  lemma ParseRejectsNonDigit(s: string, i: nat)
    requires i < |s| && !IsDigit(s[i]) && (i > 0 || (s[0] != '+' && s[0] != '-'))
    ensures Atoi(s) == Failure(SyntaxError(s))
    ensures ParseFloat(s) == (0.0, Some(SyntaxError(s)))
  {
    if i > 0 {
      assert s[1..][i - 1] == s[i];
    }
  }

  lemma ParseRejectsEmptyAndSign()
    ensures Atoi("") == Failure(SyntaxError(""))
    ensures Atoi("-") == Failure(SyntaxError("-")) && Atoi("+") == Failure(SyntaxError("+"))
    ensures ParseFloat("").1.Some? && ParseFloat("-").1.Some? && ParseFloat("+").1.Some?
  {
    assert !IsDigit('-') && !IsDigit('+');
  }

  /** The string half of snipEth: when the value has more than 8 decimals and more digits
      than the decimals beyond 8, drop those trailing digits and keep 8 decimals. */
  function SnipDigits(input: string, decimal: int): (r: (string, int))
    ensures r.0 <= input
    ensures |r.0| < |input| <==> decimal > 8 && |input| > decimal - 8
    ensures |r.0| < |input| ==> |input| - |r.0| == decimal - 8 && r.1 == 8
    ensures |r.0| == |input| ==> r.1 == decimal
  {
    var tocut := decimal - 8;
    if tocut > 0 && |input| - tocut > 0 then (input[..|input| - tocut], 8) else (input, decimal)
  }

  /** `snipEth(input, decimal)`: the value of the snipped string divided by 10^exponent
      when the exponent is positive, and ParseFloat's error. */
  function SnipEth(input: string, decimal: int): (real, Option<Error>)
  {
    var (cut, exponent) := SnipDigits(input, decimal);
    var (output, err) := ParseFloat(cut);
    (if exponent > 0 then output / Pow10(exponent) as real else output, err)
  }

  /** Go's `10^dec` on `int`: bitwise exclusive or, not a power. */
  function Xor10(dec: int): (r: int)
    requires 0 <= dec <= MaxInt64
    ensures 0 <= r < 0x1_0000_0000_0000_0000
  {
    ((10 as bv64) ^ (dec as bv64)) as int
  }

  /** The XOR divisor is zero exactly for 10 decimals. */
  lemma Xor10ZeroExactlyAtTen(dec: int)
    requires 0 <= dec <= MaxInt64
    ensures Xor10(dec) == 0 <==> dec == 10
  {
    if dec == 10 {
      assert Xor10(10) == 0;
    } else {
      Xor10ZeroOnlyAtTen(dec);
    }
  }

  lemma Xor10ZeroOnlyAtTen(dec: int)
    requires 0 <= dec <= MaxInt64
    ensures Xor10(dec) == 0 ==> dec == 10
  {
    var b := dec as bv64;
    XorTenCancels(b);
    BvZero((10 as bv64) ^ b);
    BvTen(dec);
  }

  lemma XorTenCancels(b: bv64)
    ensures (10 as bv64) ^ b == 0 ==> b == 10
  {
  }

  lemma BvZero(x: bv64)
    ensures x as int == 0 ==> x == 0
  {
  }

  lemma BvTen(dec: int)
    requires 0 <= dec <= MaxInt64
    ensures dec as bv64 == 10 ==> dec == 10
  {
  }

  /** For the common token precisions the XOR divisor is far from the power of ten. */
  lemma Xor10Samples()
    ensures Xor10(18) == 24 && Xor10(6) == 12 && Xor10(8) == 2
  {
  }

  // ---- The meaning of the truncation ----

  function LastDigit(s: string): nat
    requires s != [] && AllDigits(s)
  {
    s[|s| - 1] as int - '0' as int
  }

  lemma AllDigitsConcat(a: string, b: string)
    requires AllDigits(a) && AllDigits(b)
    ensures AllDigits(a + b)
  {
    forall i | 0 <= i < |a + b| ensures IsDigit((a + b)[i]) {
      if i < |a| { assert (a + b)[i] == a[i]; } else { assert (a + b)[i] == b[i - |a|]; }
    }
  }

  lemma DigitsValueSnoc(s: string)
    requires s != [] && AllDigits(s)
    ensures AllDigits(s[..|s| - 1])
    ensures DigitsValue(s) == DigitsValue(s[..|s| - 1]) * 10 + LastDigit(s)
  {
  }

  lemma ScaleStep(va: int, p: int, vb: int, d: int)
    ensures (va * p + vb) * 10 + d == va * (10 * p) + (vb * 10 + d)
  {
  }

  /** The value of two digit strings written one after the other. */
  lemma {:induction false} DigitsConcat(a: string, b: string)
    requires AllDigits(a) && AllDigits(b)
    ensures AllDigits(a + b)
    ensures DigitsValue(a + b) == DigitsValue(a) * Pow10(|b|) + DigitsValue(b)
    decreases |b|
  {
    AllDigitsConcat(a, b);
    if b == [] {
      assert a + b == a;
    } else {
      var b' := b[..|b| - 1];
      DigitsValueSnoc(b);
      DigitsValueSnoc(a + b);
      assert (a + b)[..|a + b| - 1] == a + b';
      assert LastDigit(a + b) == LastDigit(b);
      DigitsConcat(a, b');
      ScaleStep(DigitsValue(a), Pow10(|b'|), DigitsValue(b'), LastDigit(b));
    }
  }

  lemma {:induction false} DigitsBelowPow10(s: string)
    requires AllDigits(s)
    ensures DigitsValue(s) < Pow10(|s|)
    decreases |s|
  {
    if s != [] {
      var t := s[..|s| - 1];
      DigitsBelowPow10(t);
      assert DigitsValue(t) + 1 <= Pow10(|t|);
      assert (DigitsValue(t) + 1) * 10 <= Pow10(|t|) * 10;
    }
  }

  /** Dropping the last k digits of a digit string is integer division by 10^k: the dropped
      digits are the remainder. */
  lemma DropDigitsDivides(s: string, k: nat)
    requires AllDigits(s) && k <= |s|
    ensures AllDigits(s[..|s| - k]) && AllDigits(s[|s| - k..])
    ensures DigitsValue(s) == DigitsValue(s[..|s| - k]) * Pow10(k) + DigitsValue(s[|s| - k..])
    ensures DigitsValue(s[|s| - k..]) < Pow10(k)
    ensures DigitsValue(s[..|s| - k]) == DigitsValue(s) / Pow10(k)
  {
    var cut, rest := s[..|s| - k], s[|s| - k..];
    assert s == cut + rest;
    assert AllDigits(cut) && AllDigits(rest);
    DigitsConcat(cut, rest);
    DigitsBelowPow10(rest);
    DivisionUnique(DigitsValue(s), Pow10(k), DigitsValue(cut), DigitsValue(rest));
  }

  lemma MulAtLeast(m: int, d: int)
    requires m > 0 && d >= 1
    ensures m * d >= m
  {
    var e := d - 1;
    assert m * d == m + m * e;
    assert m * e >= 0;
  }

  lemma DivisionUnique(a: int, m: int, q: int, r: int)
    requires m > 0 && 0 <= r < m && a == q * m + r
    ensures a / m == q
  {
    var q' := a / m;
    var r' := a % m;
    assert a == m * q' + r';
    assert a == m * q + r;
    if q' > q {
      assert m * q' - m * q == m * (q' - q);
      MulAtLeast(m, q' - q);
    } else if q' < q {
      assert m * q - m * q' == m * (q - q');
      MulAtLeast(m, q - q');
    }
  }

  lemma {:induction false} Pow10Add(a: nat, b: nat)
    ensures Pow10(a + b) == Pow10(a) * Pow10(b)
    decreases a
  {
    if a > 0 {
      Pow10Add(a - 1, b);
      assert Pow10(a + b) == 10 * Pow10(a - 1 + b);
      assert 10 * (Pow10(a - 1) * Pow10(b)) == (10 * Pow10(a - 1)) * Pow10(b);
    }
  }

  lemma Pow10Eight()
    ensures Pow10(8) as real == 100000000.0
  {
    assert Pow10(8) == 100000000;
  }

  /** snipEth on a decimal string with more digits than decimals beyond 8: the value is
      truncated (rounded down) to 8 decimal places. */
  lemma SnipEthTruncatesToEightDecimals(s: string, decimal: int)
    requires |s| >= 1 && AllDigits(s)
    requires decimal > 8 && |s| > decimal - 8
    ensures SnipEth(s, decimal) == ((DigitsValue(s) / Pow10(decimal - 8)) as real / 100000000.0, None)
  {
    var k := decimal - 8;
    DropDigitsDivides(s, k);
    var cut := s[..|s| - k];
    assert SnipDigits(s, decimal) == (cut, 8);
    assert ParseSigned(cut) == Some(DigitsValue(cut));
    Pow10Eight();
  }

  /** Without truncation snipEth is the exact decimal scaling of the digits. */
  lemma SnipEthUncutIsExact(s: string, decimal: int)
    requires |s| >= 1 && AllDigits(s)
    requires decimal <= 8 || |s| <= decimal - 8
    ensures SnipEth(s, decimal) == (DigitsValue(s) as real / Pow10(if decimal > 0 then decimal else 0) as real, None)
  {
    assert SnipDigits(s, decimal) == (s, decimal);
    assert ParseSigned(s) == Some(DigitsValue(s));
  }

  /** For a positive precision, snipEth never exceeds the exact value and falls short of it
      by less than 10^-8. */
  lemma SnipEthWithinOneE8(s: string, decimal: int)
    requires |s| >= 1 && AllDigits(s) && decimal > 0
    ensures var exact := DigitsValue(s) as real / Pow10(decimal) as real;
      SnipEth(s, decimal).1.None? &&
      SnipEth(s, decimal).0 <= exact < SnipEth(s, decimal).0 + 0.00000001
  {
    if decimal > 8 && |s| > decimal - 8 {
      WithinOneE8Cut(s, decimal);
    } else {
      SnipEthUncutIsExact(s, decimal);
      if decimal > 8 {
        WithinOneE8Short(s, decimal);
      }
    }
  }

  lemma WithinOneE8Cut(s: string, decimal: int)
    requires |s| >= 1 && AllDigits(s) && decimal > 8 && |s| > decimal - 8
    ensures var exact := DigitsValue(s) as real / Pow10(decimal) as real;
      SnipEth(s, decimal).1.None? &&
      SnipEth(s, decimal).0 <= exact < SnipEth(s, decimal).0 + 0.00000001
  {
    var k := decimal - 8;
    var n := DigitsValue(s);
    SnipEthTruncatesToEightDecimals(s, decimal);
    FractionBounds(n, k, decimal);
  }

  /** n / 10^decimal lies between its truncation to 8 decimals and the next 10^-8. */
  lemma FractionBounds(n: nat, k: nat, decimal: int)
    requires decimal > 8 && k == decimal - 8
    ensures (n / Pow10(k)) as real / 100000000.0 <= n as real / Pow10(decimal) as real
         < (n / Pow10(k)) as real / 100000000.0 + 0.00000001
  {
    var p := Pow10(k);
    DivMod(n, p);
    Pow10Split(decimal);
    QuotientBounds(n, n / p, n % p, p, Pow10(decimal) as real);
  }

  lemma QuotientBounds(n: int, t: int, r: int, p: int, pd: real)
    requires p > 0 && n == t * p + r && 0 <= r < p && pd == p as real * 100000000.0
    ensures t as real / 100000000.0 <= n as real / pd < t as real / 100000000.0 + 0.00000001
  {
    IntToRealSum(n, t, p, r);
    RealFraction(n as real, t as real, r as real, p as real, pd);
  }

  lemma DivMod(n: int, p: int)
    requires p > 0
    ensures n == (n / p) * p + n % p && 0 <= n % p < p
  {
  }

  lemma IntToRealSum(n: int, t: int, pk: int, r: int)
    requires n == t * pk + r && 0 <= r < pk
    ensures n as real == t as real * pk as real + r as real
    ensures 0.0 <= r as real < pk as real
  {
  }

  lemma WithinOneE8Short(s: string, decimal: int)
    requires |s| >= 1 && AllDigits(s) && decimal > 8 && |s| <= decimal - 8
    ensures var exact := DigitsValue(s) as real / Pow10(decimal) as real;
      0.0 <= exact < 0.00000001
  {
    var k := decimal - 8;
    var n := DigitsValue(s);
    DigitsBelowPow10(s);
    Pow10Monotone(|s|, k);
    Pow10Split(decimal);
    IntToRealSum(n, 0, Pow10(k), n);
    RealFraction(n as real, 0.0, n as real, Pow10(k) as real, Pow10(decimal) as real);
  }

  /** 10^decimal is 10^(decimal - 8) times 10^8. */
  lemma Pow10Split(decimal: int)
    requires decimal > 8
    ensures Pow10(decimal) as real == Pow10(decimal - 8) as real * 100000000.0
    decreases decimal
  {
    if decimal > 9 {
      Pow10Split(decimal - 1);
      var a := Pow10(decimal - 9) as real;
      assert Pow10(decimal - 8) as real == 10.0 * a;
      assert Pow10(decimal) as real == 10.0 * Pow10(decimal - 1) as real;
    } else {
      Pow10Eight();
    }
  }

  /** n = t * pk + r with r below pk, divided by pk * 10^8: between t / 10^8 and the next 10^-8. */
  lemma RealFraction(n: real, t: real, r: real, pk: real, d: real)
    requires pk > 0.0 && d == pk * 100000000.0 && n == t * pk + r && 0.0 <= r < pk
    ensures t / 100000000.0 <= n / d < t / 100000000.0 + 0.00000001
  {
    assert n / d == t / 100000000.0 + r / d by {
      assert t / 100000000.0 == (t * pk) / d;
    }
    assert r / d < pk / d;
    assert pk / d == 0.00000001;
  }

  lemma {:induction false} Pow10Monotone(a: nat, b: nat)
    requires a <= b
    ensures Pow10(a) <= Pow10(b)
    decreases b
  {
    if a < b {
      Pow10Monotone(a, b - 1);
    }
  }

  /** snipEth on a 19-digit wei string with 18 decimals, the native-balance case of eth.go:85. */
  lemma SnipEthNativeExample()
    ensures SnipEth("1234567890123456789", 18) == (1.23456789, None)
  {
    var s := "1234567890123456789";
    assert s[..19 - 10] == "123456789";
    assert SnipDigits(s, 18) == ("123456789", 8);
    NineDigits();
    assert ParseFloat("123456789") == (123456789.0, None);
    Pow10Eight();
  }

  lemma NineDigits()
    ensures AllDigits("123456789") && DigitsValue("123456789") == 123456789
  {
    assert DigitsValue("1") == 1;
    assert "12"[..1] == "1";
    assert DigitsValue("12") == 12;
    assert "123"[..2] == "12";
    assert DigitsValue("123") == 123;
    assert "1234"[..3] == "123";
    assert DigitsValue("1234") == 1234;
    assert "12345"[..4] == "1234";
    assert DigitsValue("12345") == 12345;
    assert "123456"[..5] == "12345";
    assert DigitsValue("123456") == 123456;
    assert "1234567"[..6] == "123456";
    assert DigitsValue("1234567") == 1234567;
    assert "12345678"[..7] == "1234567";
    assert DigitsValue("12345678") == 12345678;
    assert "123456789"[..8] == "12345678";
    assert DigitsValue("123456789") == 123456789;
  }
}
