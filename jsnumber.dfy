/** The JavaScript number operations the core uses, over exact reals:
    `parseFloat`, `Math.round(x * 100) / 100`, and the decimal value of a
    digit string (also used for the ordering of integer-like object keys). */
module JsNumber {
  import opened Wrappers
  import opened JsString

  predicate AllDigits(s: string) {
    forall i :: 0 <= i < |s| ==> IsDigit(s[i])
  }

  function Pow10(n: nat): (r: nat)
    ensures r >= 1
  {
    if n == 0 then 1 else 10 * Pow10(n - 1)
  }

  /** Decimal value of a string of digits. */
  function DigitsValue(s: string): nat
    requires AllDigits(s)
  {
    if s == [] then 0
    else 10 * DigitsValue(s[..|s| - 1]) + (s[|s| - 1] as int - '0' as int)
  }

  /** A digit string is written without leading zeros ("0" itself is allowed). */
  predicate IsCanonical(s: string) {
    |s| > 0 && AllDigits(s) && (|s| == 1 || s[0] != '0')
  }

  lemma {:induction false} DigitsValueBelow(s: string)
    requires AllDigits(s)
    ensures DigitsValue(s) < Pow10(|s|)
  {
    if s != [] {
      DigitsValueBelow(s[..|s| - 1]);
    }
  }

  lemma {:induction false} DigitsValueAbove(s: string)
    requires AllDigits(s) && |s| > 0 && s[0] != '0'
    ensures Pow10(|s| - 1) <= DigitsValue(s)
  {
    if |s| > 1 {
      DigitsValueAbove(s[..|s| - 1]);
    }
  }

  function DigitOf(c: char): int {
    c as int - '0' as int
  }

  /** The value of a five-digit numeral (a US ZIP code). */
  lemma FiveDigitValue(s: string)
    requires |s| == 5 && AllDigits(s)
    ensures DigitsValue(s) == 10000 * DigitOf(s[0]) + 1000 * DigitOf(s[1]) + 100 * DigitOf(s[2]) + 10 * DigitOf(s[3]) + DigitOf(s[4])
  {
    assert s[..4][..3] == s[..3];
    assert s[..3][..2] == s[..2];
    assert s[..2][..1] == s[..1];
    assert s[..1][..0] == [];
    assert DigitsValue(s[..1]) == DigitOf(s[0]);
    assert DigitsValue(s[..2]) == 10 * DigitsValue(s[..1]) + DigitOf(s[1]);
    assert DigitsValue(s[..3]) == 10 * DigitsValue(s[..2]) + DigitOf(s[2]);
    assert DigitsValue(s[..4]) == 10 * DigitsValue(s[..3]) + DigitOf(s[3]);
  }

  /** Two canonical numerals with the same value are the same string. */
  lemma {:induction false} CanonicalInjective(a: string, b: string)
    requires IsCanonical(a) && IsCanonical(b)
    requires DigitsValue(a) == DigitsValue(b)
    ensures a == b
    decreases |a|
  {
    if |a| < |b| {
      DigitsValueBelow(a);
      DigitsValueAbove(b);
      Pow10Mono(|a|, |b| - 1);
    } else if |b| < |a| {
      DigitsValueBelow(b);
      DigitsValueAbove(a);
      Pow10Mono(|b|, |a| - 1);
    } else {
      var n := |a| - 1;
      var pa, pb := a[..n], b[..n];
      var da, db := a[n] as int - '0' as int, b[n] as int - '0' as int;
      assert 10 * DigitsValue(pa) + da == 10 * DigitsValue(pb) + db;
      assert da == db && DigitsValue(pa) == DigitsValue(pb);
      if n > 0 {
        CanonicalInjective(pa, pb);
      }
      assert a == pa + [a[n]] && b == pb + [b[n]];
    }
  }

  lemma {:induction false} Pow10Mono(m: nat, n: nat)
    requires m <= n
    ensures Pow10(m) <= Pow10(n)
    decreases n
  {
    if m < n {
      Pow10Mono(m, n - 1);
    }
  }

  /** Length of the longest all-digit prefix of `s`. */
  function LeadingDigits(s: string): (k: nat)
    ensures k <= |s| && AllDigits(s[..k])
    ensures k < |s| ==> !IsDigit(s[k])
  {
    if s != [] && IsDigit(s[0]) then
      var k := 1 + LeadingDigits(s[1..]);
      assert forall i :: 1 <= i < k ==> s[..k][i] == s[1..][..k - 1][i - 1];
      k
    else 0
  }

  /** 10 raised to an integer power, as a real. */
  function Scale(e: int): (r: real)
    ensures r > 0.0
  {
    if e >= 0 then Pow10(e) as real else 1.0 / Pow10(-e) as real
  }

  /** The exponent part `e`/`E`, optional sign, digits at the start of `s`,
      or 0 when `s` does not start with a complete exponent part. */
  function ExponentOf(s: string): int
  {
    if |s| > 0 && (s[0] == 'e' || s[0] == 'E') then
      var t := s[1..];
      var neg := |t| > 0 && t[0] == '-';
      var u := if |t| > 0 && (t[0] == '-' || t[0] == '+') then t[1..] else t;
      var d := LeadingDigits(u);
      if d == 0 then 0
      else if neg then -(DigitsValue(u[..d]) as int) else DigitsValue(u[..d])
    else 0
  }

  /** `parseFloat(s)`: the longest prefix of `s` (after leading white space)
      that is a decimal literal with optional sign, fraction and exponent;
      None stands for NaN, returned when no digit starts the number. */
  function ParseFloat(s: string): Option<real>
  {
    var t := TrimStart(s);
    var neg := |t| > 0 && t[0] == '-';
    var u := if |t| > 0 && (t[0] == '-' || t[0] == '+') then t[1..] else t;
    var a := LeadingDigits(u);
    var hasDot := a < |u| && u[a] == '.';
    var f := if hasDot then LeadingDigits(u[a + 1..]) else 0;
    if a == 0 && f == 0 then None
    else
      var frac := if hasDot then u[a + 1..][..f] else "";
      var rest := if hasDot then u[a + 1 + f..] else u[a..];
      var magnitude := Magnitude(u[..a], frac, ExponentOf(rest));
      Some(if neg then -magnitude else magnitude)
  }

  /** Value of `whole.frac` times 10 to the `exp`. */
  function Magnitude(whole: string, frac: string, exp: int): (r: real)
    requires AllDigits(whole) && AllDigits(frac)
    ensures r >= 0.0
  {
    var m := DigitsValue(whole) as real + DigitsValue(frac) as real / Pow10(|frac|) as real;
    assert m >= 0.0;
    m * Scale(exp)
  }

  /** A string without a minus sign never parses to a negative number. */
  lemma ParseFloatNonNegative(s: string)
    requires '-' !in s
    ensures ParseFloat(s).Some? ==> ParseFloat(s).value >= 0.0
  {
    var t := TrimStart(s);
    if |t| > 0 {
      assert t[0] == s[|s| - |t|];
      assert t[0] != '-';
    }
  }

  /** The digits-and-dots strings left by KeepNumeric parse to a number >= 0,
      or to NaN when they hold no digit before or right after the first dot. */
  lemma KeepNumericParse(s: string)
    ensures var r := ParseFloat(KeepNumeric(s)); r.Some? ==> r.value >= 0.0
  {
    var k := KeepNumeric(s);
    assert forall i :: 0 <= i < |k| ==> k[i] != '-';
    ParseFloatNonNegative(k);
  }

  /** `Math.round(x * 100) / 100`: Math.round rounds halves up, i.e. floor(y + 1/2). */
  function Round2(x: real): real {
    (x * 100.0 + 0.5).Floor as real / 100.0
  }

  /** Rounding moves a value by at most half a cent. */
  lemma Round2Close(x: real)
    ensures x - 0.005 < Round2(x) <= x + 0.005
  {
    var y := x * 100.0 + 0.5;
    assert y - 1.0 < y.Floor as real <= y;
  }

  /** Rounding never reverses the order of two values. */
  lemma Round2Monotone(x: real, y: real)
    requires x <= y
    ensures Round2(x) <= Round2(y)
  {
    assert (x * 100.0 + 0.5).Floor <= (y * 100.0 + 0.5).Floor;
  }

  /** A whole number of cents is left as it is. */
  lemma Round2Cents(n: int)
    ensures Round2(n as real / 100.0) == n as real / 100.0
  {
    assert n as real / 100.0 * 100.0 + 0.5 == n as real + 0.5;
    assert (n as real + 0.5).Floor == n;
  }

  lemma Round2Idempotent(x: real)
    ensures Round2(Round2(x)) == Round2(x)
  {
    Round2Cents((x * 100.0 + 0.5).Floor);
  }

  /** Sum of a list of numbers, added left to right as the source's loops do. */
  function Sum(s: seq<real>): real
  {
    if s == [] then 0.0 else Sum(s[..|s| - 1]) + s[|s| - 1]
  }

  lemma {:induction false} SumAppend(a: seq<real>, b: seq<real>)
    ensures Sum(a + b) == Sum(a) + Sum(b)
    decreases |b|
  {
    if b != [] {
      assert (a + b)[..|a + b| - 1] == a + b[..|b| - 1];
      assert (a + b)[|a + b| - 1] == b[|b| - 1];
      SumAppend(a, b[..|b| - 1]);
    } else {
      assert a + b == a;
    }
  }
}
