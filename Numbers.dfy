/**
 * The numbers the core reads and writes: a double that is either a finite
 * value or NaN, the prefix conversions g_ascii_strtod and strtol perform on
 * attribute text, and the "%d" rendering of a threshold.
 */
module Numbers {
  import opened Wrappers
  import opened Strings

  /** An IEEE double restricted to its finite values and NaN. */
  datatype Double = Num(v: real) | NaN

  /** x / k, with NaN propagating. */
  function Div(x: Double, k: real): (r: Double)
    requires k > 0.0
    ensures r.NaN? <==> x.NaN?
    ensures x.Num? ==> r.v * k == x.v
  {
    match x
    case NaN => NaN
    case Num(v) => Num(v / k)
  }

  /** fabs. */
  function Abs(x: Double): (r: Double)
    ensures r.NaN? <==> x.NaN?
    ensures r.Num? ==> r.v >= 0.0 && (r.v == x.v || r.v == -x.v)
  {
    match x
    case NaN => NaN
    case Num(v) => Num(if v < 0.0 then -v else v)
  }

  /** x < k; every comparison with NaN is false. */
  predicate Less(x: Double, k: real) {
    x.Num? && x.v < k
  }

  /** x > k; every comparison with NaN is false. */
  predicate Greater(x: Double, k: real) {
    x.Num? && x.v > k
  }

  // ---------------------------------------------------------------------
  // Digits

  predicate IsDigit(c: char) {
    '0' <= c <= '9'
  }

  predicate AllDigits(s: string) {
    forall k :: 0 <= k < |s| ==> IsDigit(s[k])
  }

  function DigitValue(c: char): (d: nat)
    requires IsDigit(c)
    ensures d < 10
  {
    c as int - '0' as int
  }

  function DigitChar(d: nat): (c: char)
    requires d < 10
    ensures IsDigit(c) && DigitValue(c) == d
  {
    ('0' as int + d) as char
  }

  /** The value of a string of decimal digits, most significant first. */
  function DigitsValue(s: string): nat
    requires AllDigits(s)
    decreases |s|
  {
    if s == [] then 0 else DigitsValue(s[..|s| - 1]) * 10 + DigitValue(s[|s| - 1])
  }

  function Pow10(n: nat): (p: nat)
    ensures p >= 1
  {
    if n == 0 then 1 else 10 * Pow10(n - 1)
  }

  /** The first index at or after i that is not ASCII whitespace. */
  function SkipSpaces(s: string, i: nat): (j: nat)
    requires i <= |s|
    ensures i <= j <= |s|
    ensures j < |s| ==> !IsSpace(s[j])
    ensures forall k :: i <= k < j ==> IsSpace(s[k])
    decreases |s| - i
  {
    if i < |s| && IsSpace(s[i]) then SkipSpaces(s, i + 1) else i
  }

  /** The end of the run of decimal digits that starts at i. */
  function DigitRun(s: string, i: nat): (j: nat)
    requires i <= |s|
    ensures i <= j <= |s|
    ensures j < |s| ==> !IsDigit(s[j])
    ensures AllDigits(s[i..j])
    decreases |s| - i
  {
    if i < |s| && IsDigit(s[i]) then
      var j := DigitRun(s, i + 1);
      assert s[i..j] == [s[i]] + s[i + 1..j];
      j
    else i
  }

  /** Whether "nan" (in any case) starts at i. */
  predicate NanAt(s: string, i: nat) {
    i + 3 <= |s| && EqualsIgnoreCase(s[i..i + 3], "nan")
  }

  /** A successful prefix conversion: the value and the index just after the text it used. */
  datatype Conversion<T> = Conversion(value: T, end: nat)

  /**
   * The optional exponent "e[+-]digits" at i: its value and where it ends.
   * Without digits after the 'e' nothing is consumed.
   */
  function Exponent(s: string, i: nat): (r: (int, nat))
    requires i <= |s|
    ensures i <= r.1 <= |s|
  {
    if i < |s| && (s[i] == 'e' || s[i] == 'E') then
      var negative := i + 1 < |s| && s[i + 1] == '-';
      var start := if i + 1 < |s| && (s[i + 1] == '-' || s[i + 1] == '+') then i + 2 else i + 1;
      var stop := DigitRun(s, start);
      if stop == start then (0, i)
      else (if negative then -(DigitsValue(s[start..stop]) as int) else DigitsValue(s[start..stop]), stop)
    else (0, i)
  }

  /** mantissa * 10^exponent, one power of ten at a time. */
  function Scale(mantissa: real, exponent: int): real
    decreases if exponent >= 0 then exponent else -exponent
  {
    if exponent == 0 then mantissa
    else if exponent > 0 then Scale(mantissa, exponent - 1) * 10.0
    else Scale(mantissa, exponent + 1) / 10.0
  }

  function Strtod(s: string): (r: Option<Conversion<Double>>)
    ensures r.Some? ==> 0 < r.value.end <= |s|
  {
    var i := SkipSpaces(s, 0);
    var negative := i < |s| && s[i] == '-';
    var j := if i < |s| && (s[i] == '-' || s[i] == '+') then i + 1 else i;
    if NanAt(s, j) then Some(Conversion(NaN, j + 3))
    else
      var intEnd := DigitRun(s, j);
      var hasPoint := intEnd < |s| && s[intEnd] == '.';
      var fracStart := if hasPoint then intEnd + 1 else intEnd;
      var fracEnd := DigitRun(s, fracStart);
      if intEnd == j && fracEnd == fracStart then None
      else
        var digits := DigitsValue(s[j..intEnd] + s[fracStart..fracEnd]) as real;
        var (e, end) := Exponent(s, fracEnd);
        var magnitude := Scale(digits, e - (fracEnd - fracStart));
        Some(Conversion(Num(if negative then -magnitude else magnitude), end))
  }

  /**
   * strtol in base 10: leading whitespace, an optional sign, decimal digits.
   * None when no digit follows (strtol then returns 0 and consumes nothing).
   */
  function Strtol(s: string): (r: Option<Conversion<int>>)
    ensures r.Some? ==> 0 < r.value.end <= |s|
  {
    var i := SkipSpaces(s, 0);
    var negative := i < |s| && s[i] == '-';
    var j := if i < |s| && (s[i] == '-' || s[i] == '+') then i + 1 else i;
    var end := DigitRun(s, j);
    if end == j then None
    else
      var magnitude: int := DigitsValue(s[j..end]);
      Some(Conversion(if negative then -magnitude else magnitude, end))
  }

  // ---------------------------------------------------------------------
  // Printing with "%d"

  /** The decimal digits of n, without leading zeros. */
  function Decimal(n: nat): (r: string)
    ensures |r| >= 1 && AllDigits(r)
    ensures DigitsValue(r) == n
  {
    if n < 10 then
      [DigitChar(n)]
    else
      var r := Decimal(n / 10) + [DigitChar(n % 10)];
      assert r[..|r| - 1] == Decimal(n / 10);
      r
  }

  lemma {:induction false} DigitRunOverDigits(s: string, i: nat)
    requires i <= |s| && AllDigits(s[i..])
    ensures DigitRun(s, i) == |s|
    decreases |s| - i
  {
    if i < |s| {
      assert s[i] == s[i..][0];
      assert s[i + 1..] == s[i..][1..];
      DigitRunOverDigits(s, i + 1);
    }
  }

  /** Text that starts with a digit does not spell "nan". */
  lemma NoNanAtDigit(s: string, i: nat)
    requires i < |s| && IsDigit(s[i])
    ensures !NanAt(s, i)
  {
    if i + 3 <= |s| {
      assert s[i..i + 3][0] == s[i];
      assert AsciiLower(s[i]) == s[i];
    }
  }

  /** What "%d" prints, strtod reads back exactly, using the whole text. */
  lemma DecimalStrtod(n: nat)
    ensures Strtod(Decimal(n)) == Some(Conversion(Num(n as real), |Decimal(n)|))
  {
    var s := Decimal(n);
    assert s[0..] == s;
    DigitRunOverDigits(s, 0);
    assert !IsSpace(s[0]);
    assert SkipSpaces(s, 0) == 0;
    NoNanAtDigit(s, 0);
    assert DigitRun(s, |s|) == |s|;
    assert Exponent(s, |s|) == (0, |s|);
    assert s[0..|s|] + s[|s|..|s|] == s;
    assert Scale(n as real, 0) == n as real;
  }

  /** A run of digits from i ends at the first index that is not a digit. */
  lemma {:induction false} DigitRunStopsAt(s: string, i: nat, j: nat)
    requires i <= j <= |s| && AllDigits(s[i..j]) && (j < |s| ==> !IsDigit(s[j]))
    ensures DigitRun(s, i) == j
    decreases j - i
  {
    if i < j {
      assert s[i] == s[i..j][0];
      assert s[i + 1..j] == s[i..j][1..];
      DigitRunStopsAt(s, i + 1, j);
    }
  }

  /**
   * What "%d" prints, followed by text that cannot continue a number, is
   * read back as the printed number; the text after it is not consumed.
   */
  lemma DecimalThenTextStrtod(n: nat, t: string)
    requires t == [] || (!IsDigit(t[0]) && t[0] != '.' && t[0] != 'e' && t[0] != 'E')
    ensures Strtod(Decimal(n) + t) == Some(Conversion(Num(n as real), |Decimal(n)|))
  {
    var d := Decimal(n);
    var s := d + t;
    assert s[0..|d|] == d;
    assert |d| < |s| ==> s[|d|] == t[0];
    DigitRunStopsAt(s, 0, |d|);
    assert s[0] == d[0] && !IsSpace(s[0]);
    assert SkipSpaces(s, 0) == 0;
    NoNanAtDigit(s, 0);
    assert DigitRun(s, |d|) == |d|;
    assert Exponent(s, |d|) == (0, |d|);
    assert s[0..|d|] + s[|d|..|d|] == d;
    assert Scale(n as real, 0) == n as real;
  }

  /** What "%d" prints, strtol reads back exactly, using the whole text. */
  lemma DecimalStrtol(n: nat)
    ensures Strtol(Decimal(n)) == Some(Conversion(n as int, |Decimal(n)|))
  {
    var s := Decimal(n);
    assert s[0..] == s;
    DigitRunOverDigits(s, 0);
    assert !IsSpace(s[0]);
    assert s[0..|s|] == s;
  }
}
