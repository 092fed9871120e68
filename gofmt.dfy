/** Go's 64-bit integers and their `%d` rendering (fmt.Sprintf), with the
    decimal reading that inverts it. */
module GoFmt {

  /** Go's int64, and int on the 64-bit platforms the program targets. */
  type Int64 = x: int | -0x8000_0000_0000_0000 <= x < 0x8000_0000_0000_0000

  predicate IsDigit(c: char) {
    '0' <= c <= '9'
  }

  predicate AllDigits(s: string) {
    forall k :: 0 <= k < |s| ==> IsDigit(s[k])
  }

  function DigitChar(d: int): (c: char)
    requires 0 <= d < 10
    ensures IsDigit(c)
  {
    (('0' as int) + d) as char
  }

  /** The value of a string of decimal digits, most significant first. */
  function DigitsValue(s: string): (n: nat)
    requires AllDigits(s)
  {
    if s == [] then 0
    else DigitsValue(s[..|s| - 1]) * 10 + ((s[|s| - 1] as int) - ('0' as int))
  }

  /** The decimal digits of `n`, without leading zeros. */
  function NatToDecimal(n: nat): (r: string)
    ensures |r| >= 1 && AllDigits(r)
    ensures |r| > 1 ==> r[0] != '0'
    ensures DigitsValue(r) == n
  {
    if n < 10 then [DigitChar(n)]
    else
      var r := NatToDecimal(n / 10) + [DigitChar(n % 10)];
      assert r[..|r| - 1] == NatToDecimal(n / 10);
      r
  }

  /** The integer a string written as an optional `-` and digits denotes. */
  predicate IsInteger(s: string) {
    if |s| > 0 && s[0] == '-' then |s| > 1 && AllDigits(s[1..])
    else |s| > 0 && AllDigits(s)
  }

  function IntegerValue(s: string): (i: int)
    requires IsInteger(s)
  {
    if s[0] == '-' then -(DigitsValue(s[1..]) as int) else DigitsValue(s)
  }

  /** The digits of an integer string, without its sign. */
  function Magnitude(s: string): (d: string)
    requires IsInteger(s)
    ensures |d| >= 1 && AllDigits(d)
  {
    if s[0] == '-' then s[1..] else s
  }

  /** The form `%d` writes: no leading zero, and no "-0". */
  predicate Canonical(s: string) {
    && IsInteger(s)
    && (|Magnitude(s)| > 1 ==> Magnitude(s)[0] != '0')
    && s != "-0"
  }

  /** `%d` of an integer: its decimal digits, after a `-` when negative. */
  function IntToDecimal(i: int): (r: string)
    ensures Canonical(r) && IntegerValue(r) == i
    ensures r[0] == '-' <==> i < 0
  {
    if i < 0 then
      var r := "-" + NatToDecimal(-i);
      assert r[1..] == NatToDecimal(-i);
      r
    else NatToDecimal(i)
  }

  /** Distinct integers never render alike. */
  lemma IntToDecimalInjective(a: int, b: int)
    requires IntToDecimal(a) == IntToDecimal(b)
    ensures a == b
  {
  }

  /** Digits that do not start with a zero denote a positive number. */
  lemma {:induction false} LeadingDigitPositive(d: string)
    requires |d| >= 1 && AllDigits(d) && d[0] != '0'
    ensures DigitsValue(d) >= 1
    decreases |d|
  {
    if |d| > 1 {
      LeadingDigitPositive(d[..|d| - 1]);
    }
  }

  /** Rendering the value of canonical digits gives the digits back. */
  lemma {:induction false} NatToDecimalOfDigits(d: string)
    requires |d| >= 1 && AllDigits(d) && (|d| > 1 ==> d[0] != '0')
    ensures NatToDecimal(DigitsValue(d)) == d
    decreases |d|
  {
    if |d| > 1 {
      var init := d[..|d| - 1];
      LeadingDigitPositive(init);
      NatToDecimalOfDigits(init);
      assert d == init + [d[|d| - 1]];
    }
  }

  /** Every canonical integer string is the rendering of its value, so
      `%d` output is fixed by the value it reads back as. */
  lemma DecimalRoundTrip(s: string)
    requires Canonical(s)
    ensures IntToDecimal(IntegerValue(s)) == s
  {
    var d := Magnitude(s);
    NatToDecimalOfDigits(d);
    if s[0] == '-' {
      LeadingDigitPositive(d);
      assert s == "-" + d;
    }
  }
}
