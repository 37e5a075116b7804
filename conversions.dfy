/**
 * The C library conversions ubimkvol relies on, reduced to what the tool
 * observes of them: strtoul/strtoull report how many characters they
 * consumed and the value read, sprintf("%d") writes the decimal digits of a
 * number, and ubiutils_get_multiplier turns a unit suffix into a factor.
 */
module Conversions {

  predicate IsDigit(ch: char) {
    '0' <= ch <= '9'
  }

  predicate AllDigits(s: string) {
    forall i :: 0 <= i < |s| ==> IsDigit(s[i])
  }

  function DigitValue(ch: char): (d: nat)
    requires IsDigit(ch)
    ensures d < 10
  {
    (ch as int - '0' as int) as nat
  }

  function DigitChar(d: nat): (ch: char)
    requires d < 10
    ensures IsDigit(ch) && DigitValue(ch) == d
  {
    ('0' as int + d) as char
  }

  /** Length of the longest prefix of `s` made of decimal digits. */
  function DigitRun(s: string): (k: nat)
    ensures k <= |s|
    ensures AllDigits(s[..k])
    ensures k < |s| ==> !IsDigit(s[k])
  {
    if s != [] && IsDigit(s[0]) then
      var k' := DigitRun(s[1..]);
      assert s[..1 + k'] == [s[0]] + s[1..][..k'];
      1 + k'
    else 0
  }

  /** The number a string of decimal digits denotes, most significant first. */
  function DigitsValue(s: string): nat
    requires AllDigits(s)
  {
    if s == [] then 0 else 10 * DigitsValue(s[..|s| - 1]) + DigitValue(s[|s| - 1])
  }

  /** What a strto* call reports: the characters consumed (`endp - nptr`) and the value. */
  datatype Scan = Scan(consumed: nat, value: int)

  /**
   * strtoul/strtoull as ubimkvol observes them: an optional sign and a run of
   * decimal digits. When there are no digits nothing is consumed (`endp ==
   * nptr`). A leading '-' negates the value, which is what the cast of the
   * unsigned result to a signed field shows for small magnitudes.
   */
  function ParseNumber(s: string): (n: Scan)
    ensures n.consumed <= |s|
    ensures n.consumed == 0 ==> n.value == 0
    ensures n.consumed > 0 ==> IsDigit(s[n.consumed - 1])
    ensures 0 < n.consumed < |s| ==> !IsDigit(s[n.consumed])
    ensures n.consumed > 0 <==>
      || (|s| > 0 && IsDigit(s[0]))
      || (|s| > 1 && (s[0] == '+' || s[0] == '-') && IsDigit(s[1]))
    ensures n.consumed > 0 ==>
      var start := if IsDigit(s[0]) then 0 else 1;
      && start < n.consumed
      && AllDigits(s[start..n.consumed])
      && n.value == (if s[0] == '-' then -(DigitsValue(s[start..n.consumed]) as int) else DigitsValue(s[start..n.consumed]))
  {
    var sign := if |s| > 0 && (s[0] == '+' || s[0] == '-') then 1 else 0;
    var k := DigitRun(s[sign..]);
    if k == 0 then Scan(0, 0)
    else
      assert s[sign..][..k] == s[sign..sign + k];
      var magnitude: int := DigitsValue(s[sign..sign + k]);
      Scan(sign + k, if sign == 1 && s[0] == '-' then -magnitude else magnitude)
  }

  /** The whole of `s` is one number: something was read and nothing is left over. */
  predicate IsNumeral(s: string) {
    0 < ParseNumber(s).consumed == |s|
  }

  /** The digits sprintf("%d") writes for a non-negative number. */
  function Decimal(n: nat): (s: string)
    ensures |s| > 0 && AllDigits(s)
  {
    if n < 10 then [DigitChar(n)] else Decimal(n / 10) + [DigitChar(n % 10)]
  }

  /** Reading back the digits of `Decimal(n)` gives `n`. */
  lemma {:induction false} DecimalValue(n: nat)
    ensures DigitsValue(Decimal(n)) == n
  {
    if n >= 10 {
      var s := Decimal(n);
      assert s[..|s| - 1] == Decimal(n / 10);
      DecimalValue(n / 10);
    }
  }

  /** The digit run of `d + rest` stops exactly where the digits `d` end. */
  lemma {:induction false} DigitRunOfDigits(d: string, rest: string)
    requires AllDigits(d)
    requires rest == [] || !IsDigit(rest[0])
    ensures DigitRun(d + rest) == |d|
  {
    if d != [] {
      assert (d + rest)[1..] == d[1..] + rest;
      DigitRunOfDigits(d[1..], rest);
    }
  }

  /** The parser reads back exactly the digits `Decimal` writes, up to the first non-digit. */
  lemma ParseDecimal(n: nat, rest: string)
    requires rest == [] || !IsDigit(rest[0])
    ensures ParseNumber(Decimal(n) + rest) == Scan(|Decimal(n)|, n)
  {
    var d := Decimal(n);
    var s := d + rest;
    assert s[0] == d[0];
    assert s[0..] == s;
    DigitRunOfDigits(d, rest);
    assert s[0..0 + |d|] == d;
    DecimalValue(n);
  }

  /** A non-negative number written by `Decimal` is a numeral, with its own value. */
  lemma DecimalIsNumeral(n: nat)
    ensures IsNumeral(Decimal(n)) && ParseNumber(Decimal(n)).value == n
  {
    ParseDecimal(n, []);
    assert Decimal(n) + [] == Decimal(n);
  }

  function Pow10(k: nat): nat {
    if k == 0 then 1 else 10 * Pow10(k - 1)
  }

  /** A number below 10^k takes at most k digits. */
  lemma {:induction false} DecimalLength(n: nat, k: nat)
    requires 1 <= k && n < Pow10(k)
    ensures |Decimal(n)| <= k
  {
    if n >= 10 {
      assert k >= 2;
      assert n / 10 < Pow10(k - 1);
      DecimalLength(n / 10, k - 1);
    }
  }

  /**
   * The factor of a unit suffix, or -1 for a suffix that is not recognised.
   * common.c is not part of this model: the three suffixes are the ones the
   * tool's own error message names.
   */
  function Multiplier(suffix: string): (m: int)
    ensures m == -1 || m >= 1024
    ensures m != -1 <==> suffix == "KiB" || suffix == "MiB" || suffix == "GiB"
    ensures suffix == "KiB" ==> m == 1024
    ensures suffix == "MiB" ==> m == 1024 * 1024
    ensures suffix == "GiB" ==> m == 1024 * 1024 * 1024
  {
    if suffix == "KiB" then 1024
    else if suffix == "MiB" then 1024 * 1024
    else if suffix == "GiB" then 1024 * 1024 * 1024
    else -1
  }
}
