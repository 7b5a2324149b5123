/**
 * Positional custom-metric identifiers. The script names the metric of
 * slot n by string concatenation, 'ga:metric' + n, where JavaScript prints
 * the number n in decimal. This module models that printing and gives the
 * inverse mapping from an id back to its slot number.
 */
module MetricIds {
  import opened Wrappers

  /** The fixed prefix of every custom-metric id. */
  const Prefix: string := "ga:metric"

  predicate IsDigit(c: char) {
    '0' <= c <= '9'
  }

  predicate AllDigits(s: string) {
    forall i :: 0 <= i < |s| ==> IsDigit(s[i])
  }

  /** A decimal numeral as JavaScript prints a non-negative integer: no sign, no leading zero. */
  predicate IsCanonical(s: string) {
    s != [] && AllDigits(s) && (s[0] == '0' ==> |s| == 1)
  }

  function DigitChar(d: nat): (c: char)
    requires d < 10
    ensures IsDigit(c)
  {
    (48 + d) as char
  }

  function DigitValue(c: char): (d: nat)
    requires IsDigit(c)
    ensures d < 10 && DigitChar(d) == c
  {
    c as int - 48
  }

  /**
   * The decimal text of n, as string concatenation prints a slot number. JavaScript
   * prints whole numbers this way only below 1e21; slot numbers are at most 200.
   */
  function NatToDecimal(n: nat): (s: string)
    ensures IsCanonical(s)
    ensures s[0] == '0' <==> n == 0
    decreases n
  {
    if n < 10 then [DigitChar(n)] else NatToDecimal(n / 10) + [DigitChar(n % 10)]
  }

  /** The number a string of decimal digits denotes. */
  function DecimalValue(s: string): nat
    requires AllDigits(s)
    decreases |s|
  {
    if s == [] then 0 else 10 * DecimalValue(s[..|s| - 1]) + DigitValue(s[|s| - 1])
  }

  lemma {:induction false} DecimalValueOfNatToDecimal(n: nat)
    ensures DecimalValue(NatToDecimal(n)) == n
    decreases n
  {
    if n >= 10 {
      var s := NatToDecimal(n);
      DecimalValueOfNatToDecimal(n / 10);
      assert s[..|s| - 1] == NatToDecimal(n / 10);
    }
  }

  lemma {:induction false} LeadingDigitPositive(s: string)
    requires AllDigits(s) && s != [] && s[0] != '0'
    ensures DecimalValue(s) > 0
    decreases |s|
  {
    if |s| > 1 {
      LeadingDigitPositive(s[..|s| - 1]);
    }
  }

  lemma {:induction false} NatToDecimalOfDecimalValue(s: string)
    requires IsCanonical(s)
    ensures NatToDecimal(DecimalValue(s)) == s
    decreases |s|
  {
    var v := DecimalValue(s);
    if |s| == 1 {
      assert s == [s[0]];
    } else {
      var p := s[..|s| - 1];
      var last := s[|s| - 1];
      assert p[0] == s[0];
      NatToDecimalOfDecimalValue(p);
      LeadingDigitPositive(p);
      assert v == 10 * DecimalValue(p) + DigitValue(last);
      assert v / 10 == DecimalValue(p) && v % 10 == DigitValue(last);
      assert s == p + [last];
    }
  }

  /** The id of the metric in slot n: 'ga:metric' + n. */
  function MetricId(n: nat): string {
    Prefix + NatToDecimal(n)
  }

  /** The slot number an id names, if it is an id that MetricId produces. */
  function ParseMetricId(id: string): Option<nat> {
    if |Prefix| <= |id| && id[..|Prefix|] == Prefix && IsCanonical(id[|Prefix|..])
    then Some(DecimalValue(id[|Prefix|..]))
    else None
  }

  /** Every slot number can be read back from its id. */
  lemma MetricIdRoundTrip(n: nat)
    ensures ParseMetricId(MetricId(n)) == Some(n)
  {
    var id := MetricId(n);
    assert id[..|Prefix|] == Prefix;
    assert id[|Prefix|..] == NatToDecimal(n);
    DecimalValueOfNatToDecimal(n);
  }

  /** Every id that parses is the id MetricId gives its slot number. */
  lemma ParseMetricIdSound(id: string, n: nat)
    requires ParseMetricId(id) == Some(n)
    ensures MetricId(n) == id
  {
    NatToDecimalOfDecimalValue(id[|Prefix|..]);
    assert id == id[..|Prefix|] + id[|Prefix|..];
  }

  /** Distinct slots never share an id. */
  lemma MetricIdInjective(m: nat, n: nat)
    ensures MetricId(m) == MetricId(n) <==> m == n
  {
    MetricIdRoundTrip(m);
    MetricIdRoundTrip(n);
  }
}
