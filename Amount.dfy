/**
 * Money amounts. The plugin renders the pledge with
 * number_format($amount, 2, '.', '') and later credits the project with the
 * m_amount text of the notification. Both are modelled on integer cents: the
 * formatter, and the decimal reading of the text back into cents.
 */
module Amount {
  import opened Wrappers

  predicate IsDigit(c: char) { '0' <= c <= '9' }

  predicate AllDigits(s: string) {
    forall i :: 0 <= i < |s| ==> IsDigit(s[i])
  }

  function DigitChar(d: nat): (c: char)
    requires d < 10
    ensures IsDigit(c)
  {
    ('0' as int + d) as char
  }

  function DigitValue(c: char): (d: nat)
    requires IsDigit(c)
    ensures d < 10
  {
    c as int - '0' as int
  }

  /** Decimal rendering of a natural number: digits only, no leading zero. */
  function NatToDecimal(n: nat): (r: string)
    ensures |r| >= 1 && AllDigits(r)
    ensures |r| > 1 ==> r[0] != '0'
    decreases n
  {
    if n < 10 then [DigitChar(n)] else NatToDecimal(n / 10) + [DigitChar(n % 10)]
  }

  /** The number a string of decimal digits denotes. */
  function DecimalValue(s: string): nat
    requires AllDigits(s)
    decreases |s|
  {
    if s == [] then 0 else DecimalValue(s[..|s| - 1]) * 10 + DigitValue(s[|s| - 1])
  }

  lemma {:induction false} DecimalRoundTrip(n: nat)
    ensures DecimalValue(NatToDecimal(n)) == n
    decreases n
  {
    if n >= 10 {
      var r := NatToDecimal(n);
      DecimalRoundTrip(n / 10);
      assert r[..|r| - 1] == NatToDecimal(n / 10);
    }
  }

  /** number_format(cents / 100, 2, '.', ''): whole part, a '.', exactly two decimals, no thousands separator. */
  function FormatAmount(cents: nat): (r: string)
    ensures |r| >= 4 && r[|r| - 3] == '.'
    ensures AllDigits(r[..|r| - 3]) && AllDigits(r[|r| - 2..])
    ensures ',' !in r
  {
    var r := NatToDecimal(cents / 100) + "." + [DigitChar(cents % 100 / 10), DigitChar(cents % 10)];
    assert r[..|r| - 3] == NatToDecimal(cents / 100);
    r
  }

  /**
   * The unsigned decimal amount a text denotes, in cents: digits, optionally
   * followed by '.' and one or two decimals. Anything else has no value.
   */
  function ParseUnsigned(s: string): Option<nat> {
    if |s| >= 4 && s[|s| - 3] == '.' && AllDigits(s[..|s| - 3]) && AllDigits(s[|s| - 2..]) then
      Some(DecimalValue(s[..|s| - 3]) * 100 + DecimalValue(s[|s| - 2..]))
    else if |s| >= 3 && s[|s| - 2] == '.' && AllDigits(s[..|s| - 2]) && IsDigit(s[|s| - 1]) then
      Some(DecimalValue(s[..|s| - 2]) * 100 + DigitValue(s[|s| - 1]) * 10)
    else if |s| >= 1 && AllDigits(s) then
      Some(DecimalValue(s) * 100)
    else
      None
  }

  /**
   * The amount a text denotes, in cents, as PHP's arithmetic reads it: an
   * optional '-' or '+' sign, then an unsigned amount. Only a leading '-'
   * gives a negative amount.
   */
  function ParseAmount(s: string): (r: Option<int>)
    ensures r.Some? ==> s != []
    ensures r.Some? && r.value < 0 ==> s[0] == '-'
    ensures r.Some? && s[0] == '-' ==> r.value <= 0
  {
    if |s| >= 1 && s[0] == '-' then
      (match ParseUnsigned(s[1..]) case Some(v) => Some(-(v as int)) case None => None)
    else if |s| >= 1 && s[0] == '+' then ParseUnsigned(s[1..])
    else ParseUnsigned(s)
  }

  /** Reading a formatted amount back gives the cents it was formatted from. */
  lemma AmountRoundTrip(cents: nat)
    ensures ParseAmount(FormatAmount(cents)) == Some(cents)
  {
    var r := FormatAmount(cents);
    assert r[0] == r[..|r| - 3][0];
    UnsignedRoundTrip(cents);
  }

  lemma UnsignedRoundTrip(cents: nat)
    ensures ParseUnsigned(FormatAmount(cents)) == Some(cents)
  {
    var r := FormatAmount(cents);
    var hi, lo := cents % 100 / 10, cents % 10;
    DecimalRoundTrip(cents / 100);
    assert r[..|r| - 3] == NatToDecimal(cents / 100);
    var frac := r[|r| - 2..];
    assert frac == [DigitChar(hi), DigitChar(lo)];
    assert frac[..1] == [DigitChar(hi)] && frac[..1][..0] == [];
    assert DigitValue(DigitChar(hi)) == hi && DigitValue(DigitChar(lo)) == lo;
    assert DecimalValue(frac[..1]) == hi;
    assert DecimalValue(frac) == hi * 10 + lo;
    assert cents == cents / 100 * 100 + hi * 10 + lo;
  }

  /** A formatted amount behind a '-' reads as the negated cents. */
  lemma NegatedAmountRoundTrip(cents: nat)
    ensures ParseAmount("-" + FormatAmount(cents)) == Some(-(cents as int))
  {
    var r := FormatAmount(cents);
    AmountRoundTrip(cents);
    assert r[0] == r[..|r| - 3][0];
    assert ("-" + r)[1..] == r;
  }

  /**
   * The amount a project is credited with for an m_amount text: its value
   * when it has one, which is negative only for a leading '-'; a text with no
   * value credits nothing.
   */
  function AmountCents(s: string): (cents: int)
    ensures ParseAmount(s).Some? ==> cents == ParseAmount(s).value
    ensures ParseAmount(s).None? ==> cents == 0
    ensures cents != 0 ==> ParseAmount(s) == Some(cents)
    ensures cents < 0 ==> s[0] == '-'
  {
    ParseAmount(s).GetOr(0)
  }

  /**
   * The amount text the payment form sends, posted back as m_amount, credits
   * exactly the pledged cents; the same text behind a '-' debits them.
   */
  lemma FormAmountCredited(cents: nat)
    ensures AmountCents(FormatAmount(cents)) == cents
    ensures AmountCents("-" + FormatAmount(cents)) == -(cents as int)
  {
    AmountRoundTrip(cents);
    NegatedAmountRoundTrip(cents);
  }
}
