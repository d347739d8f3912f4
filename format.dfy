/**
 * Text forms of the two non-string fields of a record: the date, written
 * as zero-padded `yyyy-MM-dd`, and the amount, written as a plain decimal
 * number with no trailing fractional zeros. Each has a parser, and each
 * rendering is proved to read back to the value it came from.
 */
module Format {
  import opened Wrappers
  import opened Text
  import opened Records

  /** `yyyy-MM-dd`; a year past 9999 keeps all of its digits. */
  function FormatDate(d: Date): string {
    Decimal(d.year, 4) + "-" + Decimal(d.month, 2) + "-" + Decimal(d.day, 2)
  }

  /** A date's text holds only digits and dashes: no separator, quote or line break. */
  lemma DateTextPlain(d: Date)
    ensures ',' !in FormatDate(d) && '\n' !in FormatDate(d) && '"' !in FormatDate(d)
  {
    DecimalDigits(d.year, 4);
    DecimalDigits(d.month, 2);
    DecimalDigits(d.day, 2);
    var s := FormatDate(d);
    assert forall i :: 0 <= i < |s| ==> IsDigit(s[i]) || s[i] == '-';
  }

  /** Reads a ten-character `yyyy-MM-dd` text. */
  function ParseDate(s: string): Option<Date> {
    if |s| == 10 && s[4] == '-' && s[7] == '-' then
      match (ParseDigits(s[..4]), ParseDigits(s[5..7]), ParseDigits(s[8..]))
      case (Some(year), Some(month), Some(day)) => Some(Date(year, month, day))
      case _ => None
    else None
  }

  /** A calendar date with a four-digit year formats to ten characters and reads back. */
  lemma DateRoundTrip(d: Date)
    requires IsCalendarDate(d) && d.year <= 9999
    ensures |FormatDate(d)| == 10
    ensures ParseDate(FormatDate(d)) == Some(d)
  {
    var y, m, dd := Decimal(d.year, 4), Decimal(d.month, 2), Decimal(d.day, 2);
    DecimalLength(d.year, 4);
    DecimalLength(d.month, 2);
    DecimalLength(d.day, 2);
    ParseDecimal(d.year, 4);
    ParseDecimal(d.month, 2);
    ParseDecimal(d.day, 2);
    var s := FormatDate(d);
    assert s == y + "-" + m + "-" + dd;
    assert s[..4] == y;
    assert s[5..7] == m;
    assert s[8..] == dd;
  }

  /** `s` without its trailing '0' characters. */
  function TrimZeros(s: string): (r: string)
    ensures |r| <= |s| && r == s[..|r|]
    ensures r == [] || r[|r| - 1] != '0'
    ensures forall i :: |r| <= i < |s| ==> s[i] == '0'
  {
    if |s| > 0 && s[|s| - 1] == '0' then TrimZeros(s[..|s| - 1]) else s
  }

  /** The hundredths after the decimal point, without trailing zeros; nothing when zero. */
  function FractionText(c: nat): string
    requires c < 100
  {
    if c == 0 then "" else "." + TrimZeros(Decimal(c, 2))
  }

  /**
   * An amount of hundredths as a decimal number: a minus sign when
   * negative, the whole units, then a point and one or two digits only
   * when the fraction is nonzero (4250 is "42.5", 200000 is "2000").
   */
  function AmountText(a: int): string {
    if a < 0 then "-" + UnsignedText(-a) else UnsignedText(a)
  }

  /** The whole units, then the fraction if it is nonzero. */
  function UnsignedText(n: nat): string {
    Decimal(n / 100, 1) + FractionText(n % 100)
  }

  /** An amount's text holds only digits, a sign and a point: no separator, quote or line break. */
  lemma AmountTextPlain(a: int)
    ensures ',' !in AmountText(a) && '\n' !in AmountText(a) && '"' !in AmountText(a)
  {
    var n := if a < 0 then -a else a;
    var c := n % 100;
    DecimalDigits(n / 100, 1);
    DecimalDigits(c, 2);
    var f := TrimZeros(Decimal(c, 2));
    assert AllDigits(f) by {
      assert forall i :: 0 <= i < |f| ==> f[i] == Decimal(c, 2)[i];
    }
    var u := UnsignedText(n);
    assert forall i :: 0 <= i < |u| ==> IsDigit(u[i]) || u[i] == '.';
  }

  /** The value of a one- or two-digit fraction, in hundredths. */
  function ParseFraction(frac: string): Option<nat> {
    match ParseDigits(frac)
    case None => None
    case Some(f) => Some(if |frac| == 1 then f * 10 else f)
  }

  /** Reads nonempty whole units and a fraction of at most two digits, in hundredths. */
  function ParseParts(whole: string, frac: string): Option<nat> {
    if whole == [] then None
    else
      match (ParseDigits(whole), ParseFraction(frac))
      case (Some(w), Some(f)) => Some(w * 100 + f)
      case _ => None
  }

  /**
   * Reads an unsigned decimal number with at most two fractional digits,
   * in hundredths; the fraction is whatever follows the last point.
   */
  function ParseUnsigned(u: string): Option<nat> {
    match SplitLast(u, '.')
    case None => ParseParts(u, "")
    case Some((whole, frac)) => if 1 <= |frac| <= 2 then ParseParts(whole, frac) else None
  }

  /** Reads a decimal number with an optional leading minus sign, in hundredths. */
  function ParseAmount(s: string): Option<int> {
    var negative := |s| > 0 && s[0] == '-';
    match ParseUnsigned(if negative then s[1..] else s)
    case None => None
    case Some(n) => Some(if negative then -(n as int) else n)
  }

  lemma ParseWhole(whole: string, w: nat)
    requires whole != [] && ParseDigits(whole) == Some(w)
    ensures ParseUnsigned(whole) == Some(w * 100)
  {
    ParseDigitsAccepts(whole);
    assert '.' !in whole by {
      assert forall i :: 0 <= i < |whole| ==> IsDigit(whole[i]);
    }
  }

  lemma ParseWithFraction(whole: string, frac: string, w: nat, f: nat)
    requires whole != [] && ParseDigits(whole) == Some(w)
    requires 1 <= |frac| <= 2 && ParseFraction(frac) == Some(f)
    ensures ParseUnsigned(whole + ("." + frac)) == Some(w * 100 + f)
  {
    ParseDigitsAccepts(frac);
    assert '.' !in frac by {
      assert forall i :: 0 <= i < |frac| ==> IsDigit(frac[i]);
    }
    assert whole + ("." + frac) == whole + ['.'] + frac;
    SplitLastAt(whole, '.', frac);
  }

  lemma TwoDigits(c: nat)
    requires c < 100
    ensures Decimal(c, 2) == [Digit(c / 10), Digit(c % 10)]
  {
  }

  /** The digits a nonzero fraction is written with, and their value. */
  lemma FractionDigits(c: nat) returns (f: string)
    requires 0 < c < 100
    ensures FractionText(c) == "." + f
    ensures 1 <= |f| <= 2 && ParseFraction(f) == Some(c)
  {
    TwoDigits(c);
    var d := Decimal(c, 2);
    assert d[..1] == [Digit(c / 10)];
    assert [Digit(c / 10)][..0] == [];
    if c % 10 == 0 {
      assert DigitValue(d[1]) == 0;
      assert TrimZeros(d) == TrimZeros(d[..1]);
      assert DigitValue(d[0]) != 0;
      f := d[..1];
      assert ParseDigits(f) == Some(c / 10);
    } else {
      assert DigitValue(d[1]) != 0;
      f := d;
      ParseDecimal(c, 2);
    }
  }

  /** The text of a fraction reads back as that fraction. */
  lemma FractionRoundTrip(whole: string, w: nat, c: nat)
    requires whole != [] && ParseDigits(whole) == Some(w) && c < 100
    ensures ParseUnsigned(whole + FractionText(c)) == Some(w * 100 + c)
  {
    if c == 0 {
      assert whole + FractionText(c) == whole;
      ParseWhole(whole, w);
    } else {
      var f := FractionDigits(c);
      ParseWithFraction(whole, f, w, c);
    }
  }

  lemma UnsignedRoundTrip(n: nat)
    ensures ParseUnsigned(UnsignedText(n)) == Some(n)
  {
    var whole := Decimal(n / 100, 1);
    ParseDecimal(n / 100, 1);
    FractionRoundTrip(whole, n / 100, n % 100);
    assert n / 100 * 100 + n % 100 == n;
    assert UnsignedText(n) == whole + FractionText(n % 100);
  }

  /** The text of an unsigned amount starts with a digit, so it carries no sign. */
  lemma ParseAmountUnsigned(n: nat)
    ensures ParseAmount(UnsignedText(n)) == ParseUnsigned(UnsignedText(n))
  {
    DecimalDigits(n / 100, 1);
    assert UnsignedText(n)[0] == Decimal(n / 100, 1)[0];
  }

  /** The text of a negative amount is a minus sign and the text of its magnitude. */
  lemma ParseAmountNegated(n: nat)
    ensures ParseAmount("-" + UnsignedText(n)) == Some(-(n as int))
  {
    UnsignedRoundTrip(n);
    assert ("-" + UnsignedText(n))[1..] == UnsignedText(n);
  }

  lemma NegativeRoundTrip(n: nat)
    requires n > 0
    ensures ParseAmount(AmountText(-(n as int))) == Some(-(n as int))
  {
    ParseAmountNegated(n);
  }

  lemma NonNegativeRoundTrip(a: int)
    requires a >= 0
    ensures ParseAmount(AmountText(a)) == Some(a)
  {
    UnsignedRoundTrip(a);
    ParseAmountUnsigned(a);
  }

  /** Every amount reads back from its text form. */
  lemma AmountRoundTrip(a: int)
    ensures ParseAmount(AmountText(a)) == Some(a)
  {
    if a < 0 {
      NegativeRoundTrip(-a);
    } else {
      NonNegativeRoundTrip(a);
    }
  }
}
