/**
 * Amount text as the forms hold it, at cent precision.
 *
 * `Parse` stands for `Number.parseFloat` on the text a number input produces
 * (an optional minus sign, decimal digits, and at most two fractional digits);
 * `None` stands for every text outside that syntax. `Format` stands for
 * `Number.prototype.toString` on an amount of whole cents: no trailing
 * fractional zeros, no decimal point for whole amounts.
 */
module Decimal {
  import opened Records

  predicate IsDigit(c: char)
  {
    '0' <= c <= '9'
  }

  function DigitValue(c: char): (d: nat)
    requires IsDigit(c)
    ensures d < 10
  {
    (c as int) - ('0' as int)
  }

  function DigitChar(d: nat): (c: char)
    requires d < 10
    ensures IsDigit(c) && DigitValue(c) == d
  {
    ((('0' as int) + d) as char)
  }

  predicate AllDigits(s: string)
  {
    forall i :: 0 <= i < |s| ==> IsDigit(s[i])
  }

  /** The value of a string of decimal digits, most significant first. */
  function DigitsValue(s: string): nat
    requires AllDigits(s)
  {
    if s == [] then 0 else DigitsValue(s[..|s| - 1]) * 10 + DigitValue(s[|s| - 1])
  }

  /** The shortest decimal spelling of a natural number. */
  function DigitString(n: nat): (s: string)
    ensures |s| > 0 && AllDigits(s)
  {
    if n < 10 then [DigitChar(n)] else DigitString(n / 10) + [DigitChar(n % 10)]
  }

  lemma {:induction false} DigitStringValue(n: nat)
    ensures DigitsValue(DigitString(n)) == n
  {
    if n >= 10 {
      var s := DigitString(n);
      assert s[..|s| - 1] == DigitString(n / 10);
      DigitStringValue(n / 10);
    }
  }

  /** The text of a non-negative amount of cents. */
  function FormatUnsigned(cents: nat): (s: string)
    ensures |s| > 0 && IsDigit(s[0])
  {
    var whole := DigitString(cents / 100);
    var frac := cents % 100;
    if frac == 0 then whole
    else if frac % 10 == 0 then whole + "." + [DigitChar(frac / 10)]
    else whole + "." + [DigitChar(frac / 10), DigitChar(frac % 10)]
  }

  /** `amount.toString()` for an amount of cents. */
  function Format(cents: int): (s: string)
    ensures |s| > 0
    ensures s[0] == '-' <==> cents < 0
  {
    if cents < 0 then "-" + FormatUnsigned(-cents) else FormatUnsigned(cents)
  }

  /** An unsigned decimal with zero, one or two fractional digits, in cents. */
  function ParseUnsigned(s: string): (r: Option<nat>)
    ensures r.Some? ==> |s| > 0 && IsDigit(s[0])
  {
    if |s| > 0 && AllDigits(s) then
      Some(DigitsValue(s) * 100)
    else if |s| >= 3 && s[|s| - 2] == '.' && AllDigits(s[..|s| - 2]) && IsDigit(s[|s| - 1]) then
      Some(DigitsValue(s[..|s| - 2]) * 100 + DigitValue(s[|s| - 1]) * 10)
    else if |s| >= 4 && s[|s| - 3] == '.' && AllDigits(s[..|s| - 3])
            && IsDigit(s[|s| - 2]) && IsDigit(s[|s| - 1]) then
      Some(DigitsValue(s[..|s| - 3]) * 100 + DigitValue(s[|s| - 2]) * 10 + DigitValue(s[|s| - 1]))
    else
      None
  }

  /** `Number.parseFloat(s)`, in cents, on the texts a number input yields. */
  function Parse(s: string): (r: Option<int>)
    ensures r.Some? ==> s != ""
    ensures r.Some? && r.value < 0 ==> s[0] == '-'
  {
    if |s| > 0 && s[0] == '-' then
      match ParseUnsigned(s[1..])
      case Some(v) => Some(0 - v as int)
      case None => None
    else
      ParseUnsigned(s)
  }

  /** The amount field of a form holds either nothing or a number the input accepted. */
  predicate IsAmountText(s: string)
  {
    s == "" || Parse(s).Some?
  }

  lemma {:induction false} ParseFormatUnsigned(cents: nat)
    ensures ParseUnsigned(FormatUnsigned(cents)) == Some(cents)
  {
    var whole := DigitString(cents / 100);
    var frac := cents % 100;
    DigitStringValue(cents / 100);
    var s := FormatUnsigned(cents);
    if frac == 0 {
      assert s == whole;
    } else if frac % 10 == 0 {
      assert s == whole + ['.', DigitChar(frac / 10)];
      assert s[|whole|] == '.';
      assert !AllDigits(s);
      assert s[..|s| - 2] == whole;
    } else {
      assert s == whole + ['.', DigitChar(frac / 10), DigitChar(frac % 10)];
      assert s[|whole|] == '.';
      assert !AllDigits(s);
      assert s[|s| - 2] == DigitChar(frac / 10);
      assert s[..|s| - 3] == whole;
    }
  }

  /** A text that starts with a digit is read as unsigned. */
  lemma ParseDigitFirst(s: string)
    requires |s| > 0 && IsDigit(s[0])
    ensures Parse(s) == ParseUnsigned(s)
  {
  }

  /** A text that starts with a minus sign is read as the negation of the rest. */
  lemma ParseMinus(u: string, v: nat)
    requires ParseUnsigned(u) == Some(v)
    ensures Parse("-" + u) == Some(0 - v)
  {
    assert ("-" + u)[0] == '-' && ("-" + u)[1..] == u;
  }

  /** Reading back the text of an amount gives the amount. */
  lemma ParseFormat(cents: int)
    ensures Parse(Format(cents)) == Some(cents)
  {
    if cents < 0 {
      ParseFormatUnsigned(-cents);
      ParseMinus(FormatUnsigned(-cents), -cents);
    } else {
      ParseFormatUnsigned(cents);
      ParseDigitFirst(FormatUnsigned(cents));
    }
  }

  /** Two amounts with the same text are the same amount. */
  lemma FormatInjective(a: int, b: int)
    requires Format(a) == Format(b)
    ensures a == b
  {
    ParseFormat(a);
    ParseFormat(b);
  }
}
