/**
 * Decimal text of 32-bit integers: the parse Integer.parseInt performs on
 * the "sdpMLineIndex" field of an inbound ICE entry, and Integer.toString,
 * the decimal text an index has when it travels as a string.
 */
module Decimal {
  import opened Wrappers

  /** Java's int. */
  newtype int32 = x: int | -0x8000_0000 <= x < 0x8000_0000

  /** Raised by Integer.parseInt; carries the rejected input (None for null). */
  datatype NumberFormatException = NumberFormatException(input: Option<string>)

  predicate IsDigit(ch: char) {
    '0' <= ch <= '9'
  }

  predicate IsDigits(s: string) {
    forall i :: 0 <= i < |s| ==> IsDigit(s[i])
  }

  function DigitValue(ch: char): nat
    requires IsDigit(ch)
  {
    ch as int - '0' as int
  }

  function DigitChar(d: nat): char
    requires d < 10
  {
    ('0' as int + d) as char
  }

  /** The value of a digit string, accumulated from the most significant digit. */
  function DigitsValue(s: string): nat
    requires IsDigits(s)
  {
    if s == [] then 0 else DigitsValue(s[..|s| - 1]) * 10 + DigitValue(s[|s| - 1])
  }

  /** Splits off one optional leading sign: whether it is '-', and the rest. */
  function SplitSign(s: string): (bool, string) {
    if s != [] && (s[0] == '-' || s[0] == '+') then (s[0] == '-', s[1..]) else (false, s)
  }

  /** What Integer.parseInt accepts: an optional sign followed by at least one digit. */
  predicate IsDecimal(s: string) {
    SplitSign(s).1 != [] && IsDigits(SplitSign(s).1)
  }

  /** The integer a decimal literal denotes. */
  function DecimalValue(s: string): int
    requires IsDecimal(s)
  {
    var (negative, digits) := SplitSign(s);
    if negative then 0 - DigitsValue(digits) else DigitsValue(digits)
  }

  /** The range of Java's int. */
  predicate InInt32(n: int) {
    -0x8000_0000 <= n < 0x8000_0000
  }

  /**
   * Integer.parseInt(text) in radix 10. Null, the empty string, a lone sign,
   * any non-digit after the sign, and a value outside the int range all raise
   * NumberFormatException; leading zeros are accepted.
   */
  function ParseInt(text: Option<string>): (r: Result<int32, NumberFormatException>)
    ensures text.None? ==> r.Err?
    ensures r.Err? ==> r.error.input == text
    ensures r.Ok? ==> text.Some? && IsDecimal(text.value)
    ensures r.Ok? && r.value < 0 ==> text.value[0] == '-'
  {
    match text
    case None => Err(NumberFormatException(text))
    case Some(s) =>
      if !IsDecimal(s) then Err(NumberFormatException(text))
      else
        var v := DecimalValue(s);
        if InInt32(v) then Ok(v as int32) else Err(NumberFormatException(text))
  }

  /** Decimal digits of a natural number, without leading zeros. */
  function FormatNat(n: nat): (s: string)
    ensures s != [] && IsDigits(s)
  {
    if n < 10 then [DigitChar(n)] else FormatNat(n / 10) + [DigitChar(n % 10)]
  }

  /** Integer.toString: the canonical decimal text of an integer. */
  function FormatInt(n: int): string {
    if n < 0 then "-" + FormatNat(-n) else FormatNat(n)
  }

  lemma {:induction false} DigitsValueOfFormatNat(n: nat)
    ensures DigitsValue(FormatNat(n)) == n
  {
    if n >= 10 {
      var s := FormatNat(n);
      assert s[..|s| - 1] == FormatNat(n / 10);
      DigitsValueOfFormatNat(n / 10);
    }
  }

  /**
   * Parsing the decimal text of any integer gives that integer back exactly
   * when it fits in an int, and raises NumberFormatException otherwise.
   */
  lemma ParseFormatInt(n: int)
    ensures InInt32(n) ==> ParseInt(Some(FormatInt(n))) == Ok(n as int32)
    ensures !InInt32(n) ==> ParseInt(Some(FormatInt(n))).Err?
  {
    var s := FormatInt(n);
    if n < 0 {
      assert s[0] == '-' && s[1..] == FormatNat(-n);
      DigitsValueOfFormatNat(-n);
    } else {
      assert IsDigit(s[0]);
      DigitsValueOfFormatNat(n);
    }
  }

  /** Drops leading zeros from a digit string, keeping at least one digit. */
  function StripZeros(d: string): (r: string)
    requires d != [] && IsDigits(d)
    ensures r != [] && IsDigits(r) && (|r| == 1 || r[0] != '0')
  {
    if |d| > 1 && d[0] == '0' then StripZeros(d[1..]) else d
  }

  /** The canonical spelling of a decimal literal: no '+', no leading zeros, no "-0". */
  function Canonical(s: string): string
    requires IsDecimal(s)
  {
    var (negative, digits) := SplitSign(s);
    var magnitude := StripZeros(digits);
    if negative && magnitude != "0" then "-" + magnitude else magnitude
  }

  lemma {:induction false} ZeroPrefixValue(d: string)
    requires IsDigits(d)
    ensures DigitsValue(['0'] + d) == DigitsValue(d)
  {
    var z := ['0'] + d;
    if d == [] {
      assert z[..|z| - 1] == [];
    } else {
      assert z[..|z| - 1] == ['0'] + d[..|d| - 1];
      ZeroPrefixValue(d[..|d| - 1]);
    }
  }

  lemma {:induction false} StripZerosValue(d: string)
    requires d != [] && IsDigits(d)
    ensures DigitsValue(StripZeros(d)) == DigitsValue(d)
  {
    if |d| > 1 && d[0] == '0' {
      assert d == ['0'] + d[1..];
      ZeroPrefixValue(d[1..]);
      StripZerosValue(d[1..]);
    }
  }

  lemma {:induction false} LeadingDigitPositive(d: string)
    requires d != [] && IsDigits(d) && d[0] != '0'
    ensures DigitsValue(d) > 0
  {
    if |d| > 1 {
      LeadingDigitPositive(d[..|d| - 1]);
    } else {
      assert d[..0] == [];
    }
  }

  /** A digit string without leading zeros is the decimal text of its own value. */
  lemma {:induction false} FormatNatOfDigits(d: string)
    requires d != [] && IsDigits(d) && (|d| == 1 || d[0] != '0')
    ensures FormatNat(DigitsValue(d)) == d
  {
    var p, c := d[..|d| - 1], d[|d| - 1];
    if |d| == 1 {
      assert p == [];
    } else {
      LeadingDigitPositive(p);
      FormatNatOfDigits(p);
      var v := DigitsValue(d);
      assert v == DigitsValue(p) * 10 + DigitValue(c);
      assert v / 10 == DigitsValue(p) && v % 10 == DigitValue(c);
      assert d == p + [c];
    }
  }

  /**
   * Every decimal literal, however spelled ("+7", "007", "-0"), denotes the
   * integer whose canonical text is its canonical spelling, and parses to
   * exactly that integer when it fits in an int; otherwise it is rejected.
   */
  lemma ParseIntCanonical(s: string)
    requires IsDecimal(s)
    ensures FormatInt(DecimalValue(s)) == Canonical(s)
    ensures ParseInt(Some(s)).Ok? <==> InInt32(DecimalValue(s))
    ensures ParseInt(Some(s)).Ok? ==> FormatInt(ParseInt(Some(s)).value as int) == Canonical(s)
  {
    var (negative, digits) := SplitSign(s);
    var magnitude := StripZeros(digits);
    StripZerosValue(digits);
    FormatNatOfDigits(magnitude);
    assert FormatNat(DigitsValue(digits)) == magnitude;
    if negative && DigitsValue(digits) == 0 {
      assert magnitude == "0";
    } else if negative {
      DigitsValueOfFormatNat(0);
      assert magnitude != "0";
    }
  }

  /** Spellings Integer.parseInt accepts. */
  lemma ParseIntAccepts()
    ensures ParseInt(Some("007")) == Ok(7)
    ensures ParseInt(Some("+7")) == Ok(7)
    ensures ParseInt(Some("-0")) == Ok(0)
    ensures ParseInt(Some("-12")) == Ok(-12)
  {
    assert "007"[1..] == "07" && "07"[1..] == "7";
    assert "7"[..0] == [] && "0"[..0] == [] && "12"[..1] == "1" && "1"[..0] == [];
    assert "007"[..2] == "00" && "00"[..1] == "0";
    assert SplitSign("+7") == (false, "7");
    assert SplitSign("-0") == (true, "0");
    assert SplitSign("-12") == (true, "12");
  }

  /** Spellings Integer.parseInt rejects: no digits, a stray character, a doubled sign. */
  lemma ParseIntRejects()
    ensures ParseInt(Some("")).Err? && ParseInt(Some("-")).Err? && ParseInt(Some("+")).Err?
    ensures ParseInt(Some("1a")).Err? && ParseInt(Some(" 1")).Err? && ParseInt(Some("--1")).Err?
  {
  }
}
