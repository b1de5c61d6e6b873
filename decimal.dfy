/**
 * Decimal text to a 16-bit unsigned integer, with the rules of the standard
 * library's unsigned parse: one optional leading '+', then at least one ASCII
 * digit and nothing else; leading zeros are allowed; a value above 65535 is an
 * error.
 */
module Decimal {
  import opened Types

  predicate IsDigit(c: char) {
    '0' <= c <= '9'
  }

  predicate AllDigits(s: string) {
    forall i :: 0 <= i < |s| ==> IsDigit(s[i])
  }

  function DigitValue(c: char): nat
    requires IsDigit(c)
  {
    c as int - '0' as int
  }

  function DigitChar(d: nat): char
    requires d < 10
  {
    ('0' as int + d) as char
  }

  /** The value of a digit string, most significant digit first. */
  function DecimalValue(s: string): nat
    requires AllDigits(s)
  {
    if s == [] then 0 else DecimalValue(s[..|s| - 1]) * 10 + DigitValue(s[|s| - 1])
  }

  /** The digits after an optional single '+' sign. */
  function Unsigned(s: string): string {
    if |s| > 0 && s[0] == '+' then s[1..] else s
  }

  function ParseU16(s: string): (r: Option<uint16>)
    ensures r.Some? <==> |Unsigned(s)| > 0 && AllDigits(Unsigned(s)) && DecimalValue(Unsigned(s)) < 0x1_0000
    ensures r.Some? ==> r.value == DecimalValue(Unsigned(s))
  {
    var digits := Unsigned(s);
    if |digits| == 0 || !AllDigits(digits) then None
    else
      var n := DecimalValue(digits);
      if n < 0x1_0000 then Some(n) else None
  }

  /** The shortest decimal rendering of a number. */
  function Format(n: nat): (s: string)
    ensures |s| > 0 && AllDigits(s)
  {
    if n < 10 then [DigitChar(n)] else Format(n / 10) + [DigitChar(n % 10)]
  }

  lemma {:induction false} FormatValue(n: nat)
    ensures DecimalValue(Format(n)) == n
  {
    var s := Format(n);
    if n >= 10 {
      assert s[..|s| - 1] == Format(n / 10);
      FormatValue(n / 10);
    }
  }

  /** Every 16-bit value survives rendering and parsing, with or without a '+' sign. */
  lemma ParseFormatRoundTrip(n: uint16)
    ensures ParseU16(Format(n)) == Some(n)
    ensures ParseU16("+" + Format(n)) == Some(n)
  {
    FormatValue(n);
    assert Unsigned("+" + Format(n)) == Format(n);
  }

  /** Leading zeros do not change the value. */
  lemma {:induction false} LeadingZero(s: string)
    requires AllDigits(s)
    ensures AllDigits("0" + s) && DecimalValue("0" + s) == DecimalValue(s)
  {
    var z := "0" + s;
    if s != [] {
      assert z[..|z| - 1] == "0" + s[..|s| - 1];
      LeadingZero(s[..|s| - 1]);
    }
  }

  lemma ParseU16Examples()
    ensures ParseU16("76") == Some(76)
    ensures ParseU16("") == None
    ensures ParseU16("+") == None
    ensures ParseU16("-1") == None
    ensures ParseU16("65536") == None
    ensures ParseU16("0x4C") == None
  {
    assert DecimalValue("7") == 7;
    assert "76"[..1] == "7";
    assert DecimalValue("6553") == 6553 by {
      assert "6553"[..3] == "655";
      assert "655"[..2] == "65";
      assert "65"[..1] == "6";
    }
    assert "65536"[..4] == "6553";
    assert !IsDigit("0x4C"[1]);
  }
}
