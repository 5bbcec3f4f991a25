/** Decimal and hexadecimal numerals: printing, parsing, and the round trips between them. */
module Numerals {
  import opened Words

  predicate IsDigit(c: char) { '0' <= c <= '9' }

  function DigitChar(d: nat): (c: char)
    requires d < 10
    ensures IsDigit(c) && DigitValue(c) == d
  {
    '0' + d as char
  }

  function DigitValue(c: char): (d: nat)
    requires IsDigit(c)
    ensures d < 10
  {
    c as int - '0' as int
  }

  /** Decimal text of a natural number, without leading zeros. */
  function Decimal(n: nat): (s: string)
    ensures |s| > 0 && forall i | 0 <= i < |s| :: IsDigit(s[i])
  {
    if n < 10 then [DigitChar(n)] else Decimal(n / 10) + [DigitChar(n % 10)]
  }

  /** std::from_chars in base ten over a whole token: at least one character, all digits. */
  function ParseDecimal(s: string): Option<nat> {
    if s == [] then None
    else if !IsDigit(s[|s| - 1]) then None
    else if |s| == 1 then Some(DigitValue(s[0]))
    else match ParseDecimal(s[..|s| - 1])
         case None => None
         case Some(n) => Some(10 * n + DigitValue(s[|s| - 1]))
  }

  lemma {:induction false} DecimalRoundTrip(n: nat)
    ensures ParseDecimal(Decimal(n)) == Some(n)
  {
    var s := Decimal(n);
    if n >= 10 {
      DecimalRoundTrip(n / 10);
      assert s[..|s| - 1] == Decimal(n / 10);
    }
  }

  function HexChar(d: nat): char
    requires d < 16
  {
    if d < 10 then DigitChar(d) else 'A' + (d - 10) as char
  }

  function HexValue(c: char): Option<nat> {
    if IsDigit(c) then Some(DigitValue(c))
    else if 'a' <= c <= 'f' then Some(c as int - 'a' as int + 10)
    else if 'A' <= c <= 'F' then Some(c as int - 'A' as int + 10)
    else None
  }

  /** Base-sixteen digits, as std::from_chars reads them. */
  function ParseHexDigits(s: string): Option<nat> {
    if s == [] then None
    else match HexValue(s[|s| - 1])
         case None => None
         case Some(d) =>
           if |s| == 1 then Some(d)
           else match ParseHexDigits(s[..|s| - 1])
                case None => None
                case Some(n) => Some(16 * n + d)
  }

  /** A "0x" literal. */
  function ParseHex(s: string): Option<nat> {
    if |s| > 2 && s[0] == '0' && (s[1] == 'x' || s[1] == 'X') then ParseHexDigits(s[2..]) else None
  }

  /** Fixed-width upper-case digits. */
  function HexDigits(v: nat, width: nat): (s: string)
    ensures |s| == width
  {
    if width == 0 then [] else HexDigits(v / 16, width - 1) + [HexChar(v % 16)]
  }

  function Pow16(width: nat): nat { if width == 0 then 1 else 16 * Pow16(width - 1) }

  lemma {:induction false} HexDigitsRoundTrip(v: nat, width: nat)
    requires 0 < width && v < Pow16(width)
    ensures ParseHexDigits(HexDigits(v, width)) == Some(v)
  {
    var s := HexDigits(v, width);
    assert s[..|s| - 1] == HexDigits(v / 16, width - 1);
    if width > 1 { HexDigitsRoundTrip(v / 16, width - 1); }
  }

  /** Hexadecimal16: "0x" and four upper-case digits. */
  function Hex16(v: u16): string { "0x" + HexDigits(v, 4) }

  lemma Hex16RoundTrip(v: u16)
    ensures ParseHex(Hex16(v)) == Some(v)
  {
    assert Pow16(4) == 0x1_0000 by { assert Pow16(2) == 256; }
    HexDigitsRoundTrip(v, 4);
    assert Hex16(v)[2..] == HexDigits(v, 4);
  }
}
