/** Base-16 digit strings: the digits `Character.digit(c, 16)` accepts, the value a
    digit string denotes, and the inverse direction (formatting a number as a
    fixed-width digit string, as the JavaScript side writes `#RRGGBB`). */
module HexDigits {

  /** `Character.digit(c, 16)` over ASCII: the digit's value, or -1 when `c`
      is not a base-16 digit. */
  function DigitValue(c: char): (d: int)
    ensures -1 <= d < 16
    ensures d >= 0 <==> ('0' <= c <= '9' || 'a' <= c <= 'f' || 'A' <= c <= 'F')
  {
    if '0' <= c <= '9' then c as int - '0' as int
    else if 'a' <= c <= 'f' then c as int - 'a' as int + 10
    else if 'A' <= c <= 'F' then c as int - 'A' as int + 10
    else -1
  }

  predicate IsHexDigit(c: char) {
    DigitValue(c) >= 0
  }

  predicate AllHexDigits(ds: string) {
    forall i :: 0 <= i < |ds| ==> IsHexDigit(ds[i])
  }

  function Pow16(n: nat): (p: nat)
    ensures p >= 1
  {
    if n == 0 then 1 else 16 * Pow16(n - 1)
  }

  /** The number a digit string denotes, most significant digit first. */
  function HexValue(ds: string): (v: nat)
    requires AllHexDigits(ds)
    ensures v < Pow16(|ds|)
    decreases |ds|
  {
    if |ds| == 0 then 0
    else HexValue(ds[..|ds| - 1]) * 16 + DigitValue(ds[|ds| - 1])
  }

  lemma HexValueAppend(ds: string, c: char)
    requires AllHexDigits(ds) && IsHexDigit(c)
    ensures AllHexDigits(ds + [c])
    ensures HexValue(ds + [c]) == HexValue(ds) * 16 + DigitValue(c)
  {
    assert (ds + [c])[..|ds|] == ds;
  }

  /** Appending digits never makes the value smaller: a prefix's value bounds
      the value of the whole string from below. */
  lemma {:induction false} HexValuePrefix(ds: string, k: nat)
    requires AllHexDigits(ds) && k <= |ds|
    ensures AllHexDigits(ds[..k])
    ensures HexValue(ds[..k]) <= HexValue(ds)
    decreases |ds| - k
  {
    if k < |ds| {
      var front := ds[..|ds| - 1];
      assert front[..k] == ds[..k];
      HexValuePrefix(front, k);
      assert HexValue(ds) == HexValue(front) * 16 + DigitValue(ds[|ds| - 1]);
    } else {
      assert ds[..k] == ds;
    }
  }

  /** The upper-case digit for a value below 16. */
  function HexChar(d: nat): (c: char)
    requires d < 16
    ensures IsHexDigit(c) && DigitValue(c) == d
  {
    if d < 10 then ('0' as int + d) as char else ('A' as int + d - 10) as char
  }

  /** `v` written with exactly `width` upper-case digits, zero-padded. */
  function FormatHex(v: nat, width: nat): (ds: string)
    requires v < Pow16(width)
    ensures |ds| == width && AllHexDigits(ds)
  {
    if width == 0 then [] else FormatHex(v / 16, width - 1) + [HexChar(v % 16)]
  }

  /** Formatting then reading a digit string gives the number back. */
  lemma {:induction false} HexValueOfFormatHex(v: nat, width: nat)
    requires v < Pow16(width)
    ensures HexValue(FormatHex(v, width)) == v
  {
    if width > 0 {
      HexValueOfFormatHex(v / 16, width - 1);
      HexValueAppend(FormatHex(v / 16, width - 1), HexChar(v % 16));
    }
  }
}
