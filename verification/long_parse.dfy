/** Kotlin's `String.toLong(16)`, which on the JVM is `java.lang.Long.parseLong(s, 16)`:
    an optional `+` or `-`, then at least one base-16 digit, and a value that
    fits in a signed 64-bit Long; anything else throws `NumberFormatException`,
    modelled as `None`. */
module LongParse {
  import opened Wrappers
  import opened HexDigits
  import opened KotlinNumbers

  /** 1 when the text starts with a sign character, else 0. */
  function SignLength(s: string): nat {
    if |s| > 0 && (s[0] == '-' || s[0] == '+') then 1 else 0
  }

  predicate IsNegative(s: string) {
    |s| > 0 && s[0] == '-'
  }

  /** The digit part: everything after the optional sign. */
  function Digits(s: string): string {
    s[SignLength(s)..]
  }

  /** The value of a digit string with the given sign, when the digits are
      all base-16 and the value fits in a Long. */
  function SignedValue(ds: string, negative: bool): Option<Long> {
    if |ds| == 0 || !AllHexDigits(ds) then None
    else
      var m := HexValue(ds);
      if m > (if negative then TwoTo63 else MaxLong) then None
      else Some(if negative then -(m as int) else m)
  }

  /** The reference meaning of `s.toLong(16)`. */
  function ParseLongHex(s: string): Option<Long> {
    SignedValue(Digits(s), IsNegative(s))
  }

  /** Unsigned digit text parses to its own value when that fits in a Long. */
  lemma ParseUnsigned(s: string)
    requires |s| > 0 && AllHexDigits(s)
    ensures Digits(s) == s
    ensures ParseLongHex(s) == if HexValue(s) <= MaxLong then Some(HexValue(s)) else None
  {
    assert IsHexDigit(s[0]);
    assert SignLength(s) == 0;
  }

  /** A prefix of the digits that is already too large rejects the whole string. */
  lemma OverflowRejects(ds: string, negative: bool, k: nat)
    requires k <= |ds|
    requires AllHexDigits(ds[..k])
    requires HexValue(ds[..k]) > (if negative then TwoTo63 else MaxLong)
    ensures SignedValue(ds, negative) == None
  {
    if AllHexDigits(ds) {
      HexValuePrefix(ds, k);
    }
  }

  /** One more digit of a prefix. */
  lemma HexValueStep(ds: string, i: nat)
    requires i < |ds| && AllHexDigits(ds[..i]) && IsHexDigit(ds[i])
    ensures AllHexDigits(ds[..i + 1])
    ensures HexValue(ds[..i + 1]) == HexValue(ds[..i]) * 16 + DigitValue(ds[i])
  {
    assert ds[..i + 1] == ds[..i] + [ds[i]];
    HexValueAppend(ds[..i], ds[i]);
  }

  /** A character that is not a digit rejects the whole string. */
  lemma NonDigitRejects(ds: string, negative: bool, i: nat)
    requires i < |ds| && !IsHexDigit(ds[i])
    ensures SignedValue(ds, negative) == None
  {
    assert !AllHexDigits(ds);
  }

  /** The JDK's `limit`: the most negative accumulator value allowed. */
  function Limit(negative: bool): Long {
    if negative then MinLong else -MaxLong
  }

  /** The JDK's `multmin`: `limit / 16` with Java's division, which truncates
      toward zero. */
  function Multmin(negative: bool): Long {
    if negative then MinLong / 16 else -(MaxLong / 16)
  }

  /** The JDK's two overflow guards around `result * 16 - digit`: first
      `result < multmin`, then `result < limit + digit` on the scaled value.
      Together they reject exactly the steps whose unsigned value would pass
      the bound, so no intermediate value leaves the Long range. */
  function GuardedStep(result: Long, digit: int, negative: bool): (next: Option<Long>)
    requires 0 <= digit < 16 && Limit(negative) <= result <= 0
    ensures next.None? <==> -(result as int) * 16 + digit > -(Limit(negative) as int)
    ensures next.Some? ==> next.value == result * 16 - digit
  {
    if result < Multmin(negative) then None
    else
      var scaled: Long := result * 16;
      if scaled < Limit(negative) + digit then None else Some(scaled - digit)
  }

  /** `s.toLong(16)` as the JDK computes it: sign handling, then the digit loop. */
  method ToLong16(s: string) returns (r: Option<Long>)
    ensures r == ParseLongHex(s)
  {
    if |s| == 0 {
      return None;
    }
    var negative := false;
    var start := 0;
    if s[0] < '0' {
      if s[0] == '-' {
        negative := true;
      } else if s[0] != '+' {
        assert !IsHexDigit(Digits(s)[0]);
        return None;
      }
      if |s| == 1 {
        return None;
      }
      start := 1;
    }
    assert s[start..] == Digits(s);
    r := AccumulateDigits(s[start..], negative);
  }

  /** The JDK's digit loop: it accumulates the NEGATED value so that
      Long.MIN_VALUE is reachable, and checks before each step that the Long
      cannot overflow, so every intermediate value stays within the Long range.
      It agrees with the reference meaning on every digit string. */
  method AccumulateDigits(ds: string, negative: bool) returns (r: Option<Long>)
    requires |ds| > 0
    ensures r == SignedValue(ds, negative)
  {
    var result: Long := 0;
    var i := 0;
    while i < |ds|
      invariant i <= |ds|
      invariant AllHexDigits(ds[..i])
      invariant result == -(HexValue(ds[..i]) as int)
      invariant Limit(negative) <= result <= 0
    {
      var next := AccumulateDigit(ds, negative, i, result);
      if next.None? {
        return None;
      }
      result := next.value;
      i := i + 1;
    }
    assert ds[..i] == ds;
    r := Some(if negative then result else -result);
  }

  /** One pass of the digit loop: reject a non-digit, then take the guarded
      step. */
  method AccumulateDigit(ds: string, negative: bool, i: nat, result: Long) returns (next: Option<Long>)
    requires i < |ds| && AllHexDigits(ds[..i])
    requires result == -(HexValue(ds[..i]) as int) && Limit(negative) <= result <= 0
    ensures next.None? ==> SignedValue(ds, negative) == None
    ensures next.Some? ==> AllHexDigits(ds[..i + 1])
    ensures next.Some? ==> next.value == -(HexValue(ds[..i + 1]) as int)
    ensures next.Some? ==> Limit(negative) <= next.value <= 0
  {
    var digit := DigitValue(ds[i]);
    if digit < 0 {
      NonDigitRejects(ds, negative, i);
      return None;
    }
    HexValueStep(ds, i);
    next := GuardedStep(result, digit, negative);
    if next.None? {
      OverflowRejects(ds, negative, i + 1);
    }
  }
}
