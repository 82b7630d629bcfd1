/** `parseColor`: colour text from JavaScript to Android's packed `0xAARRGGBB` Int.
    Every `#` is dropped, the rest is read with `toLong(16)`, alpha is forced to
    0xFF when exactly six characters remain, and the low 32 bits are kept.
    Text `toLong(16)` rejects gives `None` (the source's `null`). */
module ColorParsing {
  import opened Wrappers
  import opened HexDigits
  import opened KotlinNumbers
  import opened LongParse

  /** `Color.SRGB(int)`: a colour packed as a signed 32-bit `0xAARRGGBB` Int. */
  datatype Color = SRGB(packed: Int32)

  /** The colour's bits as an unsigned number `0xAARRGGBB`. */
  function Bits(c: Color): nat {
    IntBits(c.packed)
  }

  function Alpha(c: Color): nat {
    Bits(c) / TwoTo24
  }

  /** The `0xRRGGBB` part. */
  function Rgb(c: Color): nat {
    Bits(c) % TwoTo24
  }

  /** `colorStr.replace("#", "")`: every `#`, wherever it is, is dropped and the
      other characters keep their order. */
  function RemoveHashes(s: string): (r: string)
    ensures '#' !in r
    ensures |r| <= |s|
    ensures '#' !in s ==> r == s
  {
    if |s| == 0 then []
    else (if s[0] == '#' then [] else [s[0]]) + RemoveHashes(s[1..])
  }

  lemma {:induction false} RemoveHashesAppend(a: string, b: string)
    ensures RemoveHashes(a + b) == RemoveHashes(a) + RemoveHashes(b)
  {
    if |a| > 0 {
      assert (a + b)[1..] == a[1..] + b;
      RemoveHashesAppend(a[1..], b);
    } else {
      assert a + b == b;
    }
  }

  /** `parseColor` applied to text whose `#`s are already removed. */
  function ParseCleaned(clean: string): (r: Option<Color>)
    ensures r.None? <==> ParseLongHex(clean).None?
  {
    match ParseLongHex(clean)
    case None => None
    case Some(v) =>
      var color := if |clean| == 6 then OrFullAlpha(v) else v;
      Some(SRGB(ToInt(color)))
  }

  function ParseColor(colorStr: string): (r: Option<Color>)
    ensures r.None? <==> ParseLongHex(RemoveHashes(colorStr)).None?
  {
    ParseCleaned(RemoveHashes(colorStr))
  }

  /** The packed pattern of a parsed colour: with six cleaned characters,
      0xFF000000 plus the low 24 bits of the parsed value; otherwise the low
      32 bits of the parsed value. */
  lemma ParseColorPattern(colorStr: string)
    requires ParseColor(colorStr).Some?
    ensures var clean := RemoveHashes(colorStr);
      && (|clean| == 6 ==> Bits(ParseColor(colorStr).value) == 0xFF00_0000 + ParseLongHex(clean).value % TwoTo24)
      && (|clean| != 6 ==> Bits(ParseColor(colorStr).value) == ParseLongHex(clean).value % TwoTo32)
  {
    var clean := RemoveHashes(colorStr);
    var v := ParseLongHex(clean).value;
    var color := if |clean| == 6 then OrFullAlpha(v) else v;
    ToIntKeepsLowBits(color);
    LowBitsOfPattern(v);
    if |clean| == 6 {
      OrFullAlphaBits(v);
    }
  }

  lemma RemoveHashesOfHash()
    ensures RemoveHashes("#") == []
  {
    assert RemoveHashes("#"[1..]) == [];
  }

  /** A `#` anywhere in the text changes nothing. */
  lemma ParseColorIgnoresHash(a: string, b: string)
    ensures ParseColor(a + "#" + b) == ParseColor(a + b)
  {
    RemoveHashesAppend(a + "#", b);
    RemoveHashesAppend(a, "#");
    RemoveHashesAppend(a, b);
    RemoveHashesOfHash();
    assert RemoveHashes(a + "#") == RemoveHashes(a);
  }

  /** Six digits: fully opaque, and the digits are the red, green and blue bytes. */
  lemma ParseColorSixDigits(colorStr: string)
    requires |RemoveHashes(colorStr)| == 6 && AllHexDigits(RemoveHashes(colorStr))
    ensures ParseColor(colorStr).Some?
    ensures Alpha(ParseColor(colorStr).value) == 0xFF
    ensures Rgb(ParseColor(colorStr).value) == HexValue(RemoveHashes(colorStr))
  {
    var clean := RemoveHashes(colorStr);
    var v := HexValue(clean);
    assert v < TwoTo24 && ParseLongHex(clean) == Some(v) by {
      ParseUnsigned(clean);
      Pow16Widths();
    }
    ParseColorPattern(colorStr);
    OpaquePattern(ParseColor(colorStr).value, v);
  }

  /** A pattern 0xFF000000 + rgb has alpha 0xFF and RGB `rgb`. */
  lemma OpaquePattern(c: Color, rgb: nat)
    requires rgb < TwoTo24 && Bits(c) == 0xFF00_0000 + rgb % TwoTo24
    ensures Alpha(c) == 0xFF && Rgb(c) == rgb
  {
  }

  /** Eight digits: no alpha is added; the digits are the whole `0xAARRGGBB`
      pattern, alpha first. */
  lemma ParseColorEightDigits(colorStr: string)
    requires |RemoveHashes(colorStr)| == 8 && AllHexDigits(RemoveHashes(colorStr))
    ensures ParseColor(colorStr).Some?
    ensures Bits(ParseColor(colorStr).value) == HexValue(RemoveHashes(colorStr))
  {
    var clean := RemoveHashes(colorStr);
    var v := HexValue(clean);
    assert v < TwoTo32 && ParseLongHex(clean) == Some(v) by {
      ParseUnsigned(clean);
      Pow16Widths();
    }
    ParseColorPattern(colorStr);
    SmallPattern(v);
  }

  /** Any other unsigned length with a value below 2^24 (`#FFF`, say) gets no
      alpha: the colour is fully transparent. */
  lemma ParseColorOtherLengthsTransparent(colorStr: string)
    requires |RemoveHashes(colorStr)| != 6
    requires WellFormedUnsigned(RemoveHashes(colorStr))
    requires HexValue(RemoveHashes(colorStr)) < TwoTo24
    ensures ParseColor(colorStr).Some?
    ensures Alpha(ParseColor(colorStr).value) == 0
    ensures Rgb(ParseColor(colorStr).value) == HexValue(RemoveHashes(colorStr))
  {
    var clean := RemoveHashes(colorStr);
    var v := HexValue(clean);
    assert ParseLongHex(clean) == Some(v) by {
      ParseUnsigned(clean);
    }
    assert Bits(ParseColor(colorStr).value) == v by {
      ParseColorPattern(colorStr);
      SmallPattern(v);
    }
    TransparentPattern(ParseColor(colorStr).value, v);
  }

  /** A value below 2^32 is its own low 32 bits. */
  lemma SmallPattern(v: nat)
    requires v < TwoTo32
    ensures v % TwoTo32 == v
  {
  }

  /** A pattern below 2^24 has alpha 0 and is its own RGB value. */
  lemma TransparentPattern(c: Color, rgb: nat)
    requires rgb < TwoTo24 && Bits(c) == rgb
    ensures Alpha(c) == 0 && Rgb(c) == rgb
  {
  }

  lemma Pow16Widths()
    ensures Pow16(6) == TwoTo24 && Pow16(8) == TwoTo32
  {
    assert Pow16(2) == 0x100;
    assert Pow16(4) == 0x1_0000;
    assert Pow16(6) == TwoTo24;
  }

  /** A non-empty string of base-16 digits with no sign. */
  predicate WellFormedUnsigned(s: string) {
    |s| > 0 && AllHexDigits(s)
  }

  /** The text `null` stands for: empty after cleaning, a bare sign, a non-digit,
      or a value outside the Long range. */
  lemma ParseColorRejects(colorStr: string)
    requires var clean := RemoveHashes(colorStr);
      || |clean| == 0
      || |Digits(clean)| == 0
      || (exists i :: 0 <= i < |Digits(clean)| && !IsHexDigit(Digits(clean)[i]))
      || (AllHexDigits(Digits(clean)) && HexValue(Digits(clean)) > TwoTo63)
    ensures ParseColor(colorStr).None?
  {
  }

  /** `#` followed by a digit string cleans to the digit string. */
  lemma CleanHashPrefix(ds: string)
    requires AllHexDigits(ds)
    ensures RemoveHashes("#" + ds) == ds
  {
    RemoveHashesAppend("#", ds);
    RemoveHashesOfHash();
    assert forall i :: 0 <= i < |ds| ==> ds[i] != '#' by {
      forall i | 0 <= i < |ds| ensures ds[i] != '#' {
        assert IsHexDigit(ds[i]);
      }
    }
  }

  /** The strings the JavaScript side writes, `#RRGGBB`, read back as the
      opaque colour with exactly those bytes. */
  lemma ParseFormattedRgb(rgb: nat)
    requires rgb < TwoTo24
    ensures Pow16(6) == TwoTo24
    ensures ParseColor("#" + FormatHex(rgb, 6)).Some?
    ensures Bits(ParseColor("#" + FormatHex(rgb, 6)).value) == 0xFF00_0000 + rgb
  {
    Pow16Widths();
    var ds := FormatHex(rgb, 6);
    assert HexValue(ds) == rgb by {
      HexValueOfFormatHex(rgb, 6);
    }
    CleanHashPrefix(ds);
    ParseColorSixDigits("#" + ds);
  }

  /** `#AARRGGBB` text reads back as exactly that pattern. */
  lemma ParseFormattedArgb(argb: nat)
    requires argb < TwoTo32
    ensures Pow16(8) == TwoTo32
    ensures ParseColor("#" + FormatHex(argb, 8)).Some?
    ensures Bits(ParseColor("#" + FormatHex(argb, 8)).value) == argb
  {
    Pow16Widths();
    var ds := FormatHex(argb, 8);
    assert HexValue(ds) == argb by {
      HexValueOfFormatHex(argb, 8);
    }
    CleanHashPrefix(ds);
    ParseColorEightDigits("#" + ds);
  }
}
