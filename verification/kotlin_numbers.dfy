/** The fixed-width JVM integers that `parseColor` passes through: a 64-bit `Long`
    (what `toLong(16)` produces and `or 0xFF000000` combines) and a 32-bit `Int`
    (what `Long.toInt()` keeps). Both are two's complement; Dafny's `int` is
    unbounded, so the wrap-around is written out here. */
module KotlinNumbers {

  const TwoTo24: int := 0x100_0000
  const TwoTo31: int := 0x8000_0000
  const TwoTo32: int := 0x1_0000_0000
  const TwoTo63: int := 0x8000_0000_0000_0000
  const TwoTo64: int := 0x1_0000_0000_0000_0000

  /** Long.MIN_VALUE and Long.MAX_VALUE. */
  const MinLong: int := -TwoTo63
  const MaxLong: int := TwoTo63 - 1

  type Long = x: int | MinLong <= x <= MaxLong
  type Int32 = x: int | -TwoTo31 <= x < TwoTo31

  /** The 64 bits of a Long read as an unsigned number. */
  function LongBits(v: Long): (u: nat)
    ensures u < TwoTo64
    ensures (u - v) % TwoTo64 == 0
  {
    v % TwoTo64
  }

  /** The 32 bits of an Int read as an unsigned number: for a colour, its
      `0xAARRGGBB` pattern. */
  function IntBits(i: Int32): (u: nat)
    ensures u < TwoTo32
    ensures (u - i) % TwoTo32 == 0
  {
    i % TwoTo32
  }

  /** Kotlin's `Long.toInt()`: keep the low 32 bits and read them as a signed Int.
      The result is the unique Int32 congruent to `v` modulo 2^32. */
  function ToInt(v: Long): (r: Int32)
    ensures (r - v) % TwoTo32 == 0
  {
    var u := v % TwoTo32;
    if u < TwoTo31 then u else u - TwoTo32
  }

  /** Kotlin's `v or 0xFF000000` on a Long. The literal is a Long with exactly
      bits 24..31 set; `OrFullAlphaBits` states the effect on the bit pattern. */
  function OrFullAlpha(v: Long): Long {
    var u := LongBits(v);
    var w := (u / TwoTo32) * TwoTo32 + 0xFF * TwoTo24 + u % TwoTo24;
    if w <= MaxLong then w else w - TwoTo64
  }

  /** `or 0xFF000000` sets the eight bits 24..31 and keeps every other bit, so
      the low 32 bits become 0xFF000000 plus the low 24 bits of the input. */
  lemma OrFullAlphaBits(v: Long)
    ensures LongBits(OrFullAlpha(v)) % TwoTo32 == 0xFF00_0000 + LongBits(v) % TwoTo24
    ensures (LongBits(OrFullAlpha(v)) / TwoTo24) % 0x100 == 0xFF
    ensures LongBits(OrFullAlpha(v)) % TwoTo24 == LongBits(v) % TwoTo24
    ensures LongBits(OrFullAlpha(v)) / TwoTo32 == LongBits(v) / TwoTo32
  {
    var u := LongBits(v);
    var w := (u / TwoTo32) * TwoTo32 + 0xFF * TwoTo24 + u % TwoTo24;
    assert LongBits(OrFullAlpha(v)) == w;
    JoinBits(u / TwoTo32, 0xFF, u % TwoTo24);
  }

  /** `toInt()` keeps exactly the low 32 bits of the Long's pattern. */
  lemma ToIntKeepsLowBits(v: Long)
    ensures IntBits(ToInt(v)) == v % TwoTo32 == LongBits(v) % TwoTo32
  {
    LowBitsOfPattern(v);
  }

  /** Reducing modulo 2^64 first does not change the low 24 or 32 bits. */
  lemma LowBitsOfPattern(v: Long)
    ensures LongBits(v) % TwoTo32 == v % TwoTo32
    ensures LongBits(v) % TwoTo24 == v % TwoTo24
  {
    LowWordOfPattern(v);
    LowBytesOfPattern(v);
  }

  lemma LowWordOfPattern(v: Long)
    ensures LongBits(v) % TwoTo32 == v % TwoTo32
  {
    var u := v % TwoTo64;
    var k := (v / TwoTo64) * TwoTo32;
    assert v == k * TwoTo32 + u;
    var a := u / TwoTo32;
    assert u == a * TwoTo32 + u % TwoTo32;
    assert v == (k + a) * TwoTo32 + u % TwoTo32;
  }

  lemma LowBytesOfPattern(v: Long)
    ensures LongBits(v) % TwoTo24 == v % TwoTo24
  {
    var u := v % TwoTo64;
    var k := (v / TwoTo64) * TwoTo32 * 0x100;
    assert v == k * TwoTo24 + u;
    var a := u / TwoTo24;
    assert u == a * TwoTo24 + u % TwoTo24;
    assert v == (k + a) * TwoTo24 + u % TwoTo24;
  }

  /** Reading the three parts back from a pattern built out of them. */
  lemma JoinBits(hi: nat, b: nat, lo: nat)
    requires b < 0x100 && lo < TwoTo24
    ensures var w := hi * TwoTo32 + b * TwoTo24 + lo;
      && w % TwoTo24 == lo
      && (w / TwoTo24) % 0x100 == b
      && w / TwoTo32 == hi
      && w % TwoTo32 == b * TwoTo24 + lo
  {
    var w := hi * TwoTo32 + b * TwoTo24 + lo;
    assert w == (hi * 0x100 + b) * TwoTo24 + lo;
    assert w / TwoTo24 == hi * 0x100 + b;
    assert w % TwoTo24 == lo;
    assert w == hi * TwoTo32 + (b * TwoTo24 + lo);
    assert b * TwoTo24 + lo < TwoTo32;
  }
}
