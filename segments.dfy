/**
 * The segment table and the cell layout of the 4-digit HT16K33 backpack
 * (main.go, 7seg-clock.go and sevensegment.go carry identical copies).
 *
 * Display RAM holds one byte per common line at the even addresses; on this
 * backpack digits 0 and 1 use addresses 0 and 2, the colon uses address 4 and
 * digits 2 and 3 use addresses 6 and 8.
 */
module Segments {

  type Byte = bv8

  /** A register address as sent on the bus: the first byte of a RAM write. */
  type Addr = a: int | 0 <= a < 256

  /** Number of digit positions; position 0 is the far left one. */
  const DigitCount := 4

  /** RAM address of the colon cell and the pattern that lights it. */
  const ColonAddress: Addr := 0x04
  const ColonOn: Byte := 0x02

  /** The segment patterns, bit 0 = segment a ... bit 6 = segment g. */
  const DigitMap: map<string, Byte> := map[
    " " := 0x00, "-" := 0x40,
    "0" := 0x3F, "1" := 0x06, "2" := 0x5B, "3" := 0x4F, "4" := 0x66,
    "5" := 0x6D, "6" := 0x7D, "7" := 0x07, "8" := 0x7F, "9" := 0x6F,
    "A" := 0x77, "B" := 0x7C, "C" := 0x39, "D" := 0x5E, "E" := 0x79, "F" := 0x71
  ]

  /** `digitMap[c] & 0xFF`: a Go map lookup yields the zero byte for a missing key. */
  function Pattern(c: string): Byte
  {
    if c in DigitMap then DigitMap[c] else 0
  }

  /** A character the table does not know is drawn exactly like a space. */
  lemma UnknownIsBlank(c: string)
    requires c !in DigitMap
    ensures Pattern(c) == Pattern(" ") == 0
  {
  }

  /** Only the space pattern is dark: every other glyph, and only those, light a segment. */
  lemma LitExactlyForGlyphs(c: string)
    ensures Pattern(c) != 0 <==> c in DigitMap && c != " "
  {
  }

  /** No two glyphs of the table share a pattern, and none lights the decimal point (bit 7). */
  lemma GlyphsDistinct(c: string, e: string)
    requires c in DigitMap && e in DigitMap && c != e
    ensures Pattern(c) != Pattern(e)
    ensures Pattern(c) & 0x80 == 0
  {
  }

  /**
   * `byte((pos + offset) * 2)` with offset 1 from position 2 on: the RAM
   * address that holds digit `pos`.
   */
  function DigitAddress(pos: int): (a: Addr)
    requires 0 <= pos < DigitCount
    ensures a % 2 == 0 && a <= 8 && a != ColonAddress
    ensures IsDigitAddress(a)
    ensures CellPosition(a) == pos
  {
    (pos + (if pos >= 2 then 1 else 0)) * 2
  }

  /** The four addresses a digit can occupy. */
  predicate IsDigitAddress(a: int)
  {
    a == 0 || a == 2 || a == 6 || a == 8
  }

  /** Inverse of DigitAddress: the position shown by RAM address `a`, or -1 for any other cell. */
  function CellPosition(a: int): (p: int)
    ensures -1 <= p < DigitCount
    ensures p >= 0 <==> IsDigitAddress(a)
  {
    if a == 0 then 0 else if a == 2 then 1 else if a == 6 then 2 else if a == 8 then 3 else -1
  }

  /** Addresses and positions correspond one to one. */
  lemma DigitAddressRoundTrip(a: int)
    requires IsDigitAddress(a)
    ensures DigitAddress(CellPosition(a)) == a
  {
  }

  /** Two different positions never share a RAM cell. */
  lemma DigitAddressInjective(p: int, q: int)
    requires 0 <= p < DigitCount && 0 <= q < DigitCount
    ensures DigitAddress(p) == DigitAddress(q) <==> p == q
  {
    assert CellPosition(DigitAddress(p)) == p;
    assert CellPosition(DigitAddress(q)) == q;
  }
}
