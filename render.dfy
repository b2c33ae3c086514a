/**
 * What `update_led_matrix` sends (interrupcao/interrupcao.c:103-114): one FIFO
 * word per cell, in increasing cell index, the colour's word where the glyph
 * cell is lit and `put_pixel(0)` elsewhere.
 */
module Render {
  import opened Pixel
  import opened Glyphs

  /** The word sent for one cell. */
  function CellWord(lit: bool, grb: bv32): bv32
  {
    if lit then PioWord(grb) else PioWord(0)
  }

  /**
   * The words sent for a mask, cell by cell from index 0: one word per cell,
   * the colour's word exactly at the lit cells and 0 at the others.
   */
  function Frame(mask: seq<bool>, grb: bv32): (words: seq<bv32>)
    ensures |words| == |mask|
    ensures forall i :: 0 <= i < |mask| ==> words[i] == if mask[i] then PioWord(grb) else 0
    decreases |mask|
  {
    if mask == [] then [] else Frame(mask[..|mask| - 1], grb) + [CellWord(mask[|mask| - 1], grb)]
  }

  /** The frame for a digit in the colour (r, g, b). */
  function DigitFrame(digit: int, r: bv8, g: bv8, b: bv8): (words: seq<bv32>)
    requires 0 <= digit < 10
    ensures |words| == NUM_PIXELS
  {
    Frame(Pattern(digit), ConvertRgb(r, g, b))
  }

  /**
   * Decoding a rendered frame: every word has a zero low byte, a lit cell's
   * word carries the packed colour in its top three bytes (which ConvertRgb
   * decodes back to r, g and b), and an unlit cell's word is 0.
   */
  lemma FrameDecodes(mask: seq<bool>, r: bv8, g: bv8, b: bv8, i: int)
    requires 0 <= i < |mask|
    ensures Frame(mask, ConvertRgb(r, g, b))[i] & 0xFF == 0
    ensures mask[i] ==> Frame(mask, ConvertRgb(r, g, b))[i] >> 8 == ConvertRgb(r, g, b)
    ensures !mask[i] ==> Frame(mask, ConvertRgb(r, g, b))[i] == 0
  {
    if mask[i] {
      PioWordRoundTrip(r, g, b);
    }
  }

  /**
   * A frame determines its digit: with any colour other than (0,0,0), two
   * different digits never produce the same 25 words.
   */
  lemma DigitFrameInjective(d1: int, d2: int, r: bv8, g: bv8, b: bv8)
    requires 0 <= d1 < 10 && 0 <= d2 < 10
    requires r != 0 || g != 0 || b != 0
    requires DigitFrame(d1, r, g, b) == DigitFrame(d2, r, g, b)
    ensures d1 == d2
  {
    PioWordZero(r, g, b);
    var m1, m2 := Pattern(d1), Pattern(d2);
    forall i | 0 <= i < NUM_PIXELS
      ensures m1[i] == m2[i]
    {
      assert DigitFrame(d1, r, g, b)[i] == DigitFrame(d2, r, g, b)[i];
    }
    assert m1 == m2;
    if d1 != d2 {
      PatternsDistinct(d1, d2);
    }
  }

  /** The colour (1,1,1) used by the firmware packs to 0x010101. */
  lemma DefaultColour()
    ensures ConvertRgb(1, 1, 1) == 0x01_0101 && PioWord(0x01_0101) == 0x0101_0100
  {
  }

  /** Digit 5 in the default colour (1,1,1): 0x01010100 at the glyph's lit cells, 0 elsewhere. */
  lemma FrameOfFive()
    ensures DigitFrame(5, 1, 1, 1) == [
      0, 0, 0x0101_0100, 0x0101_0100, 0,
      0, 0, 0, 0x0101_0100, 0,
      0, 0, 0x0101_0100, 0x0101_0100, 0,
      0, 0x0101_0100, 0, 0, 0,
      0, 0x0101_0100, 0x0101_0100, 0x0101_0100, 0]
  {
    DefaultColour();
  }
}
