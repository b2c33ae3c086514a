/**
 * Colour packing for the WS2812-style LED chain driven through the PIO.
 * Models `convert_rgb` and the word that `put_pixel` pushes into the PIO
 * transmit FIFO (interrupcao/interrupcao.c:93-101).
 */
module Pixel {

  /** `convert_rgb`: green in bits 16..23, red in bits 8..15, blue in bits 0..7. */
  function ConvertRgb(r: bv8, g: bv8, b: bv8): (grb: bv32)
    ensures grb < 0x100_0000
    ensures GreenOf(grb) == g && RedOf(grb) == r && BlueOf(grb) == b
  {
    ((r as bv32) << 8) | ((g as bv32) << 16) | (b as bv32)
  }

  /** The channel stored in bits 16..23 of a packed colour. */
  function GreenOf(grb: bv32): bv8 { ((grb >> 16) & 0xFF) as bv8 }

  /** The channel stored in bits 8..15 of a packed colour. */
  function RedOf(grb: bv32): bv8 { ((grb >> 8) & 0xFF) as bv8 }

  /** The channel stored in bits 0..7 of a packed colour. */
  function BlueOf(grb: bv32): bv8 { (grb & 0xFF) as bv8 }

  /** Every value below 2^24 is the packing of its own three channels. */
  lemma UnpackPack(grb: bv32)
    requires grb < 0x100_0000
    ensures ConvertRgb(RedOf(grb), GreenOf(grb), BlueOf(grb)) == grb
  {
  }

  /** Packing is injective: distinct colours never share a packed value. */
  lemma ConvertRgbInjective(r1: bv8, g1: bv8, b1: bv8, r2: bv8, g2: bv8, b2: bv8)
    requires ConvertRgb(r1, g1, b1) == ConvertRgb(r2, g2, b2)
    ensures r1 == r2 && g1 == g2 && b1 == b2
  {
    var x := ConvertRgb(r1, g1, b1);
    assert RedOf(x) == r1 && RedOf(x) == r2;
  }

  /**
   * The 32-bit word `put_pixel` writes to the FIFO: the packed colour shifted
   * left by 8 (the C shift on uint32_t drops the top byte). The PIO program
   * shifts the word out most significant bit first, so the colour occupies the
   * top 24 bits and the low byte is zero.
   */
  function PioWord(grb: bv32): (w: bv32)
    ensures w & 0xFF == 0
  {
    grb << 8
  }

  /** The FIFO word keeps the low 24 bits of its argument in its top 24 bits. */
  lemma PioWordKeepsColour(grb: bv32)
    ensures PioWord(grb) >> 8 == grb & 0xFF_FFFF
  {
  }

  /** A packed colour survives the trip through the FIFO word unchanged. */
  lemma PioWordRoundTrip(r: bv8, g: bv8, b: bv8)
    ensures PioWord(ConvertRgb(r, g, b)) >> 8 == ConvertRgb(r, g, b)
  {
    PioWordKeepsColour(ConvertRgb(r, g, b));
  }

  /** Only the colour (0,0,0) puts an all-zero word, the word `put_pixel(0)` sends. */
  lemma PioWordZero(r: bv8, g: bv8, b: bv8)
    ensures PioWord(ConvertRgb(r, g, b)) == 0 <==> r == 0 && g == 0 && b == 0
  {
    var x := ConvertRgb(r, g, b);
    PioWordRoundTrip(r, g, b);
    if PioWord(x) == 0 {
      assert x == 0;
    }
  }
}
