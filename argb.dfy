/** 32-bit packed colours as both halves of the program store them:
    alpha in bits 24..31, then red, green and blue. */
module Argb {
  /** The byte of `color` that starts at bit `shift` (0 blue, 8 green,
      16 red, 24 alpha), as Java's `color >> shift & 255` reads it. */
  function Byte(color: bv32, shift: nat): (b: bv32)
    requires shift <= 24
    ensures b <= 0xFF
  {
    (color >> shift) & 0xFF
  }

  /** The same byte as a number. */
  function Channel(color: bv32, shift: nat): (c: int)
    requires shift <= 24
    ensures 0 <= c <= 255
  {
    Byte(color, shift) as int
  }
}
