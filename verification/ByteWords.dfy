/** Bytes, and numbers of two bytes with the higher one first. */
module ByteWords {
  type byte = x: int | 0 <= x < 256

  function Word16(hi: int, lo: int): int { 256 * hi + lo }
}
