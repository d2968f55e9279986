/** Fixed-width unsigned integers of the Rust source (`u8`, `u16`) and the
    big-endian split of a 16-bit word into its two bytes. */
module Bytes {

  /** Rust `u8`. */
  newtype u8 = x: int | 0 <= x < 0x100

  /** Rust `u16`. */
  newtype u16 = x: int | 0 <= x < 0x1_0000

  /** The high (first fetched) byte of a word: `w >> 8`. */
  function HighByte(w: u16): u8
  {
    (w as int / 0x100) as u8
  }

  /** The low (second fetched) byte of a word: `w & 0xFF`. */
  function LowByte(w: u16): u8
  {
    (w as int % 0x100) as u8
  }

  /** `(hi as u16) << 8 | (lo as u16)`: since `lo` is below 256 the shifted
      high byte and the low byte occupy disjoint bits, so the `|` is a sum. */
  function Word(hi: u8, lo: u8): (w: u16)
    ensures HighByte(w) == hi && LowByte(w) == lo
  {
    (hi as int * 0x100 + lo as int) as u16
  }

  /** Every word is the composition of its own two bytes, so `Word` and the
      pair `HighByte`/`LowByte` are mutually inverse. */
  lemma WordOfBytes(w: u16)
    ensures Word(HighByte(w), LowByte(w)) == w
  {
  }
}
