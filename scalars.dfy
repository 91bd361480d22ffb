/** The fixed-width scalars of the data model. */
module Scalars {

  /** Rust's `u8`. */
  type u8 = x: int | 0 <= x < 0x100

  /** Rust's `u16`. */
  type u16 = x: int | 0 <= x < 0x1_0000

  /**
   * Rust's `f32`, kept as its IEEE-754 binary32 bit pattern. The model only
   * stores and copies these values; it does no floating-point arithmetic.
   */
  datatype F32 = F32(bits: bv32)

  /** 0.0 as binary32. */
  const Zero: F32 := F32(0x0000_0000)

  /** 1.0 as binary32. */
  const One: F32 := F32(0x3F80_0000)
}
