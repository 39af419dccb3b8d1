/** The fixed-width integer types of the C headers, as ranges of `int`. */
module BoundedInts {

  const TWO_TO_THE_8: int := 0x100
  const TWO_TO_THE_32: int := 0x1_0000_0000
  const TWO_TO_THE_64: int := 0x1_0000_0000_0000_0000

  /** uint8_t */
  type u8 = x: int | 0 <= x < TWO_TO_THE_8
  /** uint32_t */
  type u32 = x: int | 0 <= x < TWO_TO_THE_32
  /** uint64_t */
  type u64 = x: int | 0 <= x < TWO_TO_THE_64
  /** int32_t, and the C `int` of the platforms the library targets */
  type i32 = x: int | -0x8000_0000 <= x < 0x8000_0000
}
