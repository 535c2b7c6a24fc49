/** Fixed-width integer types of the firmware, as ranges of unbounded integers.
    Where the firmware relies on C wrap-around, the model writes the modulus out. */
module Types {

  /** uint8_t */
  type u8 = x: int | 0 <= x < 0x100

  /** uint16_t */
  type u16 = x: int | 0 <= x < 0x1_0000

  /** int16_t (audio samples) */
  type i16 = x: int | -0x8000 <= x < 0x8000

  /** 32-bit two's complement int */
  type int32 = x: int | -0x8000_0000 <= x < 0x8000_0000

  const U16Modulus: int := 0x1_0000

  /** Conversion of an integer into uint16_t, as C performs it on assignment. */
  function ToU16(x: int): (r: u16)
    ensures 0 <= x < U16Modulus ==> r == x
    ensures (r - x) % U16Modulus == 0
  {
    x % U16Modulus
  }

  datatype Option<T> = None | Some(value: T)
}
