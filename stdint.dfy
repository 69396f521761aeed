/** The C fixed-width integer types the firmware uses, and an Option type. */
module StdInt {

  /** C `uint8_t`. */
  newtype uint8 = x: int | 0 <= x < 0x100

  /** C `uint16_t`. */
  newtype uint16 = x: int | 0 <= x < 0x1_0000

  datatype Option<+T> = None | Some(value: T)
}
