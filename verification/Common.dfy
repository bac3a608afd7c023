/** Types that several components share. */
module Common {

  datatype Option<+T> = None | Some(value: T)

  /** The unique id of an event or element. */
  type Id = string

  const LONG_MIN := -0x8000_0000_0000_0000
  const LONG_MAX := 0x7FFF_FFFF_FFFF_FFFF

  newtype Byte = b: int | 0 <= b < 256
}
