/**
 The fixed-width C integer types the firmware uses, as subset types of `int`.
 Dafny integers are unbounded, so every place where the firmware stores a
 value into one of these types carries a proof obligation that the value fits.
 */
module Types {

  type uint8 = x: int | 0 <= x < 0x100
  type uint16 = x: int | 0 <= x < 0x1_0000
  type int16 = x: int | -0x8000 <= x < 0x8000
  type int32 = x: int | -0x8000_0000 <= x < 0x8000_0000

  const INT32_MIN: int32 := -0x8000_0000

}
