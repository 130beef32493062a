/**
  The few pieces of the Java platform that the console formatter and the
  manager facade rely on: fixed-width integers with their MIN_VALUE and
  MAX_VALUE constants, and references that may be null.
 */
module JavaLang {

  /** Java's `int`: 32-bit two's complement. */
  newtype Int32 = x: int | -0x8000_0000 <= x < 0x8000_0000

  /** Java's `long`: 64-bit two's complement. */
  newtype Int64 = x: int | -0x8000_0000_0000_0000 <= x < 0x8000_0000_0000_0000

  const IntegerMinValue: Int32 := -0x8000_0000
  const IntegerMaxValue: Int32 := 0x7fff_ffff
  const LongMinValue: Int64 := -0x8000_0000_0000_0000
  const LongMaxValue: Int64 := 0x7fff_ffff_ffff_ffff

  /** A Java reference of type T: either `null` or a value. */
  datatype Nullable<+T> = Null | Ref(value: T)
}
