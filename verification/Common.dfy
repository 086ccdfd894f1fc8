/** Shared value types: optional values, results, and Go's fixed-width integers.
    The integer types are ranges of `int`; wrap-around is written out where the program adds. */
module Common {
  datatype Option<+T> = None | Some(value: T)

  datatype Result<+T, +E> = Ok(value: T) | Err(error: E)

  const TWO_63: int := 0x8000_0000_0000_0000
  const TWO_64: int := 0x1_0000_0000_0000_0000
  const MAX_U32: U32 := 0xFFFF_FFFF
  const MAX_U64: U64 := 0xFFFF_FFFF_FFFF_FFFF

  type U32 = x: int | 0 <= x < 0x1_0000_0000
  type U64 = x: int | 0 <= x < 0x1_0000_0000_0000_0000
  type I64 = x: int | -0x8000_0000_0000_0000 <= x < 0x8000_0000_0000_0000

  /** `x++` on a `uint64`. */
  function Increment(x: U64): U64 {
    if x == MAX_U64 then 0 else x + 1
  }

  /** The `int64` that a sum of `int64` values leaves behind. */
  function Wrap64(x: int): I64 {
    (x + TWO_63) % TWO_64 - TWO_63
  }
}
