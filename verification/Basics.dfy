/** Integers of the source's widths, and the two result types. */
module Basics {

  const I64_MAX: int := 0x7FFF_FFFF_FFFF_FFFF
  const I64_MIN: int := -0x8000_0000_0000_0000

  /** What a `bigint` column can hold. */
  type BigInt = n: int | -0x8000_0000_0000_0000 <= n <= 0x7FFF_FFFF_FFFF_FFFF

  datatype Option<+T> = None | Some(value: T)

  datatype Result<+T, +E> = Ok(value: T) | Err(error: E)

  function Max(x: int, y: int): int {
    if x < y then y else x
  }

  /** `raw + 1` on an `i64` of a build without overflow checks. */
  function WrappingSucc(raw: int): int
    requires I64_MIN <= raw <= I64_MAX
  {
    if raw == I64_MAX then I64_MIN else raw + 1
  }

  /** `i64::saturating_add(1)`. */
  function SaturatingSucc(raw: int): int
    requires I64_MIN <= raw <= I64_MAX
  {
    if raw == I64_MAX then I64_MAX else raw + 1
  }
}
