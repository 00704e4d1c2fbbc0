/** Option, result and bounded-integer types shared by every component model. */
module Prelude {

  datatype Option<+T> = None | Some(value: T)

  datatype Result<+T, +E> = Ok(value: T) | Err(error: E)

  const TWO_63: int := 0x8000_0000_0000_0000
  const TWO_64: int := 0x1_0000_0000_0000_0000

  /** An unsigned 64-bit value of the original. */
  type U64 = n: int | 0 <= n < 0x1_0000_0000_0000_0000

  /** A signed 64-bit value of the original. */
  type I64 = n: int | -0x8000_0000_0000_0000 <= n < 0x8000_0000_0000_0000

  /** `as i64` applied to an unsigned 64-bit value: the upper half wraps to the negatives. */
  function AsI64(n: U64): I64 {
    if n < TWO_63 then n else n - TWO_64
  }

  /** `saturating_sub` on unsigned values. */
  function SatSub(a: nat, b: nat): nat {
    if a < b then 0 else a - b
  }

  function Max(a: int, b: int): int {
    if a < b then b else a
  }

  function Min(a: int, b: int): int {
    if a < b then a else b
  }
}
