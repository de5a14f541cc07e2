/** Shared value types and the machine arithmetic the modelled code relies on. */
module Prelude {

  datatype Option<+T> = None | Some(value: T)

  datatype Result<+T, +E> = Success(value: T) | Failure(error: E)

  const U32_MAX: nat := 0xFFFF_FFFF
  const U64_MAX: nat := 0xFFFF_FFFF_FFFF_FFFF
  const U128_MAX: nat := 0xFFFF_FFFF_FFFF_FFFF_FFFF_FFFF_FFFF_FFFF

  type U8 = n: nat | n <= 0xFF
  type U16 = n: nat | n <= 0xFFFF
  type U32 = n: nat | n <= U32_MAX
  type U64 = n: nat | n <= U64_MAX
  type U128 = n: nat | n <= U128_MAX

  // A 64-bit target is assumed: `usize` has the width of `u64`.
  type Usize = U64

  // Fixed-width byte strings compare as the big-endian numbers they spell, and
  // source identifiers only need a total order, so naturals stand for all three.
  type TxHash = nat
  type Address = nat
  type SourceId = nat

  function SaturatingAdd(a: U64, b: U64): U64 {
    if a + b <= U64_MAX then a + b else U64_MAX
  }

  function SaturatingSub(a: U64, b: U64): U64 {
    if b <= a then a - b else 0
  }

  /** `u64::checked_add(1)`. */
  function CheckedSucc(n: U64): Option<U64> {
    if n < U64_MAX then Some(n + 1) else None
  }
}
