/** The optional value used wherever the source has a pointer that may be nil, and Go's `int` on 64-bit platforms. */
module Wrappers {

  datatype Option<+T> = None | Some(value: T)

  function Min(a: int, b: int): int {
    if a < b then a else b
  }

  function Max(a: int, b: int): int {
    if a < b then b else a
  }

  /** `acp.SessionId`, whose values are opaque here. */
  type SessionId = string

  const MAX_INT64: int := 0x7FFF_FFFF_FFFF_FFFF

  type Int64 = x: int | -0x8000_0000_0000_0000 <= x <= 0x7FFF_FFFF_FFFF_FFFF

  predicate IsInt64(x: int) {
    -0x8000_0000_0000_0000 <= x <= 0x7FFF_FFFF_FFFF_FFFF
  }

  /** Two's complement wrap-around of a sum or a doubling of 64-bit numbers. */
  function Wrap(x: int): (r: int)
    requires -0x1_8000_0000_0000_0000 <= x <= 0x1_7FFF_FFFF_FFFF_FFFF
    ensures IsInt64(r) && (IsInt64(x) ==> r == x)
  {
    if x > 0x7FFF_FFFF_FFFF_FFFF then x - 0x1_0000_0000_0000_0000
    else if x < -0x8000_0000_0000_0000 then x + 0x1_0000_0000_0000_0000
    else x
  }
}
