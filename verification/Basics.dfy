/** Shared vocabulary: optional values and Go's 64-bit integers. */
module Basics {

  datatype Option<+T> = None | Some(value: T)

  const MAX_INT64: int := 0x7FFF_FFFF_FFFF_FFFF
  const MIN_INT64: int := -0x8000_0000_0000_0000
  const TWO_64: int := 0x1_0000_0000_0000_0000

  /** Go's `int64`, and PostgreSQL's `BIGINT`. */
  type int64 = x: int | MIN_INT64 <= x <= MAX_INT64

  /** What arithmetic on `int64` leaves of a result: the same number modulo 2^64. */
  function Wrap64(x: int): int64
  {
    (x - MIN_INT64) % TWO_64 + MIN_INT64
  }

  /** Go's `a + b` on `int64`: the sum modulo 2^64, in two's complement. */
  function Add64(a: int64, b: int64): int64
  {
    var x := a + b;
    if x > MAX_INT64 then x - TWO_64 else if x < MIN_INT64 then x + TWO_64 else x
  }

  /** Go's `a - b` on `int64`. */
  function Sub64(a: int64, b: int64): int64
  {
    var x := a - b;
    if x > MAX_INT64 then x - TWO_64 else if x < MIN_INT64 then x + TWO_64 else x
  }
}
