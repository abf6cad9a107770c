/** Go's `uint` on a 64-bit platform, with the wrap-around the commit view relies on. */
module Unsigned {

  const UINT_RANGE: int := 0x1_0000_0000_0000_0000
  const UINT_MAX: int := UINT_RANGE - 1

  type Uint = x: int | 0 <= x < UINT_RANGE

  /** `a - b` on `uint`: the difference modulo 2^64. */
  function Sub(a: Uint, b: Uint): (r: Uint)
    ensures r == a - b || r == a - b + UINT_RANGE
  {
    if b <= a then a - b else a - b + UINT_RANGE
  }

  /** `a + b` on `uint`: the sum modulo 2^64. */
  function Add(a: Uint, b: Uint): (r: Uint)
    ensures r == a + b || r == a + b - UINT_RANGE
  {
    if a + b < UINT_RANGE then a + b else a + b - UINT_RANGE
  }
}
