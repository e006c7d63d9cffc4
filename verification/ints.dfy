/** Go's fixed-width integers, as the two variants of the service use them. */
module Ints {
  const Two64: int := 0x1_0000_0000_0000_0000
  const Two63: int := 0x8000_0000_0000_0000

  /** Go's `uint64`. */
  newtype u64 = x: int | 0 <= x < 0x1_0000_0000_0000_0000

  /** Go's `int64`, and `int` on a 64-bit platform. */
  newtype i64 = x: int | -0x8000_0000_0000_0000 <= x < 0x8000_0000_0000_0000

  /** The conversion `uint64(x)` of an `int64`: the same 64 bits read as unsigned. */
  function ToUint64(x: i64): (r: u64)
    ensures (r as int - x as int) % Two64 == 0
    ensures 0 <= x ==> r as int == x as int
  {
    if x < 0 then (x as int + Two64) as u64 else x as u64
  }
}
