/** Fixed-width integers of the Go ABI and the wrap-around conversions between them. */
module Ints {

  newtype byte = x: int | 0 <= x < 0x100
  newtype Int16 = x: int | -0x8000 <= x < 0x8000
  newtype Int32 = x: int | -0x8000_0000 <= x < 0x8000_0000
  newtype Int64 = x: int | -0x8000_0000_0000_0000 <= x < 0x8000_0000_0000_0000
  newtype Uint32 = x: int | 0 <= x < 0x1_0000_0000
  newtype Uint64 = x: int | 0 <= x < 0x1_0000_0000_0000_0000

  /** Go's `int32(x)` for a 64-bit `int` x: keep the low 32 bits, read them as two's complement. */
  function ToInt32(x: Int64): (r: Int32)
    ensures (r as int - x as int) % 0x1_0000_0000 == 0
    ensures -0x8000_0000 <= x < 0x8000_0000 ==> r as int == x as int
  {
    var low := x as int % 0x1_0000_0000;
    if low < 0x8000_0000 then low as Int32 else (low - 0x1_0000_0000) as Int32
  }

  /** Go's `int64(x)` for a `uintptr` x: the same 64 bits read as two's complement. */
  function ToInt64(x: Uint64): (r: Int64)
    ensures (r as int - x as int) % 0x1_0000_0000_0000_0000 == 0
    ensures x < 0x8000_0000_0000_0000 ==> r as int == x as int
    ensures r < 0 <==> x >= 0x8000_0000_0000_0000
  {
    if x < 0x8000_0000_0000_0000 then x as int as Int64
    else (x as int - 0x1_0000_0000_0000_0000) as Int64
  }
}
