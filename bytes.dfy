/** Fixed-width machine integers of the Go and eBPF code, as bounded mathematical integers. */
module Bytes {
  type Byte = x: int | 0 <= x < 0x100
  type U16 = x: int | 0 <= x < 0x1_0000
  type U32 = x: int | 0 <= x < 0x1_0000_0000
  type U64 = x: int | 0 <= x < 0x1_0000_0000_0000_0000

  /** Go's conversion of any integer to uint16: the value modulo 2^16. */
  function ToU16(x: int): U16 { x % 0x1_0000 }

  /** Go's conversion of any integer to uint32: the value modulo 2^32. */
  function ToU32(x: int): U32 { x % 0x1_0000_0000 }

  /** uint64 subtraction, which wraps around below zero. */
  function SubU64(a: U64, b: U64): (r: U64)
    ensures a >= b ==> r == a - b
    ensures a < b ==> r == a - b + 0x1_0000_0000_0000_0000
  {
    (a - b) % 0x1_0000_0000_0000_0000
  }
}
