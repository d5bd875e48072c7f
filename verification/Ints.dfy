/** Fixed-width unsigned integers of the kernel map and of Go (`u32`, `u64`,
    `uint32`, `uint64`), as bounded subsets of `nat`. */
module Ints {

  const Two32: nat := 0x1_0000_0000
  const Two64: nat := 0x1_0000_0000_0000_0000

  type u32 = x: nat | x < Two32
  type u64 = x: nat | x < Two64
}
