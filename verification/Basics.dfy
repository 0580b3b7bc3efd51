/** What several components share: optional values and 32-bit numbers. */
module Basics {

  datatype Option<+T> = None | Some(value: T)

  const UINT32_LIMIT := 0x1_0000_0000

  type uint32 = n: int | 0 <= n < UINT32_LIMIT
}
