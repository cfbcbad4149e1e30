/** The kernel's atomic_t: a 32-bit int. */
module Atomics {

  const INT_MAX: int := 0x7FFF_FFFF

  function Incremented(x: int): int { if x == INT_MAX then -INT_MAX - 1 else x + 1 }

  function Decremented(x: int): int { if x == -INT_MAX - 1 then INT_MAX else x - 1 }
}
