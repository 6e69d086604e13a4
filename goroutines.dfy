/** Identifiers of the execution contexts (goroutines) that take a lock. */
module Goroutines {

  /** A goroutine id is a Go `uint64`. */
  type GoroutineId = x: int | 0 <= x < 0x1_0000_0000_0000_0000
}
