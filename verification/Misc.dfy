/** Small shared definitions (pkg/misc and the address families). */
module Misc {

  datatype Option<+T> = None | Some(value: T)

  const AF_INET: nat := 2
  const AF_INET6: nat := 10

  /** True for every loop up to and including maxLoops, and for ever when maxLoops is zero. */
  predicate MaxLoopsOrForEver(pollingLoops: nat, maxLoops: int) {
    maxLoops == 0 || pollingLoops <= maxLoops
  }
}
