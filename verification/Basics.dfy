/** What several parts of the kernel share. */
module Basics {
  datatype Option<+T> = None | Some(value: T)

  const PAGE: int := 4096
  const K_HEAP_START: int := 0xc010_0000   // first address behind the low megabyte's mapping
}
