/** The integer operations of Math.min and Math.max, and the mebibyte. */
module Integers {
  const MIB: nat := 1024 * 1024

  function Max(a: int, b: int): int {
    if a < b then b else a
  }

  function Min(a: int, b: int): int {
    if a < b then a else b
  }
}
