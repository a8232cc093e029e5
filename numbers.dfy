/** Small arithmetic helpers shared by the modules. */
module Numbers {
  /** The smaller of two integers, as `Math.min`. */
  function Min(a: int, b: int): int {
    if a <= b then a else b
  }
}
