/** Optional values, standing for the nullable references of the source. */
module Options {
  datatype Option<+T> = None | Some(value: T)
}

/** The `Math.min` and `Math.max` the source uses on integers. */
module Numbers {
  function Min(a: int, b: int): int
  {
    if a < b then a else b
  }

  function Max(a: int, b: int): int
  {
    if a < b then b else a
  }
}
