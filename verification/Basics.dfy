/** Small types shared by every component. */
module Basics {
  datatype Option<+T> = None | Some(value: T)

  /** A positive integer, for clock resolutions and request sizes. */
  type pos = x: int | 0 < x witness 1

  function Min(a: int, b: int): int {
    if a <= b then a else b
  }
}
