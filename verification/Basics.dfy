/** What several modules use. */
module Basics {
  type Byte = x: int | 0 <= x < 256

  datatype Option<T> = None | Some(value: T)

  function Min(a: int, b: int): int { if a <= b then a else b }
}
