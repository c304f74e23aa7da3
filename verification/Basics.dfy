module Basics {
  datatype Option<T> = None | Some(value: T)

  /** Frames from `start` up to, but not including, `end`. */
  datatype Range = Range(start: int, end: int)

  function Min(a: int, b: int): int { if a <= b then a else b }

  function Max(a: int, b: int): int { if a >= b then a else b }
}
