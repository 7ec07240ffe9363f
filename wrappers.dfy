/** Small helpers shared by the searches: Python's None and its max / min of two ints. */
module Wrappers {

  datatype Option<T> = None | Some(value: T)

  /** max(a, b): a when the two are equal. */
  function Max(a: int, b: int): int { if a >= b then a else b }

  /** min(a, b): a when the two are equal. */
  function Min(a: int, b: int): int { if a <= b then a else b }
}
