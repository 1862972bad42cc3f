/** Optional values and fallible results, used in place of Python's `None`
    and of the `ValueError` raised by the optimizer argument checks. */
module Wrappers {

  /** An optional value; `None` stands for Python's `None`. */
  datatype Option<+T> = None | Some(value: T)

  /** Either a value or the error that stopped its construction. */
  datatype Result<+T, +E> = Success(value: T) | Failure(error: E)
}
