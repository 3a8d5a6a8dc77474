/** Option and Result, used wherever the federator returns `undefined`, returns
    `false` next to a value, or throws. */
module Wrappers {
  datatype Option<+T> = None | Some(value: T)

  datatype Result<+T, +E> = Success(value: T) | Failure(error: E)
}
