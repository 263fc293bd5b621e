/** Option and Result values used for absent JSON keys and for the
    errors the script terminates with. */
module Wrappers {
  datatype Option<+T> = None | Some(value: T)

  datatype Result<+R, +E> = Success(value: R) | Failure(error: E)
}
