/** Option and Result values: the model's stand-in for Python's exceptions and
    for lookups that may miss. */
module Wrappers {

  datatype Option<+T> = None | Some(value: T)

  datatype Result<+T, +E> = Ok(value: T) | Err(error: E)
}
