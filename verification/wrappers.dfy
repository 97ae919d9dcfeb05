/** Optional values and results with an error, standing in for std::optional
    and for the exceptions the engine throws. */
module Wrappers {

  datatype Option<+T> = None | Some(value: T)

  datatype Result<+T, +E> = Ok(value: T) | Err(error: E)
}
