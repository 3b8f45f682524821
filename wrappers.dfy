/** Optional values and fallible results. */
module Wrappers {

  datatype Option<T> = None | Some(value: T)

  /** The outcome of a step that may raise: `Err` carries what the Python code would raise. */
  datatype Result<T, E> = Ok(value: T) | Err(error: E)
}
