/** Optional values, used for the source's `None`, NaN and missing-value cases. */
module Outcomes {

  datatype Option<T> = None | Some(value: T)

  datatype Result<T, E> = Ok(value: T) | Err(error: E)
}
