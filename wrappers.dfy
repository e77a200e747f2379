/** Optional values and results with an error, used for missing CSV cells,
    missing codes and the errors the report functions propagate. */
module Wrappers {

  datatype Option<+T> = None | Some(value: T)

  datatype Result<+T, +E> = Ok(value: T) | Err(error: E)
}
