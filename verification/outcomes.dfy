/** Optional values and success-or-error results, used for the pool's
    arguments that may be missing and for its operations that may fail. */
module Outcomes {

  datatype Option<+T> = None | Some(value: T)

  datatype Result<+T, +E> = Ok(value: T) | Err(error: E)
}
