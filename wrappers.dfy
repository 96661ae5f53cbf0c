/** Optional values and success-or-error results, used for JavaScript's
    `undefined`/`null` and for the exceptions the services throw. */
module Wrappers {

  datatype Option<+T> = None | Some(value: T)

  datatype Result<+T, +E> = Ok(value: T) | Err(error: E)
}
