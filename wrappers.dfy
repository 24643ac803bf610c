/** Optional values and error results, the Dafny counterparts of Python's
    `None` and of an exception that a caller may observe. */
module Wrappers {

  datatype Option<+T> = None | Some(value: T)

  datatype Result<+R, +E> = Ok(value: R) | Err(error: E)
}
