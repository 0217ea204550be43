/** Optional values and error results, used for arguments the caller may omit
    and for the exceptions the slab drivers raise. */
module Wrappers {

  datatype Option<+T> = None | Some(value: T)

  datatype Result<+R, +E> = Success(value: R) | Failure(error: E)
}
