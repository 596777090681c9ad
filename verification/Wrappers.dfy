/** Optional values and results; `Option` stands for a property that may be undefined. */
module Wrappers {

  datatype Option<+T> = None | Some(value: T) {
    function GetOr(default: T): T {
      if Some? then value else default
    }
  }

  datatype Result<+R, +E> = Success(value: R) | Failure(error: E)
}
