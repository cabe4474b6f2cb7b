/** Optional values and results with an error, used throughout the model.
    `None` stands for JavaScript's `undefined` (a missing field or a missing
    argument); `Failure` stands for a thrown error or an error reply. */
module Wrappers {

  datatype Option<+T> = None | Some(value: T) {
    function GetOr(default: T): T {
      match this
      case Some(v) => v
      case None => default
    }
  }

  datatype Result<+R, +E> = Success(value: R) | Failure(error: E)
}
