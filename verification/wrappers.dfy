/** Failure-compatible wrappers shared by every module of the model:
    `Option` stands for Python's `None`-or-value results, `Result` for a
    value-or-raised-exception outcome. */
module Wrappers {

  datatype Option<+T> = None | Some(value: T) {

    function GetOr(default: T): T {
      match this
      case Some(v) => v
      case None => default
    }
  }

  datatype Result<+T, +E> = Success(value: T) | Failure(error: E)
}
