/** Option and Result, the two shapes the model uses for JavaScript's
    `undefined`/`null` results and for thrown errors. */
module Wrappers {

  datatype Option<+T> = None | Some(value: T) {
    /** The `??` operator: the value, or `default` when absent. */
    function GetOr(default: T): T {
      match this
      case Some(v) => v
      case None => default
    }
  }

  datatype Result<+T, +E> = Ok(value: T) | Err(error: E)
}
