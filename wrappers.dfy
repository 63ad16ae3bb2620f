/** Option and Result: the shapes of "maybe absent" values and of operations that throw. */
module Wrappers {

  datatype Option<+T> = None | Some(value: T) {
    function GetOr(default: T): T {
      match this
      case Some(v) => v
      case None => default
    }
  }

  /** A Failure stands for an exception thrown by the source (an RpcException, an Error). */
  datatype Result<+R, +E> = Success(value: R) | Failure(error: E)
}
