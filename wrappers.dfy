/** Failure-carrying values shared by every module of the model. */
module Wrappers {

  datatype Option<+T> = None | Some(value: T) {
    function GetOr(default: T): T {
      match this
      case Some(v) => v
      case None => default
    }
  }

  /** The outcome of a call that can raise: the value, or the exception's text. */
  datatype Result<+T, +E> = Success(value: T) | Failure(error: E) {
    function ToOption(): Option<T> {
      match this
      case Success(v) => Some(v)
      case Failure(_) => None
    }
  }

  /** Python's `value or default` on an optional number: an absent or zero argument falls back to the default. */
  function OrDefault(value: Option<int>, default: int): (r: int)
    ensures value.None? || value == Some(0) ==> r == default
    ensures value.Some? && value.value != 0 ==> r == value.value
  {
    match value
    case Some(v) => if v != 0 then v else default
    case None => default
  }
}
