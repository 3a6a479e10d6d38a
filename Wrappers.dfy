/** Option and Result, standing for Rust's `Option<T>` and `Result<T, E>`. */
module Wrappers {

  datatype Option<+T> = None | Some(value: T)

  datatype Result<+T, +E> = Success(value: T) | Failure(error: E) {

    /** Rust's `Result::ok`: keeps the value, drops the error. */
    function ToOption(): (o: Option<T>)
      ensures o.Some? <==> Success?
      ensures o.Some? ==> o.value == value
    {
      match this
      case Success(v) => Some(v)
      case Failure(_) => None
    }

    /** Rust's `Result::unwrap_or_else(|_| fallback)`. */
    function GetOr(fallback: T): (v: T)
      ensures Success? ==> v == value
      ensures Failure? ==> v == fallback
    {
      match this
      case Success(v) => v
      case Failure(_) => fallback
    }
  }
}
