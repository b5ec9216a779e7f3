/** Option and Result values, standing in for Rust's `Option<T>` and
    `Result<T, E>`. */
module Wrappers {

  datatype Option<+T> = None | Some(value: T)

  datatype Result<+R, +E> = Success(value: R) | Failure(error: E) {

    /** Keeps a success, and rewrites a failure with `f` (Rust's `map_err`). */
    function MapFailure<NewE>(f: E -> NewE): (r: Result<R, NewE>)
      ensures r.Success? <==> this.Success?
      ensures r.Success? ==> r.value == this.value
      ensures r.Failure? ==> r.error == f(this.error)
    {
      match this
      case Success(v) => Success(v)
      case Failure(e) => Failure(f(e))
    }
  }
}
