/** Failure-compatible wrappers used throughout the model: `Option` for lookups
    that may find nothing, and `Result` for the fallible steps that the source
    chains with `?`. */
module Results {

  datatype Option<+T> = None | Some(value: T) {

    /** Turns a failed lookup into the given error, as `ok_or_else` does. */
    function OkOr<E>(error: E): Result<T, E>
    {
      match this
      case Some(v) => Ok(v)
      case None => Err(error)
    }
  }

  datatype Result<+T, +E> = Ok(value: T) | Err(error: E) {

    predicate IsFailure() {
      Err?
    }

    function PropagateFailure<U>(): Result<U, E>
      requires Err?
    {
      Err(error)
    }

    function Extract(): T
      requires Ok?
    {
      value
    }

    /** Rewrites the error and keeps the value, as `map_err` does. */
    function MapError<E2>(wrap: E -> E2): Result<T, E2>
    {
      match this
      case Ok(v) => Ok(v)
      case Err(e) => Err(wrap(e))
    }
  }
}
