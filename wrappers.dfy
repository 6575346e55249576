/** Optional values and results with an error, for Java's Optional and thrown exceptions. */
module Wrappers {

  /** Java's Optional: None is the empty Optional (and a null a getter may return). */
  datatype Option<+T> = None | Some(value: T) {

    /** Optional.orElse */
    function GetOr(default: T): T {
      match this
      case Some(v) => v
      case None => default
    }
  }

  /** The Java exceptions the modelled code can throw. */
  datatype Exception =
    | NullPointerException
    | IndexOutOfBoundsException
    | ParseException
    | IllegalArgumentException

  /** The outcome of an operation that either returns a value or throws. */
  datatype Result<+T, +E> = Ok(value: T) | Err(error: E)
}
