/** Optional values and success-or-error results, used where the Kotlin code has
    a nullable reference or an exception that escapes to the caller. */
module Wrappers {

  /** A nullable reference: `None` plays the role of Kotlin's `null`. */
  datatype Option<+T> = None | Some(value: T)

  /** The value of `o` as a sequence of zero or one elements. */
  function OptionToSeq<T>(o: Option<T>): seq<T>
  {
    match o
    case Some(v) => [v]
    case None => []
  }

  /** The outcome of a call that either returns normally or throws. */
  datatype Result<+T, +E> = Ok(value: T) | Err(error: E)
}
