/** Option and Result, the two failure-carrying values the model uses in place
    of `undefined`/NaN and of Node's error-first callbacks. */
module Results {

  /** A value that may be missing: `None` plays the part of NaN or `undefined`. */
  datatype Option<+T> = None | Some(value: T)

  /** The two ways an error-first callback can be called: `callback(null, value)`
      is `Success(value)`, `callback(err)` is `Failure(err)`. */
  datatype Result<+T, +E> = Success(value: T) | Failure(error: E)
}
