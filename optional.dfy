/** Optional values and the outcome of a Python call that may raise. */
module Optional {

  /** A value that may be absent; also Python's `None` where a caller-supplied default is `None`. */
  datatype Option<+T> = None | Some(value: T)

  /** The outcome of a Python call: it returns a value, or an exception escapes from it. */
  datatype Result<+T> = Ok(value: T) | Raises
}
