/** A value that may be absent: a nil pointer, a missing key or an object the API server does not hold. */
module Options {
  datatype Option<+T> = None | Some(value: T)
}
