/** A value that may be missing: a null result or an index that was not found. */
module Options {
  datatype Option<+T> = None | Some(value: T)
}
