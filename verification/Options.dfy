/** A value that may be missing: a null pointer, or a call that has not returned. */
module Options {
  datatype Option<T> = None | Some(value: T)
}
