/** A value or none, where the source has a pointer that may be NULL. */
module Options {
  datatype Option<T> = None | Some(value: T)
}
