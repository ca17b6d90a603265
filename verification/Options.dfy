/** A value that may be missing: a nil pointer, an absent key, or the missing half of a value-and-error pair. */
module Options {
  datatype Option<+T> = None | Some(value: T)
}
