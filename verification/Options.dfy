/** A value that may be missing: a null pointer, or a NULL column of the database. */
module Options {
  datatype Option<+T> = None | Some(value: T)
}
