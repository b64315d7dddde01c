/** A value that may be missing, as a lookup or a column leaves it. */
module Options {
  datatype Option<T> = None | Some(value: T)
}
