module Options {
  /** A value that the source may leave as None. */
  datatype Option<+T> = None | Some(value: T)
}
