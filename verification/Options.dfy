module Options {
  /** A nullable value. */
  datatype Option<+T> = None | Some(value: T)
}
