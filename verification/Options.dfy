/** A value, or the absence of one: where the sources throw, or find nothing. */
module Options {
  datatype Option<+T> = None | Some(value: T)
}
