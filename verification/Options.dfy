/** A value that may be missing: the source's nil pointers and two-value returns. */
module Options {
  datatype Option<+T> = None | Some(value: T)
}
