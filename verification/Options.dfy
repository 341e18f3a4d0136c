/** A value that may be absent: Go's nil. */
module Options {
  datatype Option<+T> = None | Some(value: T)
}
