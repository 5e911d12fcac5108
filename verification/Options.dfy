/** The optional value used wherever the service has a nil pointer, a nil error or a missing key. */
module Options {
  datatype Option<+T> = None | Some(value: T)
}
