/** An optional value: Go's nil pointer, JavaScript's null. */
module Options {
  datatype Option<+T> = None | Some(value: T)
}
