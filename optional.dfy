/** The usual Some/None wrapper, for Go's nil pointers and absent map entries. */
module Optional {
  datatype Option<+T> = None | Some(value: T)
}
