/** An optional value, for the source's nil pointers and failed look-ups. */
module Options {
  datatype Option<+T> = None | Some(value: T)
}
