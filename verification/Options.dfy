/** Values that may be absent, shared by every component. */
module Options {
  datatype Option<+T> = None | Some(value: T)
}
