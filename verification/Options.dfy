/** The stock Some/None datatype, shared by every component. */
module Options {
  datatype Option<+T> = None | Some(value: T)
}
