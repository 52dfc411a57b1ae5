/** The optional values that stand for the nullable pointers of the source. */
module Options {
  datatype Option<+T> = None | Some(value: T)
}
