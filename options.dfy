/** The optional value used where the Java code returns null or throws. */
module Options {
  datatype Option<+T> = None | Some(value: T)
}
