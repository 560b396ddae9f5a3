/** The optional value used where the source has `null`, `undefined` or a failed match. */
module Optional {
  datatype Option<+T> = None | Some(value: T)
}
