/** The optional value used where the source returns a nullable column or a found flag. */
module Options {
  datatype Option<+T> = None | Some(value: T)
}
