/** A nullable column or an optional form value. */
module Options {
  datatype Option<+T> = None | Some(value: T)
}
