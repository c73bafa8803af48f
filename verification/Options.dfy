/** A value or none, for the source's optional fields and failing calls. */
module Options {
  datatype Option<+T> = None | Some(value: T)
}
