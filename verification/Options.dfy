/** A value that may be missing: a null pointer, an empty optional, or an error that has been thrown. */
module Options {

  datatype Option<+T> = None | Some(value: T)
}
