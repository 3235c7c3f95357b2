/** A value, or nothing where the source has None or raises. */
module Options {

  datatype Option<+T> = None | Some(value: T)
}
