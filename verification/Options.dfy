/** A value that may be missing: a NULL column, an absent JSON field. */
module Options {

  datatype Option<+T> = None | Some(value: T)
}
