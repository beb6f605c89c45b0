/** A value that may be missing: the nil pointers and zero results of the source. */
module Options {

  datatype Option<+T> = None | Some(value: T)
}
