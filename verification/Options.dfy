/** A value that may be missing, as Go's nil pointers and second results express it. */
module Options {

  datatype Option<+T> = None | Some(value: T)
}
