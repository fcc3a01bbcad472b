/** An optional value, used for Go's nil pointers, nil errors and parse failures. */
module Options {

  datatype Option<+T> = None | Some(value: T)
}
