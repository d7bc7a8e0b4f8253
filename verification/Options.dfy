/** The optional value the rest of the project uses for Go's nil pointers and `, ok` results. */
module Options {
  datatype Option<+T> = None | Some(value: T)
}
