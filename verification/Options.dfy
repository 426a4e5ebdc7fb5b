/** The source's nil-able values and second `ok` results. */
module Options {
  datatype Option<+T> = None | Some(value: T)
}
