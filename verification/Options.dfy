/** The optional values every other module uses (Python's `None`, SQL's NULL, Go's nil pointer). */
module Options {
  datatype Option<+T> = None | Some(value: T)
}
