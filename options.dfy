/** Python's `None` next to a value: an optional value. */
module Options {

  datatype Option<+T> = None | Some(value: T)

}
