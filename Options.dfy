/** Python's `None`-or-value, as used for optional columns and arguments. */
module Options {

  datatype Option<+T> = None | Some(value: T)
}
