/** An optional value, as JavaScript's `undefined` or an absent key. */
module Options {
  datatype Option<+T> = None | Some(value: T)
}
