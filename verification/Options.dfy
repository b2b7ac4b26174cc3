/** An optional value, for null pointers and absent Lua arguments. */
module Options {
  datatype Option<+T> = None | Some(value: T)
}
