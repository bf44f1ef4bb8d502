/** The conventional optional value, shared by every model in this project. */
module Options {
  datatype Option<+T> = None | Some(value: T)
}
