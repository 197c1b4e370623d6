/** The nullable reference of the game (`null` or an object) as a value. */
module Wrappers {
  datatype Option<+T> = None | Some(value: T)
}
