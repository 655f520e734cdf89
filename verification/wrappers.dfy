/** An optional value, for the TypeScript properties declared with `?`. */
module Wrappers {
  datatype Option<+T> = None | Some(value: T)
}
