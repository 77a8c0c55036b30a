/** The optional value used where the engine answers "value, ok" or "value, error". */
module Wrappers {
  datatype Option<+T> = None | Some(value: T)
}
