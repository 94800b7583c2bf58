/** The optional value used for the open shift (`Shift | null` in the program). */
module Wrappers {
  datatype Option<+T> = None | Some(value: T)
}
