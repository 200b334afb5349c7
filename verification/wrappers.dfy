/** Nullable values of the page state (a timer handle, the last prediction, the current sample). */
module Wrappers {

  datatype Option<+T> = None | Some(value: T)
}
