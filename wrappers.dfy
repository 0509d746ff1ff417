/** The optional-value datatype used where the game returns `None` or a value. */
module Wrappers {

  datatype Option<+T> = None | Some(value: T)
}
