/** The optional result used where the game returns a sentinel for "nothing found". */
module Wrappers {

  datatype Option<+T> = None | Some(value: T)
}
