/** The optional-value datatype shared by the game model: a lookup or a
    placement either yields a value or yields nothing. */
module Wrappers {

  datatype Option<+T> = None | Some(value: T)
}
