/** The optional value used for the drag slot, which the game keeps as an
    index or `null`. */
module Wrappers {

  datatype Option<+T> = None | Some(value: T)
}
