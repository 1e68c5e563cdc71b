/** The nullable values of the game: an empty board cell, an unset saved score, no milestone. */
module Wrappers {

  datatype Option<+T> = None | Some(value: T)

}
