/** The optional value used where the programs report "nothing found" or throw on an empty container. */
module Wrappers {

  datatype Option<+T> = None | Some(value: T)
}
