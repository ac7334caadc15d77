/** The optional value the rules engine hands back for "no piece" or "no moves". */
module Wrappers {

  datatype Option<+T> = None | Some(value: T)
}
