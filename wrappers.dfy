/** The optional value used for "no blocking tile" and "no dig target". */
module Wrappers {
  datatype Option<+T> = None | Some(value: T)
}
