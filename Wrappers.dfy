/** The optional value used for the rate oracles' answers and for parse results. */
module Wrappers {

  datatype Option<+T> = None | Some(value: T)
}
