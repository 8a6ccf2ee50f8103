/** The two result types shared by the models. */
module Wrappers {

  datatype Option<+T> = None | Some(value: T)

  /** A call that may raise. */
  datatype Outcome<+T> = Ok(value: T) | Raised
}
