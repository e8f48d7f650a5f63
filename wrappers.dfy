/** The optional-value type used throughout the model (a missing session,
    a stored point that does not decode, a credential not yet handed to the
    generation service). */
module Wrappers {

  datatype Option<+T> = None | Some(value: T)
}
