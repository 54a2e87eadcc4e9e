/** Option and Result values used for the error paths of the modelled code:
    every Python exception the model keeps becomes an `Err` carrying a
    description of the failure. */
module Outcomes {

  datatype Option<+T> = None | Some(value: T)

  datatype Result<+T, +E> = Ok(value: T) | Err(error: E)
}
