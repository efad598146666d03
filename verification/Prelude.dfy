/** Shared value types: optional values, and results whose failure carries no detail
    (every error in the modelled code is a thrown exception that ends the operation). */
module Prelude {

  datatype Option<+T> = None | Some(value: T)

  datatype Result<+T> = Ok(value: T) | Failed
}
