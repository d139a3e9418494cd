/** Value wrappers shared by the pricing model: an optional argument and the
    two Python exceptions the modelled code can raise. */
module Basics {

  /** An optional value, standing for a Python argument that may be `None`. */
  datatype Option<+T> = None | Some(value: T)

  /** The exceptions the modelled lines can raise. */
  datatype PyError =
    | ZeroDivisionError          // a float division whose divisor is 0.0
    | KeyError(key: string)      // a dictionary lookup of a missing key

  /** Either a value or the exception that was raised instead. */
  datatype Result<+T> = Ok(value: T) | Err(error: PyError)
}
