/** Outcomes of the modelled selections: a value, or the Python exception that escapes. */
module Results {

  /** The exceptions the modelled code lets propagate to its caller. */
  datatype Error =
    | EmptySequence    // ValueError raised by `min` over an empty range
    | IndexOutOfRange  // IndexError raised by indexing an axis or volume past its end
    | ZeroSliceStep    // ValueError raised by a slice whose step is 0

  datatype Result<T> = Ok(value: T) | Err(error: Error)

  /** Python's `None` versus a present value. */
  datatype Option<T> = None | Some(value: T)
}
