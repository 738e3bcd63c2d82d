/** The exceptions a caller can see, as values. */
module Results {
  datatype Error = ValidationError | CurrencyMismatchError | InvalidOperation

  datatype Result<T> = Ok(value: T) | Err(error: Error)
}
