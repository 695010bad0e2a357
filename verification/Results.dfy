/** Absent values and raised errors. */
module Results {
  datatype Option<+T> = None | Some(value: T)

  /** A raised `ValidationError`, `ConfigurationError` or `GenerationError`, with what it complains about. */
  datatype Result<+T> = Ok(value: T) | Raised(reason: string)
}
