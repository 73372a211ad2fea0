/** Small wrapper datatypes shared by the modules of this model. */
module Common {

  /** A value that may be absent (Kotlin's and Swift's nullable types). */
  datatype Option<+T> = None | Some(value: T)

  /** The outcome of a call that may fail with an error of type E. */
  datatype Result<+T, +E> = Ok(value: T) | Err(error: E)

  /**
   * What a repository operation emits to the presentation layer. The app's
   * envelope also has a Loading state, which none of the modelled operations emits.
   */
  datatype Resource<+T> = Success(data: T) | Error(message: string)

  /** A URL, kept as its text. */
  type Url = string
}
