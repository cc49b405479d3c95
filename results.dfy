/** Option and Result values standing for JavaScript's `undefined` and for
    thrown errors: a `Result` carries either a value or an error message. */
module Results {

  datatype Option<+T> = None | Some(value: T)

  datatype Result<+T> = Ok(value: T) | Err(error: string)
}
