/** Plain `Option` and `Result` values for the outcomes of parsing and of stock operations. */
module Results {

  datatype Option<+T> = None | Some(value: T)

  datatype Result<+R, +E> = Ok(value: R) | Err(error: E)
}
