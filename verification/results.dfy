/** Optional values and fallible results, the model's form of Go's `nil` and `error`. */
module Results {
  datatype Option<+T> = None | Some(value: T)

  datatype Result<+T, +E> = Ok(value: T) | Err(error: E)
}
