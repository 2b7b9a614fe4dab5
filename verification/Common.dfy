/** Shared vocabulary: row identifiers, optional values and results of operations that can fail. */
module Common {

  /** Primary keys. The program uses UUIDs; only equality of keys matters here. */
  type Id = nat

  datatype Option<+T> = None | Some(value: T)

  datatype Result<+T, +E> = Ok(value: T) | Err(error: E)
}
