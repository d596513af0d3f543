/** Small shared vocabulary: optional values, results and raw bytes. */
module Base {

  /** A value that may be missing (a failed decode, an absent map entry). */
  datatype Option<+T> = None | Some(value: T)

  /** The value of an operation that can fail with an error of type E. */
  datatype Result<+T, +E> = Ok(value: T) | Err(error: E)

  /** One octet of an HTTP response body. */
  newtype byte = x: int | 0 <= x < 256

  /** A raw response body, stored and returned by the cache as is. */
  type Bytes = seq<byte>
}
