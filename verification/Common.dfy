/** Types shared by every component. */
module Common {

  type byte = b: int | 0 <= b < 256

  datatype Option<+T> = None | Some(value: T)

  datatype Result<+T, +E> = Ok(value: T) | Err(error: E)

  /** The outcome of `read_line`. */
  datatype Line = Text | Eof | IoError
}
