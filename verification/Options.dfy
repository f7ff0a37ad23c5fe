/** The small types the other modules share. */
module Options {
  datatype Option<+T> = None | Some(value: T)

  type Byte = n: int | 0 <= n < 256
}
