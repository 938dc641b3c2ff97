/** The optional value used where the modelled sources have `undefined`, `null` or `None`. */
module Options {
  datatype Option<+T> = None | Some(value: T)
}

module ByteStrings {
  newtype byte = x: int | 0 <= x < 256

  type Bytes = seq<byte>
}
