/** Byte strings: the keys and values the engine and the adapter exchange. */
module ByteStrings {
  newtype Byte = x: int | 0 <= x < 256

  /** A Go byte slice, and also a Go string, whose conversions to and from it are identities. */
  type Bytes = seq<Byte>
}
