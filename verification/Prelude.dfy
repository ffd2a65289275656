/** What the other modules share. */
module Prelude {
  datatype Option<+T> = None | Some(value: T)

  /** One more than the largest unsigned 64-bit number. */
  const U64 := 0x1_0000_0000_0000_0000
}
