/** The optional value used for ports and lookups, and the word sizes of the C types. */
module Basics {
  datatype Option<+T> = None | Some(value: T)

  const UINT32: nat := 0x1_0000_0000
  const UINT64: nat := 0x1_0000_0000_0000_0000
}
