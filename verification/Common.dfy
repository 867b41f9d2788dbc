/** Types and constants that several parts of the kernel share. */
module Common {

  datatype Option<T> = None | Some(value: T)

  type Byte = b: int | 0 <= b < 256

  const PGSIZE: nat := 4096

  // The number of values of an unsigned word of 32 and of 64 bits.
  const U32: nat := 0x1_0000_0000
  const U64: nat := 0x1_0000_0000_0000_0000
}
