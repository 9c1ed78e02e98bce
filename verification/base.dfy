/** Vocabulary shared by every module: optional values, results and the
    fixed-width integers of the original program. */
module Base {
  datatype Option<+T> = None | Some(value: T)

  datatype Result<+T, +E> = Ok(value: T) | Err(error: E)

  const U64_MAX: nat := 0xFFFF_FFFF_FFFF_FFFF
  const TWO_TO_64: nat := 0x1_0000_0000_0000_0000
  const TWO_TO_32: nat := 0x1_0000_0000

  type u64 = x: nat | x <= 0xFFFF_FFFF_FFFF_FFFF
  type u32 = x: nat | x <= 0xFFFF_FFFF
  type u16 = x: nat | x <= 0xFFFF
  type byte = x: nat | x <= 0xFF
}
