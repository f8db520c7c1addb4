/** Vocabulary shared by every module: optional values, fallible results, bytes, and the machine word. */
module Prelude {

  datatype Option<+T> = None | Some(value: T)

  datatype Result<+T, +E> = Ok(value: T) | Err(error: E)

  newtype byte = b: int | 0 <= b < 256

  /** `usize::MAX` on the 64-bit targets the repository builds for. */
  const USIZE_MAX: nat := 0xFFFF_FFFF_FFFF_FFFF

  /** `0x100 | status`. */
  function OrBit8(status: nat): nat {
    if (status / 0x100) % 2 == 1 then status else status + 0x100
  }
}
