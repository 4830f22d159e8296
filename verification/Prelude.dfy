/** Shared vocabulary: optional values and the fixed-width unsigned integers of the driver. */
module Prelude {
  datatype Option<+T> = None | Some(value: T)

  datatype Result<+T> = Ok(value: T) | Err(error: Error)

  /** The driver's error values that the modelled operations return. */
  datatype Error =
    | MaxMonitors | BadMode | BadBitDepth | HdrUnsupported | NoAdapter
    | DuplicateSession | NoSuchSession | IdentityInUse | BadPool

  newtype u8 = x: int | 0 <= x < 0x100
  type u16 = x: nat | x < 0x1_0000
  type u32 = x: nat | x < 0x1_0000_0000
  type u64 = x: nat | x < 0x1_0000_0000_0000_0000

  const U32_MAX: u32 := 0xFFFF_FFFF
  const U64_MAX: u64 := 0xFFFF_FFFF_FFFF_FFFF
}
