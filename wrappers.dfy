/** Failure-compatible wrappers and fixed-width integer types shared by the driver models. */
module Wrappers {

  datatype Option<+T> = None | Some(value: T)

  /** A C function that returns either a value or a negative errno. */
  datatype Result<+T> = Ok(value: T) | Err(errno: int)

  const TWO_16: nat := 0x1_0000
  const TWO_32: nat := 0x1_0000_0000

  /** `u32`: the C type of the frequency field of the frontend property cache. */
  type u32 = x: int | 0 <= x < 0x1_0000_0000

  /** `u16`: the stream selector. */
  type u16 = x: int | 0 <= x < 0x1_0000

  /** Linux errno values returned (negated) by the drivers. */
  const EIO: int := 5
  const ERANGE: int := 34
  const ETIMEDOUT: int := 110
  const EREMOTEIO: int := 121
}
