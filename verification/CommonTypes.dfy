// Types shared by the regulator and the HMI (includes/CommonTypes.h).
module CommonTypes {

  type Byte = x: int | 0 <= x < 256

  // A float travels as its 32-bit pattern.
  type Float32 = bv32

  const FLOAT_ONE: Float32 := 0x3F80_0000
  const FLOAT_ZERO: Float32 := 0

  datatype IOAddr = IOAddr(header: Byte, mod: Byte, channel: Byte, numBits: Byte)

  datatype DrvState = Running | Stopped | COMError | VarError | UnInit

  datatype QuState = OK | OverRange | UnderRange | ComError

  datatype Option<+T> = None | Some(value: T)
}
