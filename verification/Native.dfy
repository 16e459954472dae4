/** Constants and small values shared by the models: libmpv status codes,
    integer limits, the abstraction of a C++ `double`, and optional results. */
module Native {
  const INT32_MAX: nat := 0x7FFF_FFFF
  const UINT64_MAX: nat := 0xFFFF_FFFF_FFFF_FFFF

  const SUCCESS: int := 0
  const NOMEM: int := -2
  const UNINITIALIZED: int := -3
  const INVALID_PARAMETER: int := -4
  const VO_INIT_FAILED: int := -15
  const NOTHING_TO_PLAY: int := -16

  datatype Option<+T> = None | Some(value: T)

  /** A floating-point value: the finite ones stand for reals, the others are
      told apart only as far as the code tells them apart. */
  datatype Number = NotANumber | PlusInfinity | MinusInfinity | Finite(value: real)

  function Max(a: real, b: real): real {
    if a < b then b else a
  }

  /** The native token after this one; 0, for good, once they are used up. */
  function Following(token: nat): nat {
    if token == UINT64_MAX then 0 else token + 1
  }

  function Bit(b: bool): nat {
    if b then 1 else 0
  }
}
