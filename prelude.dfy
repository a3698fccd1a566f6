/** Shared vocabulary: failure-carrying results and the fixed-width integer types of the engine. */
module Prelude {

  /** The number of values of a 32-bit unsigned integer. */
  const UINT32_LIMIT: int := 0x1_0000_0000

  /** std::uint32_t */
  type uint32 = x: int | 0 <= x < 0x1_0000_0000

  /** std::int32_t (the engine's int) */
  type int32 = x: int | -0x8000_0000 <= x < 0x8000_0000

  /** std::int8_t */
  type int8 = x: int | -128 <= x < 128

  datatype Option<+T> = None | Some(value: T)

  /** The value of an operation that returns T or throws an exception of kind E. */
  datatype Result<+T, +E> = Ok(value: T) | Err(error: E)

  /** The outcome of a void operation that may throw an exception of kind E. */
  datatype Outcome<+E> = Pass | Fail(error: E)

  function Min(a: int, b: int): int { if a <= b then a else b }

  function Max(a: int, b: int): int { if a >= b then a else b }
}
