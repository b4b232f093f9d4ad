/** Fixed-width integers of the host and of the engine. */
module Machine {
  /** A signed 64-bit integer (`System::Int64`, the engine's `Integer`). */
  newtype Int64 = x: int | -0x8000_0000_0000_0000 <= x < 0x8000_0000_0000_0000

  /** A signed 32-bit integer (`int`, `System::Int32`). */
  newtype Int32 = x: int | -0x8000_0000 <= x < 0x8000_0000
}
