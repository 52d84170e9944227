/** Fixed-width unsigned integers of the microcontroller program.
    Arithmetic on these types is checked by Dafny, so any expression that
    would overflow (a panic in a debug build, a wrap-around in a release
    build) is a verification error rather than a silent wrap. */
module MachineInts {

  /** Rust's `u8`: the animation counter and the timing constants. */
  newtype u8 = x: int | 0 <= x < 0x100

  /** Rust's `u16`: the value returned by a 10-bit ADC conversion. */
  newtype u16 = x: int | 0 <= x < 0x1_0000
}
