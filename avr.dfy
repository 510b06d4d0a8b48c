/**
 * Machine integers of the 8-bit AVR target the controller runs on: `int` is
 * 16 bits wide, `unsigned long` 32 bits, and `analogRead` yields a 10-bit
 * conversion result.
 */
module Avr {

  const INT16_MIN: int := -0x8000
  const INT16_MAX: int := 0x7FFF
  const UINT16_MAX: int := 0xFFFF
  const INT32_MIN: int := -0x8000_0000
  const INT32_MAX: int := 0x7FFF_FFFF
  const UINT32_MAX: int := 0xFFFF_FFFF

  /** A C `int` on AVR. */
  type Int16 = x: int | INT16_MIN <= x <= INT16_MAX

  /** A C `unsigned int` on AVR. */
  type Uint16 = x: int | 0 <= x <= UINT16_MAX

  /** A C `long int` on AVR. */
  type Int32 = x: int | INT32_MIN <= x <= INT32_MAX

  /** A C `unsigned long` on AVR, e.g. a `millis()` timestamp. */
  type Uint32 = x: int | 0 <= x <= UINT32_MAX

  /** What `analogRead` returns: the 10-bit ADC result. */
  type AnalogReading = x: int | 0 <= x <= 1023

  /**
   * `x -= 1` on a 16-bit `int`. The C++ standard leaves overflow undefined;
   * avr-gcc produces two's-complement wrap-around, which is what is modelled.
   */
  function Dec16(x: Int16): (r: Int16)
    ensures (x - 1 - r) % 0x1_0000 == 0
  {
    if x == INT16_MIN then INT16_MAX else x - 1
  }
}
