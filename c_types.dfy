/** Fixed-width C integer types used by the firmware and the conversion to
    uint32_t (ISO/IEC 9899:2011, section 6.3.1.3). */
module CTypes {

  const Uint32Modulus: int := 0x1_0000_0000

  type Uint32 = x: int | 0 <= x < Uint32Modulus
  type Int32 = x: int | -0x8000_0000 <= x < 0x8000_0000

  /** Conversion of an integer value to uint32_t: the value is reduced modulo
      2^32 (section 6.3.1.3, paragraph 2). This is also the result of uint32_t
      arithmetic on the exact mathematical result (section 6.2.5, paragraph 9). */
  function ToUint32(x: int): (r: Uint32)
    ensures 0 <= x < Uint32Modulus ==> r == x
    ensures (r - x) % Uint32Modulus == 0
  {
    x % Uint32Modulus
  }
}
