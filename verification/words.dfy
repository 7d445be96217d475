/** Unsigned 64-bit machine words (uint64_t / addr_t) and their wrapping
    addition. */
module Words {
  const WORD_MODULUS: int := 0x1_0000_0000_0000_0000

  type U64 = x: int | 0 <= x < WORD_MODULUS

  /** `a + b` computed in uint64_t arithmetic, i.e. modulo 2^64. */
  function Add(a: U64, b: nat): (r: U64)
    ensures a + b < WORD_MODULUS ==> r == a + b
  {
    (a + b) % WORD_MODULUS
  }
}
