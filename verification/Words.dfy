/** Machine words of 32 bits. */
module Words {
  const WORD := 0x1_0000_0000

  type UInt = u: int | 0 <= u < WORD
  type Int = i: int | -0x8000_0000 <= i < 0x8000_0000

  /** What is left of n in a 32-bit signed word. */
  function Wrap(n: int): (r: Int) {
    if n % WORD < 0x8000_0000 then n % WORD else n % WORD - WORD
  }
}
