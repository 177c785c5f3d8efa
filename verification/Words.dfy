/** The machine's bytes and words, shared by the models. */
module Words {

  type byte = bv8

  /** How many values a 32-bit word has. */
  const WORD: int := 0x1_0000_0000

  type u32 = x: int | 0 <= x < 0x1_0000_0000
}
