/** 64-bit unsigned words, as naturals. */
module Words {
  const TWO64: nat := 0x1_0000_0000_0000_0000

  type U64 = n: nat | n < TWO64
}
