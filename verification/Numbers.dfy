/** Go's machine integers as bounded numbers, and the lesser and the greater of two numbers. */
module Numbers {

  const U64_LIMIT: nat := 0x1_0000_0000_0000_0000

  type byte = b: int | 0 <= b < 256

  type U64 = x: nat | x < 0x1_0000_0000_0000_0000

  type U32 = x: nat | x < 0x1_0000_0000

  function Min(a: int, b: int): int { if a < b then a else b }

  function Max(a: int, b: int): int { if a > b then a else b }
}
