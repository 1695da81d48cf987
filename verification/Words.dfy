/** 32-bit unsigned words: tick counts, sizes and item values. */
module Words {
  const WRAP := 0x1_0000_0000

  function Plus(a: int, b: int): (r: int)
    requires 0 <= a < WRAP && 0 <= b < WRAP
    ensures 0 <= r < WRAP
  {
    if a + b < WRAP then a + b else a + b - WRAP
  }

  function Minus(a: int, b: int): (r: int)
    requires 0 <= a < WRAP && 0 <= b < WRAP
    ensures 0 <= r < WRAP
  {
    if a >= b then a - b else a - b + WRAP
  }

  /** They are addition and subtraction modulo 2^32. */
  lemma Modular(a: int, b: int)
    requires 0 <= a < WRAP && 0 <= b < WRAP
    ensures Plus(a, b) == (a + b) % WRAP && Minus(a, b) == (a - b) % WRAP
  {
  }
}
