/** Machine integers of the original: 8-bit words with wrapping addition, and the widths of the others. */
module Words {
  type U8 = x: int | 0 <= x < 0x100

  const U16_LIMIT := 0x1_0000
  const U32_LIMIT := 0x1_0000_0000

  /** `u8::wrapping_add`. */
  function WrappingAdd(a: U8, b: U8): U8 {
    if a + b < 256 then a + b else a + b - 256
  }

  /** How far `id` lies ahead of `cur` on the circle of 256 ids. */
  function Ahead(id: U8, cur: U8): U8 {
    if cur <= id then id - cur else id - cur + 256
  }

  /** The 8-bit block id that stands for an unbounded block number. */
  function IdOf(n: int): U8 {
    n % 256
  }

  lemma AheadInverse(id: U8, cur: U8, i: U8)
    ensures WrappingAdd(cur, Ahead(id, cur)) == id
    ensures Ahead(WrappingAdd(cur, i), cur) == i
  {
  }

  /** Counting on from a number moves its id along the circle. */
  lemma IdOfShift(k: int, i: U8)
    ensures IdOf(k + i) == WrappingAdd(IdOf(k), i)
    ensures 0 <= k < 256 ==> IdOf(k) == k
  {
  }

  /** The distance of two ids is the distance of the numbers, full turns left out. */
  lemma AheadOfNumbers(n: int, k: int)
    ensures Ahead(IdOf(n), IdOf(k)) == (n - k) % 256
  {
  }
}
