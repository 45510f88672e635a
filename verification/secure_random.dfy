/**
 * The bounded random draw. The engine asks the platform's secure generator
 * for one unsigned 32-bit value and reduces it modulo the bound. Here the
 * generator's values are an input: a sequence of words the engine consumes
 * front to back.
 */
module SecureRandom {

  /** Number of distinct values a `Uint32Array` cell can hold. */
  const WordCount: nat := 0x1_0000_0000

  /** One value produced by the secure generator. */
  type Word = x: int | 0 <= x < 0x1_0000_0000

  /** The draw reduced to `[0, max)`. Both operands are non-negative, so the
      source's `%` and Dafny's agree. */
  function Below(r: Word, max: int): (n: nat)
    requires max >= 1
    ensures n < max
    ensures r < max ==> n == r
  {
    r % max
  }

  /** Every value of the range is produced by some draw, for every bound a
      32-bit word can reach. */
  lemma BelowIsOnto(max: int, v: nat)
    requires 1 <= max <= WordCount && v < max
    ensures exists r: Word :: Below(r, max) == v
  {
    var r: Word := v;
    assert Below(r, max) == v;
  }
}
