/** Machine words, configured decimal texts, and order facts about exact rationals (reals here). */
module Numbers {
  /** One past the largest uint64. */
  const WORD: nat := 0x1_0000_0000_0000_0000

  type Word = n: nat | n < WORD

  function Wrap(n: nat): Word { n % WORD }

  function Pow10(n: nat): (p: nat)
    ensures p > 0
  {
    if n == 0 then 1 else 10 * Pow10(n - 1)
  }

  /** A configured decimal string: either text big.Rat cannot read, or the number it denotes. */
  datatype Decimal = Malformed | Number(value: real)

  predicate NonNegative(d: Decimal) {
    d.Number? && d.value >= 0.0
  }

  predicate Positive(d: Decimal) {
    d.Number? && d.value > 0.0
  }

  function Ceil(x: real): int { -(-x).Floor }

  lemma TimesIsMonotone(c: real, r: real, s: real)
    requires 0.0 <= c && r <= s
    ensures c * r <= c * s && r * c <= s * c
  {
    assert 0.0 <= c * (s - r);
  }

  lemma FloorIsMonotone(x: real, y: real)
    requires x <= y
    ensures x.Floor <= y.Floor
  {
  }
}
