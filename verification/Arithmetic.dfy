/** The little integer arithmetic the models need, each fact on its own. */
module Arithmetic {
  type Byte = x: int | 0 <= x < 256

  const U32_LIMIT: nat := 0x1_0000_0000
  const U64_LIMIT: nat := 0x1_0000_0000_0000_0000

  function Min(a: int, b: int): int {
    if a <= b then a else b
  }

  function Max(a: int, b: int): int {
    if a >= b then a else b
  }

  lemma ProductIsMonotone(a: int, b: int, k: nat)
    requires a <= b
    ensures a * k <= b * k
  {
    assert b * k == a * k + (b - a) * k;
  }

  lemma MultiplesAreApart(a: int, b: int, n: nat)
    requires a < b
    ensures a * n + n <= b * n
  {
    var d := b - a - 1;
    assert b * n == a * n + n + d * n;
  }

  /** A quotient and remainder are known by their defining equation. */
  lemma QuotientOf(x: nat, size: nat, q: nat, r: nat)
    requires size > 0 && r < size && x == q * size + r
    ensures x / size == q && x % size == r
  {
    var p, t := x / size, x % size;
    assert x == p * size + t;
    if p < q {
      MultiplesAreApart(p, q, size);
    } else if q < p {
      MultiplesAreApart(q, p, size);
    }
  }

  /** `q` is the quotient when `x` lies between `q` and `q + 1` multiples. */
  lemma QuotientBetween(x: nat, size: nat, q: nat)
    requires size > 0 && q * size <= x < q * size + size
    ensures x / size == q
  {
    QuotientOf(x, size, q, x - q * size);
  }

  lemma QuotientBounds(x: nat, size: nat)
    requires size > 0
    ensures (x / size) * size <= x < (x / size) * size + size
  {
  }

  lemma QuotientIsMonotone(x: nat, y: nat, size: nat)
    requires size > 0 && x <= y
    ensures x / size <= y / size
  {
    if y / size < x / size {
      QuotientBounds(x, size);
      QuotientBounds(y, size);
      MultiplesAreApart(y / size, x / size, size);
    }
  }
}
