/** Powers of two. */
module Powers {

  /** The number of values of a 64-bit word. */
  const TWO_64: nat := 0x1_0000_0000_0000_0000

  function Pow2(k: nat): (p: nat)
    ensures p >= 1
  {
    if k == 0 then 1 else 2 * Pow2(k - 1)
  }

  lemma {:induction false} Pow2Monotone(i: nat, j: nat)
    requires i <= j
    ensures Pow2(i) <= Pow2(j)
    decreases j - i
  {
    if i < j { Pow2Monotone(i + 1, j); }
  }

  lemma {:induction false} Pow2Add(i: nat, j: nat)
    ensures Pow2(i + j) == Pow2(i) * Pow2(j)
  {
    if i > 0 { Pow2Add(i - 1, j); }
  }

  lemma Pow2Limit()
    ensures Pow2(64) == TWO_64
  {
    hide Pow2;
    PowEight();
    Pow2Add(8, 8); Pow2Add(16, 16); Pow2Add(32, 32);
  }

  lemma PowEight()
    ensures Pow2(8) == 256
  {
    assert Pow2(4) == 16;
  }

  // ----- remainders

  lemma AtLeast(m: nat, d: int)
    ensures d >= 1 ==> m * d >= m
    ensures d <= -1 ==> m * d <= 0 - m
  {}

  lemma Unique(x: int, m: nat, q: int, r: int)
    requires 0 <= r < m && x == m * q + r
    ensures x % m == r
  {
    var q2, r2 := x / m, x % m;
    Distribute(m, q, q2);
    AtLeast(m, q - q2);
  }

  lemma Distribute(m: int, a: int, b: int)
    ensures m * (a - b) == m * a - m * b
  {}

  /** Multiples of the modulus do not matter. */
  lemma Multiple(x: int, m: nat, q: int)
    requires m > 0
    ensures (m * q + x) % m == x % m
  {
    var r, d := x % m, x / m;
    Distribute(m, d, -q);
    Unique(m * q + x, m, d + q, r);
  }
}
