/**
 Strings as arrays of bits: bit 0 is the most significant bit of the first byte, and to the
 right of the string there are only zeroes.
 */
module Bits {

  /** The bit at place `j` of a byte, counted from the most significant one. */
  function Mask(j: nat): bv8
    requires j < 8
  {
    if j == 0 then 0x80 else if j == 1 then 0x40 else if j == 2 then 0x20 else if j == 3 then 0x10
    else if j == 4 then 0x08 else if j == 5 then 0x04 else if j == 6 then 0x02 else 0x01
  }

  predicate BitOf(b: bv8, j: nat) requires j < 8 { b & Mask(j) != 0 }

  predicate Bit(s: seq<bv8>, i: nat) { i / 8 < |s| && BitOf(s[i / 8], i % 8) }

  lemma BitInByte(s: seq<bv8>, k: nat, j: nat)
    requires j < 8
    ensures (8 * k + j) / 8 == k && (8 * k + j) % 8 == j
    ensures Bit(s, 8 * k + j) == (k < |s| && BitOf(s[k], j))
  {}

  lemma AtByte(s: seq<bv8>, k: nat, j: nat)
    requires k < |s| && j < 8
    ensures Bit(s, 8 * k + j) == BitOf(s[k], j)
  {
    BitInByte(s, k, j);
  }

  lemma BitShift(s: seq<bv8>, k: nat, i: nat)
    requires k <= |s|
    ensures Bit(s[k..], i) == Bit(s, 8 * k + i)
  {
    assert (8 * k + i) / 8 == k + i / 8 && (8 * k + i) % 8 == i % 8;
  }

  lemma BitTake(s: seq<bv8>, k: nat, i: nat)
    requires k <= |s| && i < 8 * k
    ensures Bit(s[..k], i) == Bit(s, i)
  {}

  // ----- counting

  function One(b: bool): nat { if b then 1 else 0 }

  /** Set bits at the places `a..b`. */
  function Ones(s: seq<bv8>, a: nat, b: nat): nat
    decreases b - a
  {
    if a >= b then 0 else One(Bit(s, a)) + Ones(s, a + 1, b)
  }

  lemma {:induction false} OnesSplit(s: seq<bv8>, a: nat, m: nat, b: nat)
    requires a <= m <= b
    ensures Ones(s, a, b) == Ones(s, a, m) + Ones(s, m, b)
    decreases m - a
  {
    hide Bit;
    if a < m { OnesSplit(s, a + 1, m, b); }
  }

  lemma {:induction false} OnesSame(s: seq<bv8>, t: seq<bv8>, a: nat, b: nat, c: nat)
    requires forall i :: a <= i < b ==> Bit(s, i) == Bit(t, c + i - a)
    ensures Ones(s, a, b) == Ones(t, c, if a <= b then c + b - a else c)
    decreases b - a
  {
    hide Bit;
    if a < b {
      assert Bit(s, a) == Bit(t, c);
      OnesSame(s, t, a + 1, b, c + 1);
    }
  }

  /** Set bits of a byte. */
  function ByteOnes(b: bv8): nat {
    One(BitOf(b, 0)) + One(BitOf(b, 1)) + One(BitOf(b, 2)) + One(BitOf(b, 3))
    + One(BitOf(b, 4)) + One(BitOf(b, 5)) + One(BitOf(b, 6)) + One(BitOf(b, 7))
  }

  /** Set bits of a string. */
  function Weight(s: seq<bv8>): nat {
    if s == [] then 0 else ByteOnes(s[0]) + Weight(s[1..])
  }

  lemma {:induction false} WeightConcat(s: seq<bv8>, t: seq<bv8>)
    ensures Weight(s + t) == Weight(s) + Weight(t)
    decreases |s|
  {
    hide ByteOnes;
    if s == [] {
      assert s + t == t;
    } else {
      assert (s + t)[1..] == s[1..] + t;
      WeightConcat(s[1..], t);
    }
  }

  lemma OnesOfByte(s: seq<bv8>, k: nat)
    requires k < |s|
    ensures Ones(s, 8 * k, 8 * k + 8) == ByteOnes(s[k])
  {
    hide *;
    BytesBits(s, k, 8 * k);
    OnesEight(s, 8 * k, s[k]);
  }

  lemma OnesEight(s: seq<bv8>, n: nat, b: bv8)
    requires One(Bit(s, n)) == One(BitOf(b, 0)) && One(Bit(s, n + 1)) == One(BitOf(b, 1))
    requires One(Bit(s, n + 2)) == One(BitOf(b, 2)) && One(Bit(s, n + 3)) == One(BitOf(b, 3))
    requires One(Bit(s, n + 4)) == One(BitOf(b, 4)) && One(Bit(s, n + 4 + 1)) == One(BitOf(b, 5))
    requires One(Bit(s, n + 4 + 2)) == One(BitOf(b, 6)) && One(Bit(s, n + 4 + 3)) == One(BitOf(b, 7))
    ensures Ones(s, n, n + 8) == ByteOnes(b)
  {
    hide *;
    OnesFour(s, n);
    OnesFour(s, n + 4);
    OnesSplit(s, n, n + 4, n + 8);
    ByteOnesIs(b);
  }

  lemma ByteOnesIs(b: bv8)
    ensures ByteOnes(b) == (One(BitOf(b, 0)) + One(BitOf(b, 1)) + One(BitOf(b, 2)) + One(BitOf(b, 3)))
      + (One(BitOf(b, 4)) + One(BitOf(b, 5)) + One(BitOf(b, 6)) + One(BitOf(b, 7)))
  {
    hide One, BitOf;
  }

  lemma OneAtByte(s: seq<bv8>, k: nat, j: nat)
    requires k < |s| && j < 8
    ensures One(Bit(s, 8 * k + j)) == One(BitOf(s[k], j))
  {
    AtByte(s, k, j);
  }

  lemma BytesBits(s: seq<bv8>, k: nat, n: nat)
    requires k < |s| && n == 8 * k
    ensures One(Bit(s, n)) == One(BitOf(s[k], 0)) && One(Bit(s, n + 1)) == One(BitOf(s[k], 1))
    ensures One(Bit(s, n + 2)) == One(BitOf(s[k], 2)) && One(Bit(s, n + 3)) == One(BitOf(s[k], 3))
    ensures One(Bit(s, n + 4)) == One(BitOf(s[k], 4)) && One(Bit(s, n + 4 + 1)) == One(BitOf(s[k], 5))
    ensures One(Bit(s, n + 4 + 2)) == One(BitOf(s[k], 6)) && One(Bit(s, n + 4 + 3)) == One(BitOf(s[k], 7))
  {
    hide *;
    OneAtByte(s, k, 0); OneAtByte(s, k, 1); OneAtByte(s, k, 2); OneAtByte(s, k, 3);
    OneAtByte(s, k, 4); OneAtByte(s, k, 5); OneAtByte(s, k, 6); OneAtByte(s, k, 7);
  }

  lemma OnesFour(s: seq<bv8>, n: nat)
    ensures Ones(s, n, n + 4) == One(Bit(s, n)) + One(Bit(s, n + 1)) + One(Bit(s, n + 2)) + One(Bit(s, n + 3))
  {
    hide *;
    OnesNone(s, n + 4);
    OnesStep(s, n, n + 4); OnesStep(s, n + 1, n + 4); OnesStep(s, n + 2, n + 4); OnesStep(s, n + 3, n + 4);
  }

  lemma OnesNone(s: seq<bv8>, a: nat)
    ensures Ones(s, a, a) == 0
  {}

  lemma OnesStep(s: seq<bv8>, a: nat, b: nat)
    requires a < b
    ensures Ones(s, a, b) == One(Bit(s, a)) + Ones(s, a + 1, b)
  {}

  /** The weight of a stretch of bytes is the number of set bits in it. */
  lemma {:induction false} WeightIsOnes(s: seq<bv8>, a: nat, b: nat)
    requires a <= b <= |s|
    ensures Weight(s[a..b]) == Ones(s, 8 * a, 8 * b)
    decreases b - a
  {
    hide ByteOnes, Bit;
    if a < b {
      WeightIsOnes(s, a + 1, b);
      assert s[a..b][1..] == s[a + 1..b];
      OnesOfByte(s, a);
      OnesSplit(s, 8 * a, 8 * a + 8, 8 * b);
    }
  }
}
