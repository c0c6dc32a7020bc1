/**
 Ranges of BITCOUNT and BITPOS (bitops.c): negative indexes count from the end, and in BIT
 mode the first and the last byte are masked.
 */
module BitRange {
  import opened Bits

  /** A start index, made non-negative. */
  function FromEnd(i: int, total: nat): nat {
    var j := if i < 0 then total + i else i;
    if j < 0 then 0 else j
  }

  /** An end index, kept inside the string; -1 for the empty string. */
  function Clip(i: int, total: nat): (e: int)
    ensures -1 <= e < total
  {
    var j := FromEnd(i, total);
    if j >= total then total - 1 else j
  }

  // ----- masks

  /** The `k` bits of a byte before the first one of the range. */
  function FirstMask(k: nat): bv8
    requires k < 8
  {
    if k == 0 then 0x00 else if k == 1 then 0x80 else if k == 2 then 0xC0 else if k == 3 then 0xE0
    else if k == 4 then 0xF0 else if k == 5 then 0xF8 else if k == 6 then 0xFC else 0xFE
  }

  /** The bits of a byte after bit `k`, the last one of the range. */
  function LastMask(k: nat): bv8
    requires k < 8
  {
    if k == 0 then 0x7F else if k == 1 then 0x3F else if k == 2 then 0x1F else if k == 3 then 0x0F
    else if k == 4 then 0x07 else if k == 5 then 0x03 else if k == 6 then 0x01 else 0x00
  }

  /** The masks as they are computed, by shifting. */
  lemma MaskFormulas(k: nat)
    requires k < 8
    ensures FirstMask(k) as bv16 == !(((1 as bv16) << (8 - k)) - 1) & 0xFF
    ensures LastMask(k) as bv16 == ((1 as bv16) << (7 - k)) - 1
  {
    if k == 0 {} else if k == 1 {} else if k == 2 {} else if k == 3 {}
    else if k == 4 {} else if k == 5 {} else if k == 6 {} else { assert k == 7; }
  }

  lemma FirstMaskBit(k: nat, j: nat)
    requires k < 8 && j < 8
    ensures BitOf(FirstMask(k), j) <==> j < k
  {}

  lemma LastMaskBit(k: nat, j: nat)
    requires k < 8 && j < 8
    ensures BitOf(LastMask(k), j) <==> j > k
  {}

  function And(a: bv8, b: bv8): bv8 { a & b }

  function AndNot(a: bv8, b: bv8): bv8 { a & !b }

  function Or(a: bv8, b: bv8): bv8 { a | b }

  predicate Single(m: bv8) {
    m == 0x80 || m == 0x40 || m == 0x20 || m == 0x10 || m == 0x08 || m == 0x04 || m == 0x02 || m == 0x01
  }

  lemma MaskIsSingle(j: nat)
    requires j < 8
    ensures Single(Mask(j))
  {}

  lemma AndMask(a: bv8, b: bv8, m: bv8)
    requires Single(m)
    ensures And(a, b) & m != 0 <==> a & m != 0 && b & m != 0
  {}

  lemma OrMask(a: bv8, b: bv8, m: bv8)
    requires Single(m)
    ensures Or(a, b) & m != 0 <==> a & m != 0 || b & m != 0
  {}

  lemma AndNotMask(a: bv8, b: bv8, m: bv8)
    requires Single(m)
    ensures AndNot(a, b) & m != 0 <==> a & m != 0 && b & m == 0
  {}

  lemma AndBit(a: bv8, b: bv8, j: nat)
    requires j < 8
    ensures BitOf(And(a, b), j) <==> BitOf(a, j) && BitOf(b, j)
  {
    hide Mask, Single, And;
    MaskIsSingle(j);
    AndMask(a, b, Mask(j));
  }

  lemma OrBit(a: bv8, b: bv8, j: nat)
    requires j < 8
    ensures BitOf(Or(a, b), j) <==> BitOf(a, j) || BitOf(b, j)
  {
    hide Mask, Single, Or;
    MaskIsSingle(j);
    OrMask(a, b, Mask(j));
  }

  lemma AndNotBit(a: bv8, b: bv8, j: nat)
    requires j < 8
    ensures BitOf(AndNot(a, b), j) <==> BitOf(a, j) && !BitOf(b, j)
  {
    hide Mask, Single, AndNot;
    MaskIsSingle(j);
    AndNotMask(a, b, Mask(j));
  }
}
