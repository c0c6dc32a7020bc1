/**
 The bit-by-bit CRC-64 of crc64.c, which runs on the unreflected register and
 reflects it once at the end.
 */
module Crc64Reference {
  import opened Crc64

  /** Reversal of the 64 bits of a word, by swapping ever larger groups. */
  function Reflect(d: bv64): bv64 {
    var a := ((d >> 1) & 0x5555555555555555) | ((d & 0x5555555555555555) << 1);
    var b := ((a >> 2) & 0x3333333333333333) | ((a & 0x3333333333333333) << 2);
    var c := ((b >> 4) & 0x0F0F0F0F0F0F0F0F) | ((b & 0x0F0F0F0F0F0F0F0F) << 4);
    var e := ((c >> 8) & 0x00FF00FF00FF00FF) | ((c & 0x00FF00FF00FF00FF) << 8);
    var f := ((e >> 16) & 0x0000FFFF0000FFFF) | ((e & 0x0000FFFF0000FFFF) << 16);
    (f >> 32) | (f << 32)
  }

  predicate Top(c: bv64) { c & 0x8000000000000000 != 0 }

  function Shl(c: bv64): bv64 { c << 1 }

  lemma ReflectShiftWord(d: bv64)
    ensures Reflect(d << 1) == Reflect(d) >> 1
  {}

  lemma ReflectPolyWord(d: bv64)
    ensures Reflect(d ^ 0xad93d23594c935a9) == Reflect(d) ^ 0x95ac9329ac4bc9b5
  {}

  lemma ShiftNamed(d: bv64)
    ensures Shl(d) == d << 1 && Shr(d) == d >> 1
  {}

  lemma ReflectShift(d: bv64)
    ensures Reflect(Shl(d)) == Shr(Reflect(d))
  {
    hide Reflect, Shl, Shr;
    ShiftNamed(d); ShiftNamed(Reflect(d));
    ReflectShiftWord(d);
  }

  lemma ReflectPoly(d: bv64)
    ensures Reflect(Xor(d, POLY)) == Xor(Reflect(d), REVERSED_POLY)
  {
    hide Reflect, Xor;
    XorNamed(d, POLY); XorNamed(Reflect(d), REVERSED_POLY);
    ReflectPolyWord(d);
  }

  lemma ReflectTop(d: bv64)
    ensures Odd(Reflect(d)) <==> Top(d)
  {}

  /** Reflecting twice gives the word back. */
  lemma ReflectInvolutive(d: bv64)
    ensures Reflect(Reflect(d)) == d
  {}

  /** The bit of `b` that the k-th round of the inner loop feeds in. */
  function InBit(b: bv8, k: nat): (r: bool)
    requires k < 8
  {
    b & Mask(k) != 0
  }

  function Mask(k: nat): bv8
    requires k < 8
  {
    if k == 0 then 1 else if k == 1 then 2 else if k == 2 then 4 else if k == 3 then 8
    else if k == 4 then 16 else if k == 5 then 32 else if k == 6 then 64 else 128
  }

  /** One round of the source's inner loop on the unreflected register. */
  function Round(c: bv64, input: bool): bv64 {
    var bit := if input then !Top(c) else Top(c);
    if bit then Xor(Shl(c), POLY) else Shl(c)
  }

  function Bit(input: bool): bv64 { if input then 1 else 0 }

  lemma BitOne()
    ensures Odd(1) && Shr(1) == 0
  {}

  lemma StepOfBit(r: bv64, input: bool)
    ensures Step(Xor(r, Bit(input))) == if Odd(r) == input then Shr(r) else Xor(Shr(r), REVERSED_POLY)
  {
    hide Odd, Shr, Xor;
    BitOne();
    XorZero(r); XorZero(Shr(r));
    OddXor(r, 1); ShrXor(r, 1);
  }

  /** A round on the unreflected register is one `Step` on the reflected one. */
  lemma ReflectRound(c: bv64, input: bool)
    ensures Reflect(Round(c, input)) == Step(Xor(Reflect(c), Bit(input)))
  {
    hide Reflect, Step, Xor, Bit, Odd, Top, Shl, Shr;
    ReflectTop(c); ReflectShift(c); ReflectPoly(Shl(c));
    StepOfBit(Reflect(c), input);
  }

  /** The reflected register after the first `k` bits of `b`, least significant first. */
  function Feed(r: bv64, b: bv8, k: nat): bv64
    requires k <= 8
    decreases k
  {
    if k == 0 then r else Step(Xor(Feed(r, b, k - 1), Bit(InBit(b, k - 1))))
  }

  /** The value of the first `k` bits of `b`. */
  function Value(b: bv8, k: nat): bv64
    requires k <= 8
  {
    if k == 8 then Wide(b) else Wide(b & (Mask(k) - 1))
  }

  lemma ValueStep(b: bv8, k: nat)
    requires k < 8
    ensures Value(b, k + 1) == Xor(Value(b, k), if InBit(b, k) then Wide(Mask(k)) else 0)
  {}

  lemma ValueNone(b: bv8)
    ensures Value(b, 0) == 0
  {}

  lemma {:induction false} MaskSteps(k: nat)
    requires k < 8
    ensures Steps(Wide(Mask(k)), k) == 1
    decreases k
  {
    if k > 0 {
      assert Step(Wide(Mask(k))) == Wide(Mask(k - 1));
      MaskSteps(k - 1);
    }
  }

  lemma {:induction false} FeedIsSteps(r: bv64, b: bv8, k: nat)
    requires k <= 8
    ensures Feed(r, b, k) == Steps(Xor(r, Value(b, k)), k)
    decreases k
  {
    hide Step, Xor, Wide, InBit, Mask, Value;
    if k == 0 {
      ValueNone(b);
      XorZero(r);
    } else {
      var v, one := Value(b, k - 1), if InBit(b, k - 1) then Wide(Mask(k - 1)) else 0;
      FeedIsSteps(r, b, k - 1);
      ValueStep(b, k - 1);
      XorAssoc(r, v, one);
      MaskSteps(k - 1); StepsZero(k - 1);
      LastBit(Xor(r, v), one, k - 1);
    }
  }

  lemma LastBit(x: bv64, one: bv64, k: nat)
    ensures Steps(Xor(x, one), k + 1) == Step(Xor(Steps(x, k), Steps(one, k)))
  {
    hide Step, Xor;
    StepsAdd(Xor(x, one), k, 1);
    StepsLinear(x, one, k);
  }

  lemma FeedIsUpdate(r: bv64, b: bv8)
    ensures Feed(r, b, 8) == Update(r, b)
  {
    hide Feed, Steps, Xor, Wide;
    FeedIsSteps(r, b, 8);
  }

  lemma MaskFirst()
    ensures Mask(0) == 1
  {}

  lemma MaskShift(k: nat)
    requires k < 8
    ensures Mask(k) != 0
    ensures Mask(k) << 1 == if k < 7 then Mask(k + 1) else 0
  {}

  /** `_crc64`: from register value `crc` over `data`. */
  method BitByBit(crc: bv64, data: seq<bv8>) returns (r: bv64)
    ensures r == Crc(Reflect(crc), data)
  {
    hide Step, Xor, Reflect, Update;
    var c := crc;
    for offset := 0 to |data|
      invariant Reflect(c) == Crc(Reflect(crc), data[..offset])
    {
      ghost var start := Reflect(c);
      c := OneByte(c, data[offset]);
      assert data[..offset + 1][..offset] == data[..offset];
    }
    assert data[..|data|] == data;
    r := Reflect(c);
  }

  method OneByte(crc: bv64, b: bv8) returns (c: bv64)
    ensures Reflect(c) == Update(Reflect(crc), b)
  {
    hide Step, Xor, Reflect, Update, Steps, Round, Bit, Mask;
    c := crc;
    var i: bv8 := 1;
    ghost var k := 0;
    assert Mask(0) == 1 by { MaskFirst(); }
    while i != 0
      invariant 0 <= k <= 8
      invariant i == if k < 8 then Mask(k) else 0
      invariant Reflect(c) == Feed(Reflect(crc), b, k)
      decreases 8 - k
    {
      ReflectRound(c, InBit(b, k));
      MaskShift(k);
      c := Round(c, b & i != 0);
      i := i << 1;
      k := k + 1;
    }
    if k < 8 { MaskShift(k); }
    FeedIsUpdate(Reflect(crc), b);
  }

  lemma ReflectZero()
    ensures Reflect(0) == 0
  {}

  /**
   The reference started from `c` and the table code started from `c` agree on a
   buffer exactly when `c` is its own reflection, as 0 is.
   */
  lemma SameStart(c: bv64, data: seq<bv8>)
    ensures Crc(Reflect(c), data) == Crc(c, data) <==> Reflect(c) == c
    ensures Crc(Reflect(0), data) == Crc(0, data)
  {
    hide Crc, Reflect;
    ReflectZero();
    if Crc(Reflect(c), data) == Crc(c, data) { CrcInjective(Reflect(c), c, data); }
  }
}
