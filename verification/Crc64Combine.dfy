/**
 crccombine.c: appending zero bytes to a CRC by GF(2) matrix powers.

 Row n of a matrix is the image of the n-th unit vector. Layer k of the cache is
 the operator "append 2^k zero bytes", that is `Steps(_, 8 * 2^k)`.
 */
module Crc64Combine {
  import opened Crc64
  import opened Powers

  // ----- unit vectors, four at a time

  /** `x` moved up by `i` nibbles. */
  function Up4(x: bv64, i: nat): bv64
    decreases i
  {
    if i == 0 then x else Up4(Nibble(x), i - 1)
  }

  function Nibble(x: bv64): bv64 { x << 4 }

  function DropNibble(x: bv64): bv64 { x >> 4 }

  function Nib(x: bv64): bv64 { x & 15 }

  /** Bound on what is left of a 64-bit word after `i` nibbles were dropped. */
  function Left(i: nat): bv64
    decreases i
  {
    if i == 0 then 0xffff_ffff_ffff_ffff else DropNibble(Left(i - 1))
  }

  /** At most `16 - i` nibbles of `v` are in use. */
  predicate Fits(v: bv64, i: nat) { AtMost(v, Left(i)) }

  predicate AtMost(a: bv64, b: bv64) { a <= b }

  /** The n-th unit vector. */
  function Unit(n: nat): bv64 {
    Up4(if n % 4 == 0 then 1 else if n % 4 == 1 then 2 else if n % 4 == 2 then 4 else 8, n / 4)
  }

  lemma NibbleXor(a: bv64, b: bv64)
    ensures Nibble(Xor(a, b)) == Xor(Nibble(a), Nibble(b))
  {}

  lemma {:induction false} Up4Xor(a: bv64, b: bv64, i: nat)
    ensures Up4(Xor(a, b), i) == Xor(Up4(a, i), Up4(b, i))
    decreases i
  {
    hide Xor, Nibble;
    if i > 0 {
      NibbleXor(a, b);
      Up4Xor(Nibble(a), Nibble(b), i - 1);
    }
  }

  lemma {:induction false} Up4Zero(i: nat)
    ensures Up4(0, i) == 0
  {
    if i > 0 { Up4Zero(i - 1); }
  }

  lemma SplitNibble(v: bv64)
    ensures Xor(Nib(v), Nibble(DropNibble(v))) == v
  {}

  lemma Left16()
    ensures Left(16) == 0
  {
    assert Left(4) == 0xffff_ffff_ffff;
    assert Left(8) == 0xffff_ffff;
    assert Left(12) == 0xffff;
  }

  lemma DropBounded(v: bv64, m: bv64)
    requires AtMost(v, m)
    ensures AtMost(DropNibble(v), DropNibble(m))
  {}

  lemma FitsStart(v: bv64)
    ensures Fits(v, 0)
  {}

  lemma FitsStep(v: bv64, i: nat)
    requires Fits(v, i)
    ensures Fits(DropNibble(v), i + 1)
  {
    hide DropNibble, AtMost;
    DropBounded(v, Left(i));
  }

  lemma FitsEnd(v: bv64)
    requires Fits(v, 16)
    ensures v == 0
  {
    Left16();
  }

  /** The part of one nibble that bit `m` stands for. */
  function Pick(nibble: bv64, m: bv64): bv64 { nibble & m }

  lemma FourBits(v: bv64)
    requires v <= 15
    ensures v == Xor(Xor(Xor(Pick(v, 1), Pick(v, 2)), Pick(v, 4)), Pick(v, 8))
    ensures Pick(v, 1) == 0 || Pick(v, 1) == 1
    ensures Pick(v, 2) == 0 || Pick(v, 2) == 2
    ensures Pick(v, 4) == 0 || Pick(v, 4) == 4
    ensures Pick(v, 8) == 0 || Pick(v, 8) == 8
  {}

  /** The 16-way switch: the rows chosen by the low nibble of the vector. */
  function Selected(v: bv64, m0: bv64, m1: bv64, m2: bv64, m3: bv64): bv64 {
    if v == 15 then Xor(Xor(Xor(m0, m1), m2), m3)
    else if v == 14 then Xor(Xor(m1, m2), m3)
    else if v == 13 then Xor(Xor(m0, m2), m3)
    else if v == 12 then Xor(m2, m3)
    else if v == 11 then Xor(Xor(m0, m1), m3)
    else if v == 10 then Xor(m1, m3)
    else if v == 9 then Xor(m0, m3)
    else if v == 8 then m3
    else if v == 7 then Xor(Xor(m0, m1), m2)
    else if v == 6 then Xor(m1, m2)
    else if v == 5 then Xor(m0, m2)
    else if v == 4 then m2
    else if v == 3 then Xor(m0, m1)
    else if v == 2 then m1
    else if v == 1 then m0
    else 0
  }

  function IfSet(p: bv64, m: bv64): bv64 { if p == 0 then 0 else m }

  lemma SelectedByBitsLow(v: bv64, m0: bv64, m1: bv64, m2: bv64, m3: bv64)
    requires v <= 7
    ensures Selected(v, m0, m1, m2, m3)
         == Xor(Xor(IfSet(Pick(v, 1), m0), IfSet(Pick(v, 2), m1)), IfSet(Pick(v, 4), m2))
    ensures Selected(v + 8, m0, m1, m2, m3)
         == Xor(Selected(v, m0, m1, m2, m3), m3)
  {
    hide Xor;
    XorZero(0); XorZero(m0); XorZero(m1); XorZero(m2); XorZero(m3);
    XorZero(Xor(m0, m1));
  }

  lemma PickHigh(v: bv64)
    requires v <= 7
    ensures Pick(v, 8) == 0
    ensures Pick(v + 8, 8) != 0 && Pick(v + 8, 1) == Pick(v, 1)
    ensures Pick(v + 8, 2) == Pick(v, 2) && Pick(v + 8, 4) == Pick(v, 4)
  {}

  lemma SelectedByBits(v: bv64, m0: bv64, m1: bv64, m2: bv64, m3: bv64)
    requires v <= 15
    ensures Selected(v, m0, m1, m2, m3)
         == Xor(Xor(Xor(IfSet(Pick(v, 1), m0), IfSet(Pick(v, 2), m1)), IfSet(Pick(v, 4), m2)), IfSet(Pick(v, 8), m3))
  {
    hide Xor, Selected, Pick;
    if v <= 7 {
      SelectedByBitsLow(v, m0, m1, m2, m3);
      PickHigh(v);
      XorZero(Selected(v, m0, m1, m2, m3));
    } else {
      var u := v - 8;
      assert u <= 7 && v == u + 8;
      SelectedByBitsLow(u, m0, m1, m2, m3);
      PickHigh(u);
    }
  }

  lemma ImageOfBit(p: bv64, m: bv64, i: nat, n: nat)
    requires p == 0 || p == m
    ensures Steps(Up4(p, i), n) == IfSet(p, Steps(Up4(m, i), n))
  {
    hide Step;
    Up4Zero(i); StepsZero(n);
  }

  /** The operator's image of one nibble is the xor of the rows the nibble selects. */
  lemma NibbleImage(v: bv64, i: nat, n: nat)
    requires v <= 15
    ensures Steps(Up4(v, i), n)
         == Selected(v, Steps(Up4(1, i), n), Steps(Up4(2, i), n), Steps(Up4(4, i), n), Steps(Up4(8, i), n))
  {
    hide *;
    var a, b, c, d := Pick(v, 1), Pick(v, 2), Pick(v, 4), Pick(v, 8);
    FourBits(v);
    Up4Xor(Xor(Xor(a, b), c), d, i); Up4Xor(Xor(a, b), c, i); Up4Xor(a, b, i);
    StepsLinear(Xor(Xor(Up4(a, i), Up4(b, i)), Up4(c, i)), Up4(d, i), n);
    StepsLinear(Xor(Up4(a, i), Up4(b, i)), Up4(c, i), n);
    StepsLinear(Up4(a, i), Up4(b, i), n);
    ImageOfBit(a, 1, i, n); ImageOfBit(b, 2, i, n); ImageOfBit(c, 4, i, n); ImageOfBit(d, 8, i, n);
    SelectedByBits(v, Steps(Up4(1, i), n), Steps(Up4(2, i), n), Steps(Up4(4, i), n), Steps(Up4(8, i), n));
  }

  /** Splitting off the low nibble of what is left of the vector. */
  lemma PeelNibble(v: bv64, i: nat, n: nat)
    ensures Steps(Up4(v, i), n) == Xor(Steps(Up4(Nib(v), i), n), Steps(Up4(DropNibble(v), i + 1), n))
  {
    hide Xor, Step, Steps, DropNibble;
    SplitNibble(v);
    Up4Xor(Nib(v), Nibble(DropNibble(v)), i);
    StepsLinear(Up4(Nib(v), i), Up4(DropNibble(v), i + 1), n);
  }

  // ----- matrices

  /** Row `layer` of the cache holds the operator "append n zero bits". */
  ghost predicate Operator(cache: array2<bv64>, layer: nat, n: nat)
    requires cache.Length0 == 64 && cache.Length1 == 64 && layer < 64
    reads cache
  {
    forall j :: 0 <= j < 64 ==> cache[layer, j] == Steps(Unit(j), n)
  }

  lemma UnitRows(i: nat)
    requires i < 16
    ensures Unit(4 * i) == Up4(1, i) && Unit(4 * i + 1) == Up4(2, i)
    ensures Unit(4 * i + 2) == Up4(4, i) && Unit(4 * i + 3) == Up4(8, i)
  {
    hide Up4;
    RowIndex(i);
  }

  lemma RowIndex(i: nat)
    ensures (4 * i) % 4 == 0 && (4 * i + 1) % 4 == 1 && (4 * i + 2) % 4 == 2 && (4 * i + 3) % 4 == 3
    ensures (4 * i) / 4 == i && (4 * i + 1) / 4 == i && (4 * i + 2) / 4 == i && (4 * i + 3) / 4 == i
  {}

  /** `gf2_matrix_times_switch` on one layer. */
  method Times(cache: array2<bv64>, layer: nat, vec: bv64, ghost n: nat) returns (sum: bv64)
    requires cache.Length0 == 64 && cache.Length1 == 64 && layer < 64
    requires Operator(cache, layer, n)
    ensures sum == Steps(vec, n)
  {
    hide Xor, Step, Steps, Selected, Up4, Nib, DropNibble, Fits, Unit;
    var v := vec;
    sum := 0;
    var i := 0;
    FitsStart(vec);
    TimesStart(vec, n);
    while v != 0
      invariant 0 <= i <= 16 && Fits(v, i)
      invariant Xor(sum, Steps(Up4(v, i), n)) == Steps(vec, n)
      decreases 16 - i
    {
      if i == 16 { FitsEnd(v); assert false; }
      UnitRows(i);
      TimesStep(sum, v, i, n);
      FitsStep(v, i);
      sum := Xor(sum, Selected(Nib(v), cache[layer, 4 * i], cache[layer, 4 * i + 1],
                                       cache[layer, 4 * i + 2], cache[layer, 4 * i + 3]));
      v := DropNibble(v);
      i := i + 1;
    }
    TimesEnd(sum, i, n);
  }

  lemma LowNibble(v: bv64)
    ensures Nib(v) <= 15
  {}

  lemma TimesStart(vec: bv64, n: nat)
    ensures Xor(0, Steps(Up4(vec, 0), n)) == Steps(vec, n)
  {
    hide Steps, Xor;
    XorZero(Steps(vec, n));
  }

  lemma TimesStep(sum: bv64, v: bv64, i: nat, n: nat)
    ensures Xor(Xor(sum, Selected(Nib(v), Steps(Up4(1, i), n), Steps(Up4(2, i), n), Steps(Up4(4, i), n),
      Steps(Up4(8, i), n))),
                Steps(Up4(DropNibble(v), i + 1), n))
         == Xor(sum, Steps(Up4(v, i), n))
  {
    hide *;
    LowNibble(v);
    NibbleImage(Nib(v), i, n);
    PeelNibble(v, i, n);
    XorAssoc(sum, Steps(Up4(Nib(v), i), n), Steps(Up4(DropNibble(v), i + 1), n));
  }

  lemma TimesEnd(sum: bv64, i: nat, n: nat)
    ensures Xor(sum, Steps(Up4(0, i), n)) == sum
  {
    hide Xor, Step, Steps;
    Up4Zero(i); StepsZero(n); XorZero(sum);
  }

  // ----- the one-bit operator

  function Twice(x: bv64): bv64 { x << 1 }

  lemma {:induction false} Up4Twice(x: bv64, i: nat)
    ensures Up4(Twice(x), i) == Twice(Up4(x, i))
    decreases i
  {
    hide Twice, Nibble;
    if i > 0 {
      TwiceNibble(x);
      Up4Twice(Nibble(x), i - 1);
    }
  }

  lemma TwiceNibble(x: bv64)
    ensures Nibble(Twice(x)) == Twice(Nibble(x))
  {
    hide Nibble, Twice;
    TwiceNamed(x); NibbleNamed(x);
    TwiceAfterNibble(x); NibbleAfterTwice(x);
  }

  lemma TwiceAfterNibble(x: bv64)
    ensures Twice(x << 4) == x << 5
  {}

  lemma NibbleAfterTwice(x: bv64)
    ensures Nibble(x << 1) == x << 5
  {}

  lemma TwiceNamed(x: bv64)
    ensures Twice(x) == x << 1
  {}

  lemma NibbleNamed(x: bv64)
    ensures Nibble(x) == x << 4
  {}

  lemma TwiceSmall()
    ensures Twice(1) == 2 && Twice(2) == 4 && Twice(4) == 8 && Twice(8) == Nibble(1)
  {}

  lemma {:induction false} Up4Succ(x: bv64, i: nat)
    ensures Up4(x, i + 1) == Nibble(Up4(x, i))
    decreases i
  {
    hide Nibble;
    if i > 0 { Up4Succ(Nibble(x), i - 1); }
  }

  /** Doubling a unit vector below the top one gives the next. */
  lemma UnitTwice(n: nat)
    ensures Unit(n + 1) == Twice(Unit(n))
  {
    hide Up4, Twice, Nibble;
    TwiceSmall();
    var i := n / 4;
    Up4Twice(1, i); Up4Twice(2, i); Up4Twice(4, i); Up4Twice(8, i);
    Up4Of16(i);
  }

  lemma Up4Of16(i: nat)
    ensures Up4(Nibble(1), i) == Up4(1, i + 1)
  {}

  predicate TopClear(x: bv64) { x & 0x8000_0000_0000_0000 == 0 }

  lemma LeadingUnits()
    ensures Up4(1, 0) == 0x1
    ensures Up4(1, 1) == 0x10
    ensures Up4(1, 2) == 0x100
    ensures Up4(1, 3) == 0x1000
    ensures Up4(1, 4) == 0x10000
    ensures Up4(1, 5) == 0x100000
    ensures Up4(1, 6) == 0x1000000
    ensures Up4(1, 7) == 0x10000000
    ensures Up4(1, 8) == 0x100000000
    ensures Up4(1, 9) == 0x1000000000
    ensures Up4(1, 10) == 0x10000000000
    ensures Up4(1, 11) == 0x100000000000
    ensures Up4(1, 12) == 0x1000000000000
    ensures Up4(1, 13) == 0x10000000000000
    ensures Up4(1, 14) == 0x100000000000000
    ensures Up4(1, 15) == 0x1000000000000000
  {
    hide Up4;
    Up4None(1);
    Up4Succ(1, 0); ShiftNibble(0x1, 0x10);
    Up4Succ(1, 1); ShiftNibble(0x10, 0x100);
    Up4Succ(1, 2); ShiftNibble(0x100, 0x1000);
    Up4Succ(1, 3); ShiftNibble(0x1000, 0x10000);
    Up4Succ(1, 4); ShiftNibble(0x10000, 0x100000);
    Up4Succ(1, 5); ShiftNibble(0x100000, 0x1000000);
    Up4Succ(1, 6); ShiftNibble(0x1000000, 0x10000000);
    Up4Succ(1, 7); ShiftNibble(0x10000000, 0x100000000);
    Up4Succ(1, 8); ShiftNibble(0x100000000, 0x1000000000);
    Up4Succ(1, 9); ShiftNibble(0x1000000000, 0x10000000000);
    Up4Succ(1, 10); ShiftNibble(0x10000000000, 0x100000000000);
    Up4Succ(1, 11); ShiftNibble(0x100000000000, 0x1000000000000);
    Up4Succ(1, 12); ShiftNibble(0x1000000000000, 0x10000000000000);
    Up4Succ(1, 13); ShiftNibble(0x10000000000000, 0x100000000000000);
    Up4Succ(1, 14); ShiftNibble(0x100000000000000, 0x1000000000000000);
  }

  lemma Up4None(x: bv64)
    ensures Up4(x, 0) == x
  {}

  lemma ShiftNibble(x: bv64, y: bv64)
    requires y == x << 4
    ensures Nibble(x) == y
  {}

  lemma LeadingUnitBound(i: nat)
    requires i < 16
    ensures Up4(1, i) <= 0x1000_0000_0000_0000
    ensures i < 15 ==> Up4(1, i) <= 0x0100_0000_0000_0000
  {
    hide Up4;
    LeadingUnits();
  }

  lemma ClearByBound(y: bv64)
    requires y <= 0x1000_0000_0000_0000
    ensures TopClear(y) && TopClear(Twice(y)) && TopClear(Twice(Twice(y)))
    ensures y <= 0x0100_0000_0000_0000 ==> TopClear(Twice(Twice(Twice(y))))
  {}

  lemma UnitTopClear(n: nat)
    requires n < 63
    ensures TopClear(Unit(n))
  {
    hide Up4, Twice, TopClear;
    var i := n / 4;
    TwiceSmall();
    Up4Twice(1, i); Up4Twice(2, i); Up4Twice(4, i);
    LeadingUnitBound(i);
    ClearByBound(Up4(1, i));
  }

  lemma StepOfTwice(x: bv64)
    requires TopClear(x)
    ensures Step(Twice(x)) == x
  {}

  lemma StepOfOne()
    ensures Step(1) == REVERSED_POLY
  {}

  /** The rows written by `init_combine_cache` before any squaring. */
  lemma OneBitRows(n: nat)
    requires n < 64
    ensures Steps(Unit(n), 1) == if n == 0 then REVERSED_POLY else Unit(n - 1)
  {
    hide Step, Unit, Twice, TopClear;
    assert Steps(Unit(n), 1) == Step(Unit(n));
    if n == 0 {
      UnitZero();
      StepOfOne();
    } else {
      UnitTwice(n - 1);
      UnitTopClear(n - 1);
      StepOfTwice(Unit(n - 1));
    }
  }

  lemma UnitZero()
    ensures Unit(0) == 1
  {}

  // ----- the cache

  class CombineCache {
    const layers: array2<bv64>

    ghost predicate Shape() {
      layers.Length0 == 64 && layers.Length1 == 64
    }

    ghost predicate Ready()
      requires Shape()
      reads layers
    {
      forall k :: 0 <= k < 64 ==> Operator(layers, k, 8 * Pow2(k))
    }

    /** Either untouched, as the first row test reads it, or fully built. */
    ghost predicate Valid()
      reads layers
    {
      Shape() && (layers[0, 0] == 0 || Ready())
    }

    constructor ()
      ensures Valid() && fresh(layers)
    {
      layers := new bv64[64, 64]((i, j) => 0);
    }

    /** `gf2_matrix_square`: from "append n zero bits" to "append 2n zero bits". */
    method Square(dst: nat, src: nat, ghost n: nat)
      requires Shape() && dst < 64 && src < 64 && dst != src
      requires Operator(layers, src, n)
      modifies layers
      ensures Operator(layers, dst, 2 * n)
      ensures forall k, j :: 0 <= k < 64 && k != dst && 0 <= j < 64 ==> layers[k, j] == old(layers[k, j])
    {
      hide Steps, Unit;
      for j := 0 to 64
        invariant forall k, i :: 0 <= k < 64 && k != dst && 0 <= i < 64 ==> layers[k, i] == old(layers[k, i])
        invariant forall i :: 0 <= i < j ==> layers[dst, i] == Steps(Unit(i), 2 * n)
      {
        StepsAdd(Unit(j), n, n);
        var row := Times(layers, src, layers[src, j], n);
        layers[dst, j] := row;
      }
    }

    /** The first part of `init_combine_cache`: layer 1 becomes "append one zero bit". */
    method OneBitLayer()
      requires Shape()
      modifies layers
      ensures Operator(layers, 1, 1)
    {
      hide Steps, Unit, Twice;
      layers[1, 0] := REVERSED_POLY;
      var row: bv64 := 1;
      UnitZero();
      OneBitRows(0);
      for n := 1 to 64
        invariant row == Unit(n - 1)
        invariant forall i :: 0 <= i < n ==> layers[1, i] == Steps(Unit(i), 1)
      {
        OneBitRows(n);
        UnitTwice(n - 1);
        layers[1, n] := row;
        row := Twice(row);
      }
    }

    /** The test of the first row tells an untouched cache from a built one. */
    lemma ReadyIsVisible()
      requires Shape() && Ready()
      ensures layers[0, 0] != 0
    {
      hide Step, Steps, Unit;
      assert Operator(layers, 0, 8 * Pow2(0));
      UnitZero();
      if Steps(1, 8) == 0 {
        StepsZero(8);
        StepsInjective(1, 0, 8);
      }
    }

    /** `init_combine_cache`: the first pass reads layer 1, every later one the layer before. */
    method Init()
      requires Shape()
      modifies layers
      ensures Ready()
    {
      hide Steps, Unit;
      OneBitLayer();
      Square(0, 1, 1);
      Square(1, 0, 2);
      var cacheNum, prev := 0, 1;
      ghost var n := 4;
      while cacheNum < 64
        invariant 0 <= cacheNum <= 64
        invariant prev == if cacheNum == 0 then 1 else -1
        invariant 2 * n == 8 * Pow2(cacheNum)
        invariant cacheNum < 64 ==> Operator(layers, cacheNum + prev, n)
        invariant forall k :: 0 <= k < cacheNum ==> Operator(layers, k, 8 * Pow2(k))
      {
        Square(cacheNum, cacheNum + prev, n);
        prev := -1;
        cacheNum := cacheNum + 1;
        n := 2 * n;
      }
    }

    /** The loop of `crc64_combine`: one layer for each bit of the length. */
    method AppendZeros(crc1: bv64, len2: nat) returns (c: bv64)
      requires Shape() && Ready() && len2 < TWO_64
      ensures c == Steps(crc1, 8 * len2)
    {
      hide Steps, Unit, Zeros, Pow2, Operator;
      c := crc1;
      var len, cacheNum := len2, 0;
      ghost var j, p := 0, 1;
      Remaining(c, 1, len2);
      PowerStep(0);
      Pow2Limit();
      while len != 0
        invariant 0 <= j <= 64 && cacheNum == j % 64 && p == Pow2(j)
        invariant Zeros(p, len) <= len2
        invariant Steps(c, 8 * Zeros(p, len)) == Steps(crc1, 8 * len2)
      {
        Remaining(c, p, len);
        PowerStep(j);
        if len % 2 == 1 {
          assert Operator(layers, cacheNum, 8 * Pow2(cacheNum));
          c := Times(layers, cacheNum, c, 8 * p);
        }
        len := len / 2;
        cacheNum := (cacheNum + 1) % 64;
        j, p := j + 1, 2 * p;
      }
      Remaining(c, p, 0);
    }

    /** `crc64_combine`: `len2` zero bytes through `crc1`, then the second block's CRC. */
    method Combine(crc1: bv64, crc2: bv64, len2: nat) returns (r: bv64)
      requires Valid() && len2 < TWO_64
      modifies layers
      ensures Valid()
      ensures old(layers[0, 0]) != 0 ==> unchanged(layers)
      ensures r == if len2 == 0 then crc1 else Xor(Steps(crc1, 8 * len2), crc2)
    {
      hide Steps, Unit, Xor;
      if len2 == 0 { return crc1; }
      if layers[0, 0] == 0 { Init(); }
      var c := AppendZeros(crc1, len2);
      r := Xor(c, crc2);
    }
  }

  /** Merging two CRCs gives the CRC of the two blocks in a row, the empty second block included. */
  lemma CombineIsConcat(c: bv64, a: seq<bv8>, b: seq<bv8>)
    ensures Crc(c, a + b) == if |b| == 0 then Crc(c, a) else Xor(Steps(Crc(c, a), 8 * |b|), Crc(0, b))
  {
    hide Crc, Steps, Xor;
    if |b| == 0 { assert a + b == a; }
    CrcConcat(c, a, b);
  }

  lemma PowerStep(j: nat)
    ensures Pow2(0) == 1 && Pow2(j + 1) == 2 * Pow2(j)
  {}

  /** Zero bytes still to append when `len` units of `p` bytes are left. */
  ghost function Zeros(p: nat, len: nat): nat { p * len }

  lemma Remaining(c: bv64, p: nat, len: nat)
    ensures p == 1 ==> Zeros(p, len) == len
    ensures len == 0 ==> Steps(c, 8 * Zeros(p, len)) == c
    ensures len > 0 ==> p <= Zeros(p, len)
    ensures Zeros(2 * p, len / 2) <= Zeros(p, len)
    ensures len % 2 == 0 ==> Zeros(2 * p, len / 2) == Zeros(p, len)
    ensures len % 2 == 1 ==> Steps(c, 8 * Zeros(p, len)) == Steps(Steps(c, 8 * p), 8 * Zeros(2 * p, len / 2))
  {
    hide Step;
    var h := len / 2;
    assert len == 2 * h + len % 2;
    assert p * len == 2 * p * h + p * (len % 2);
    if len % 2 == 1 { StepsAdd(c, 8 * p, 8 * (2 * p * h)); }
  }
}
