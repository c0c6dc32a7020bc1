/**
 `redisPopcount` (bitops.c): the parallel count on 28 bytes at a time, the POPCNT path on
 32 bytes at a time, and the table for the bytes around them.
 */
module Popcount {
  import opened Bits

  // ----- small numbers in bytes

  function Val(v: bv8): nat { v as int }

  function Plus(a: bv8, b: bv8): bv8 { a + b }

  function Inc(a: bv8): bv8 { a + 1 }

  function Dec(a: bv8): bv8 { a - 1 }

  lemma IncVal(v: bv8)
    requires v != 255
    ensures Val(Inc(v)) == Val(v) + 1
  {}

  lemma Range(v: bv8)
    ensures Val(v) < 256 && (Val(v) == 255 <==> v == 255) && (Val(v) == 0 <==> v == 0)
  {}

  lemma DecInc(b: bv8)
    requires b != 0
    ensures Inc(Dec(b)) == b && Dec(b) != 255
  {}

  lemma Move(a: bv8, b: bv8)
    ensures Plus(Inc(a), Dec(b)) == Plus(a, b)
  {}

  lemma PlusZero(a: bv8)
    ensures Plus(a, 0) == a
  {}

  lemma {:induction false} PlusVal(a: bv8, b: bv8)
    requires Val(a) + Val(b) < 256
    ensures Val(Plus(a, b)) == Val(a) + Val(b)
    decreases Val(b)
  {
    hide Val, Plus, Inc, Dec;
    Range(a);
    Range(b);
    if b == 0 {
      PlusZero(a);
    } else {
      DecInc(b);
      IncVal(Dec(b));
      IncVal(a);
      PlusVal(Inc(a), Dec(b));
      Move(a, b);
    }
  }

  // ----- the parallel count in a word

  /** Four bytes as the machine loads them. */
  function Word(a: bv8, b: bv8, c: bv8, d: bv8): bv32 {
    (a as bv32) | ((b as bv32) << 8) | ((c as bv32) << 16) | ((d as bv32) << 24)
  }

  function Pairs(x: bv32): bv32 { x - ((x >> 1) & 0x55555555) }

  function Nibbles(x: bv32): bv32 { (x & 0x33333333) + ((x >> 2) & 0x33333333) }

  function Bytes(x: bv32): bv32 { (x + (x >> 4)) & 0x0F0F0F0F }

  /** The counts of the four bytes of a word, each in its own byte. */
  function Counts(x: bv32): bv32 { Bytes(Nibbles(Pairs(x))) }

  /** The same steps on a single byte. */
  function Pair(b: bv8): bv8 { b - ((b >> 1) & 0x55) }

  function Nibble(p: bv8): bv8 { (p & 0x33) + ((p >> 2) & 0x33) }

  function Byte(n: bv8): bv8 { (n + (n >> 4)) & 0x0F }

  function Small(b: bv8): bv8 { Byte(Nibble(Pair(b))) }

  /** The sum of two bits, bit by bit. */
  function PairsBitwise(x: bv32): bv32 { ((x ^ (x >> 1)) & 0x55555555) | ((x & (x >> 1) & 0x55555555) << 1) }

  function PairBitwise(b: bv8): bv8 { ((b ^ (b >> 1)) & 0x55) | ((b & (b >> 1) & 0x55) << 1) }

  lemma PairsAgree(x: bv32)
    ensures Pairs(x) == PairsBitwise(x)
  {}

  lemma PairAgree(b: bv8)
    ensures Pair(b) == PairBitwise(b)
  {}

  lemma PairsBitwiseByLane(a: bv8, b: bv8, c: bv8, d: bv8)
    ensures PairsBitwise(Word(a, b, c, d)) == Word(PairBitwise(a), PairBitwise(b), PairBitwise(c), PairBitwise(d))
  {}

  lemma PairsByLane(a: bv8, b: bv8, c: bv8, d: bv8)
    ensures Pairs(Word(a, b, c, d)) == Word(Pair(a), Pair(b), Pair(c), Pair(d))
  {
    hide *;
    PairsAgree(Word(a, b, c, d));
    PairAgree(a); PairAgree(b); PairAgree(c); PairAgree(d);
    PairsBitwiseByLane(a, b, c, d);
  }

  lemma NibblesByLane(a: bv8, b: bv8, c: bv8, d: bv8)
    ensures Nibbles(Word(a, b, c, d)) == Word(Nibble(a), Nibble(b), Nibble(c), Nibble(d))
  {}

  /** Both halves of the byte are at most four. */
  predicate Low(n: bv8) { n & 0x0F <= 4 && n <= 0x4F }

  lemma BytesByLane(a: bv8, b: bv8, c: bv8, d: bv8)
    requires Low(a) && Low(b) && Low(c) && Low(d)
    ensures Bytes(Word(a, b, c, d)) == Word(Byte(a), Byte(b), Byte(c), Byte(d))
  {}

  lemma NibbleLow(b: bv8)
    ensures Low(Nibble(Pair(b)))
  {}

  lemma CountsByLane(a: bv8, b: bv8, c: bv8, d: bv8)
    ensures Counts(Word(a, b, c, d)) == Word(Small(a), Small(b), Small(c), Small(d))
  {
    hide Word, Pairs, Nibbles, Bytes, Pair, Nibble, Byte, Low;
    PairsByLane(a, b, c, d);
    NibblesByLane(Pair(a), Pair(b), Pair(c), Pair(d));
    NibbleLow(a); NibbleLow(b); NibbleLow(c); NibbleLow(d);
    BytesByLane(Nibble(Pair(a)), Nibble(Pair(b)), Nibble(Pair(c)), Nibble(Pair(d)));
  }

  function Flag(b: bv8, j: nat): bv8 requires j < 8 { if BitOf(b, j) then 1 else 0 }

  lemma SmallBound(b: bv8)
    ensures Small(b) <= 8
  {}

  lemma FlagVal(b: bv8, j: nat)
    requires j < 8
    ensures Val(Flag(b, j)) == One(BitOf(b, j))
  {
    hide BitOf;
  }

  lemma FlagSmall(b: bv8, j: nat)
    requires j < 8
    ensures Val(Flag(b, j)) <= 1
  {
    hide BitOf;
  }

  lemma ByteOnesIsFlags(b: bv8)
    ensures ByteOnes(b) == (Val(Flag(b, 0)) + Val(Flag(b, 1)) + Val(Flag(b, 2)) + Val(Flag(b, 3)))
      + (Val(Flag(b, 4)) + Val(Flag(b, 5)) + Val(Flag(b, 6)) + Val(Flag(b, 7)))
  {
    hide *;
    ByteOnesIs(b);
    FlagVal(b, 0); FlagVal(b, 1); FlagVal(b, 2); FlagVal(b, 3);
    FlagVal(b, 4); FlagVal(b, 5); FlagVal(b, 6); FlagVal(b, 7);
  }

  function Plus4(p: bv8, q: bv8, r: bv8, s: bv8): bv8 { Plus(Plus(p, q), Plus(r, s)) }

  lemma Plus4Val(p: bv8, q: bv8, r: bv8, s: bv8)
    requires Val(p) <= 56 && Val(q) <= 56 && Val(r) <= 56 && Val(s) <= 56
    ensures Val(Plus4(p, q, r, s)) == Val(p) + Val(q) + Val(r) + Val(s)
  {
    hide Plus, Val;
    PlusVal(p, q);
    PlusVal(r, s);
    PlusVal(Plus(p, q), Plus(r, s));
  }

  function LeftFlags(b: bv8): bv8 { Plus4(Flag(b, 0), Flag(b, 1), Flag(b, 2), Flag(b, 3)) }

  function RightFlags(b: bv8): bv8 { Plus4(Flag(b, 4), Flag(b, 5), Flag(b, 6), Flag(b, 7)) }

  lemma LeftVal(b: bv8)
    ensures Val(LeftFlags(b)) == Val(Flag(b, 0)) + Val(Flag(b, 1)) + Val(Flag(b, 2)) + Val(Flag(b, 3)) <= 4
  {
    hide Plus4, Flag, Val;
    FlagSmall(b, 0); FlagSmall(b, 1); FlagSmall(b, 2); FlagSmall(b, 3);
    Plus4Val(Flag(b, 0), Flag(b, 1), Flag(b, 2), Flag(b, 3));
  }

  lemma RightVal(b: bv8)
    ensures Val(RightFlags(b)) == Val(Flag(b, 4)) + Val(Flag(b, 5)) + Val(Flag(b, 6)) + Val(Flag(b, 7)) <= 4
  {
    hide Plus4, Flag, Val;
    FlagSmall(b, 4); FlagSmall(b, 5); FlagSmall(b, 6); FlagSmall(b, 7);
    Plus4Val(Flag(b, 4), Flag(b, 5), Flag(b, 6), Flag(b, 7));
  }

  lemma ByteOnesIsHalves(b: bv8)
    ensures ByteOnes(b) == Val(LeftFlags(b)) + Val(RightFlags(b)) <= 8
  {
    hide *;
    ByteOnesIsFlags(b);
    LeftVal(b);
    RightVal(b);
  }

  /** The steps on a byte give the number of its set bits. */
  lemma SmallVal(b: bv8)
    ensures Val(Small(b)) == ByteOnes(b) <= 8
  {
    hide *;
    SmallNamed(b);
    ByteOnesIsHalves(b);
    PlusVal(LeftFlags(b), RightFlags(b));
  }

  lemma SmallNamed(b: bv8)
    ensures Small(b) == Plus(LeftFlags(b), RightFlags(b))
  {}

  // ----- seven words at a time

  function Add(x: bv32, y: bv32): bv32 { x + y }

  lemma AddByLane(a: bv8, b: bv8, c: bv8, d: bv8, p: bv8, q: bv8, r: bv8, s: bv8)
    requires p <= 8 && q <= 8 && r <= 8 && s <= 8 && a <= 48 && b <= 48 && c <= 48 && d <= 48
    ensures Add(Word(a, b, c, d), Word(p, q, r, s)) == Word(Plus(a, p), Plus(b, q), Plus(c, r), Plus(d, s))
  {}

  function Times(x: bv32): bv32 { x * 0x01010101 }

  function Top(x: bv32): bv32 { x >> 24 }

  function Poly(p: bv32, q: bv32, r: bv32, s: bv32): bv32 { p + q * 0x100 + r * 0x10000 + s * 0x1000000 }

  function Wide(a: bv8): bv32 { a as bv32 }

  lemma WordPoly(a: bv8, b: bv8, c: bv8, d: bv8)
    ensures Word(a, b, c, d) == Poly(Wide(a), Wide(b), Wide(c), Wide(d))
  {}

  lemma TimesPlain(a: bv32, b: bv32, c: bv32, d: bv32)
    ensures Times(a + b * 0x100 + c * 0x10000 + d * 0x1000000) == Poly(a, a + b, a + b + c, a + b + c + d)
  {}

  function Add3(a: bv32, b: bv32, c: bv32): bv32 { a + b + c }

  function Add4(a: bv32, b: bv32, c: bv32, d: bv32): bv32 { a + b + c + d }

  lemma TimesPoly(a: bv32, b: bv32, c: bv32, d: bv32)
    ensures Times(Poly(a, b, c, d)) == Poly(a, Add(a, b), Add3(a, b, c), Add4(a, b, c, d))
  {
    hide Times;
    TimesPlain(a, b, c, d);
  }

  lemma TopPoly(p: bv32, q: bv32, r: bv32, s: bv32)
    requires p <= 224 && q <= 224 && r <= 224 && s <= 224
    ensures Top(Poly(p, q, r, s)) == s
  {}

  lemma WideAdd(a: bv8, b: bv8)
    requires a <= 112 && b <= 112
    ensures Add(Wide(a), Wide(b)) == Wide(Plus(a, b)) && Wide(Plus(a, b)) <= 224
  {}

  lemma PlusBound(a: bv8, b: bv8)
    requires a <= 56 && b <= 56
    ensures Plus(a, b) <= 112
  {}

  lemma Add4Plain(x: bv32, y: bv32, z: bv32, w: bv32)
    ensures Add4(x, y, z, w) == Add(x + y, z + w)
  {}

  lemma Add4Split(x: bv32, y: bv32, z: bv32, w: bv32)
    ensures Add4(x, y, z, w) == Add(Add(x, y), Add(z, w))
  {
    hide Add4;
    Add4Plain(x, y, z, w);
  }

  lemma Add3Bound(x: bv32, y: bv32, z: bv32)
    requires x <= 56 && y <= 56 && z <= 56
    ensures Add3(x, y, z) <= 224 && Add(x, y) <= 224
  {}

  lemma WideBound(a: bv8)
    requires a <= 56
    ensures Wide(a) <= 56 && Wide(a) <= 224
  {}

  lemma WideAdd4(a: bv8, b: bv8, c: bv8, d: bv8)
    requires a <= 56 && b <= 56 && c <= 56 && d <= 56
    ensures Add4(Wide(a), Wide(b), Wide(c), Wide(d)) == Wide(Plus4(a, b, c, d)) && Wide(Plus4(a, b, c, d)) <= 224
  {
    hide Add4, Add, Wide, Plus;
    Add4Split(Wide(a), Wide(b), Wide(c), Wide(d));
    PlusBound(a, b); PlusBound(c, d);
    WideSmall(a); WideSmall(b); WideSmall(c); WideSmall(d);
    WideAdd(a, b);
    WideAdd(c, d);
    WideAdd(Plus(a, b), Plus(c, d));
  }

  lemma WideSmall(a: bv8)
    requires a <= 56
    ensures a <= 112
  {}

  /** Multiplying by 0x01010101 adds the four bytes up in the top byte: at most 224, so nothing is lost. */
  lemma TopOfTimes(a: bv8, b: bv8, c: bv8, d: bv8)
    requires a <= 56 && b <= 56 && c <= 56 && d <= 56
    ensures Top(Times(Word(a, b, c, d))) == Wide(Plus4(a, b, c, d))
  {
    hide *;
    var x, y, z, w := Wide(a), Wide(b), Wide(c), Wide(d);
    WordPoly(a, b, c, d);
    TimesPoly(x, y, z, w);
    WideAdd4(a, b, c, d);
    WideBound(a); WideBound(b); WideBound(c);
    Add3Bound(x, y, z);
    TopPoly(x, Add(x, y), Add3(x, y, z), Add4(x, y, z, w));
  }

  lemma WideVal(a: bv8)
    ensures Wide(a) as int == Val(a)
  {}

  // ----- a block of seven words

  function WordAt(block: seq<bv8>, i: nat): bv32
    requires 4 * i + 4 <= |block|
  {
    Word(block[4 * i], block[4 * i + 1], block[4 * i + 2], block[4 * i + 3])
  }

  /** The counts of the first `i` words added up. */
  function Sum(block: seq<bv8>, i: nat): bv32
    requires 4 * i <= |block|
  {
    if i == 0 then 0 else Add(Sum(block, i - 1), Counts(WordAt(block, i - 1)))
  }

  function Lane(block: seq<bv8>, j: nat, i: nat): bv8
    requires 4 * i <= |block| && j < 4
  {
    if i == 0 then 0 else Plus(Lane(block, j, i - 1), Small(block[4 * (i - 1) + j]))
  }

  lemma Bound48(v: bv8)
    requires Val(v) <= 48
    ensures v <= 48
  {}

  lemma Bound56(v: bv8)
    requires Val(v) <= 56
    ensures v <= 56
  {}

  lemma ZeroVal()
    ensures Val(0) == 0
  {}

  lemma {:induction false} LaneVal(block: seq<bv8>, j: nat, i: nat)
    requires 4 * i <= |block| && j < 4 && i <= 7
    ensures Val(Lane(block, j, i)) <= 8 * i
    ensures i > 0 ==> Val(Lane(block, j, i)) == Val(Lane(block, j, i - 1)) + ByteOnes(block[4 * (i - 1) + j])
    decreases i
  {
    hide Plus, Val, Small, ByteOnes;
    ZeroVal();
    if i > 0 {
      LaneVal(block, j, i - 1);
      SmallVal(block[4 * (i - 1) + j]);
      PlusVal(Lane(block, j, i - 1), Small(block[4 * (i - 1) + j]));
    }
  }

  lemma LaneBound(block: seq<bv8>, j: nat, i: nat)
    requires 4 * i <= |block| && j < 4 && i <= 7
    ensures Lane(block, j, i) <= 56 && (i < 7 ==> Lane(block, j, i) <= 48)
  {
    hide Lane, Val, ByteOnes;
    LaneVal(block, j, i);
    Bound56(Lane(block, j, i));
    if i < 7 { Bound48(Lane(block, j, i)); }
  }

  lemma WordZero()
    ensures Word(0, 0, 0, 0) == 0
  {}

  lemma {:induction false} SumByLane(block: seq<bv8>, i: nat)
    requires 4 * i <= |block| && i <= 7
    ensures Sum(block, i) == Word(Lane(block, 0, i), Lane(block, 1, i), Lane(block, 2, i), Lane(block, 3, i))
    decreases i
  {
    hide Word, Counts, Small, Plus, Add;
    if i == 0 {
      WordZero();
    } else {
      SumByLane(block, i - 1);
      LaneBounds(block, i - 1);
      var k := 4 * (i - 1);
      SmallBounds(block[k], block[k + 1], block[k + 2], block[k + 3]);
      CountsByLane(block[k], block[k + 1], block[k + 2], block[k + 3]);
      AddByLane(Lane(block, 0, i - 1), Lane(block, 1, i - 1), Lane(block, 2, i - 1), Lane(block, 3, i - 1),
        Small(block[k]), Small(block[k + 1]), Small(block[k + 2]), Small(block[k + 3]));
    }
  }

  lemma LaneBounds(block: seq<bv8>, i: nat)
    requires 4 * i <= |block| && i < 7
    ensures Lane(block, 0, i) <= 48 && Lane(block, 1, i) <= 48 && Lane(block, 2, i) <= 48 && Lane(block, 3, i) <= 48
  {
    hide Lane;
    LaneBound(block, 0, i); LaneBound(block, 1, i); LaneBound(block, 2, i); LaneBound(block, 3, i);
  }

  lemma SmallBounds(a: bv8, b: bv8, c: bv8, d: bv8)
    ensures Small(a) <= 8 && Small(b) <= 8 && Small(c) <= 8 && Small(d) <= 8
  {
    hide Small;
    SmallBound(a); SmallBound(b); SmallBound(c); SmallBound(d);
  }

  lemma {:induction false} LanesWeight(block: seq<bv8>, i: nat)
    requires 4 * i <= |block| && i <= 7
    ensures Val(Lane(block, 0, i)) + Val(Lane(block, 1, i)) + Val(Lane(block, 2, i)) + Val(Lane(block, 3, i))
         == Weight(block[..4 * i])
    decreases i
  {
    hide Val, ByteOnes, Plus, Small, Weight, Lane;
    if i == 0 {
      LaneNone(block);
      assert block[..0] == [];
      WeightNone();
    } else {
      var k := 4 * (i - 1);
      LanesWeight(block, i - 1);
      LaneVal(block, 0, i); LaneVal(block, 1, i); LaneVal(block, 2, i); LaneVal(block, 3, i);
      WeightNext(block, k);
    }
  }

  lemma LaneNone(block: seq<bv8>)
    ensures Val(Lane(block, 0, 0)) == 0 && Val(Lane(block, 1, 0)) == 0 && Val(Lane(block, 2, 0)) == 0
      && Val(Lane(block, 3, 0)) == 0
  {}

  lemma WeightNext(block: seq<bv8>, k: nat)
    requires k + 4 <= |block|
    ensures Weight(block[..k + 4]) == Weight(block[..k])
      + (ByteOnes(block[k]) + ByteOnes(block[k + 1]) + ByteOnes(block[k + 2]) + ByteOnes(block[k + 3]))
  {
    hide *;
    assert block[..k + 4] == block[..k] + [block[k], block[k + 1], block[k + 2], block[k + 3]];
    WeightConcat(block[..k], [block[k], block[k + 1], block[k + 2], block[k + 3]]);
    WeightFour(block[k], block[k + 1], block[k + 2], block[k + 3]);
  }

  lemma WeightNone()
    ensures Weight([]) == 0
  {}

  lemma WeightFour(a: bv8, b: bv8, c: bv8, d: bv8)
    ensures Weight([a, b, c, d]) == ByteOnes(a) + ByteOnes(b) + ByteOnes(c) + ByteOnes(d)
  {
    hide ByteOnes, Weight;
    WeightCons(a, [b, c, d]); WeightCons(b, [c, d]); WeightCons(c, [d]); WeightCons(d, []);
    assert [a] + [b, c, d] == [a, b, c, d] && [b] + [c, d] == [b, c, d] && [c] + [d] == [c, d] && [d] + [] == [d];
    WeightNone();
  }

  lemma WeightCons(b: bv8, t: seq<bv8>)
    ensures Weight([b] + t) == ByteOnes(b) + Weight(t)
  {
    assert ([b] + t)[1..] == t;
  }

  /** The count of a block, taken out of the top byte, is its number of set bits. */
  lemma BlockWeight(block: seq<bv8>)
    requires |block| == 28
    ensures Top(Times(Sum(block, 7))) as int == Weight(block)
  {
    hide *;
    SumByLane(block, 7);
    var a, b, c, d := Lane(block, 0, 7), Lane(block, 1, 7), Lane(block, 2, 7), Lane(block, 3, 7);
    LaneBound(block, 0, 7); LaneBound(block, 1, 7); LaneBound(block, 2, 7); LaneBound(block, 3, 7);
    LaneVal(block, 0, 7); LaneVal(block, 1, 7); LaneVal(block, 2, 7); LaneVal(block, 3, 7);
    TopOfTimes(a, b, c, d);
    WideVal(Plus4(a, b, c, d));
    Plus4Val(a, b, c, d);
    LanesWeight(block, 7);
    assert block[..28] == block;
  }

  // ----- the program

  /** The bytes one at a time; the table `bitsinbyte` holds the number of set bits of each byte. */
  method CountBytes(s: seq<bv8>) returns (bits: nat)
    ensures bits == Weight(s)
  {
    hide ByteOnes;
    bits := 0;
    var p, count := 0, |s|;
    while count > 0
      invariant 0 <= p && 0 <= count && p + count == |s| && bits + Weight(s[p..]) == Weight(s)
    {
      assert s[p..][1..] == s[p + 1..];
      bits := bits + ByteOnes(s[p]);
      p, count := p + 1, count - 1;
    }
    assert s[p..] == [];
  }

  /** Seven words, counted in parallel. */
  method CountBlock(block: seq<bv8>) returns (bits: nat)
    requires |block| == 28
    ensures bits == Weight(block)
  {
    hide Word, Pairs, Nibbles, Bytes, Times, Top, Weight;
    var aux1, aux2, aux3, aux4 := WordAt(block, 0), WordAt(block, 1), WordAt(block, 2), WordAt(block, 3);
    var aux5, aux6, aux7 := WordAt(block, 4), WordAt(block, 5), WordAt(block, 6);
    aux1 := Pairs(aux1); aux1 := Nibbles(aux1);
    aux2 := Pairs(aux2); aux2 := Nibbles(aux2);
    aux3 := Pairs(aux3); aux3 := Nibbles(aux3);
    aux4 := Pairs(aux4); aux4 := Nibbles(aux4);
    aux5 := Pairs(aux5); aux5 := Nibbles(aux5);
    aux6 := Pairs(aux6); aux6 := Nibbles(aux6);
    aux7 := Pairs(aux7); aux7 := Nibbles(aux7);
    var sum := Add(Add(Add(Add(Add(Add(Bytes(aux1), Bytes(aux2)), Bytes(aux3)), Bytes(aux4)), Bytes(aux5)),
      Bytes(aux6)), Bytes(aux7));
    SumOfSeven(block);
    BlockWeight(block);
    bits := Top(Times(sum)) as int;
  }

  lemma SumOfSeven(block: seq<bv8>)
    requires |block| == 28
    ensures Sum(block, 7) == Add(Add(Add(Add(Add(Add(Counts(WordAt(block, 0)), Counts(WordAt(block, 1))),
      Counts(WordAt(block, 2))),
      Counts(WordAt(block, 3))), Counts(WordAt(block, 4))), Counts(WordAt(block, 5))), Counts(WordAt(block, 6)))
  {
    hide Add, Counts, WordAt;
    AddZero(Counts(WordAt(block, 0)));
    SumNext(block, 1); SumNext(block, 2); SumNext(block, 3); SumNext(block, 4);
    SumNext(block, 5); SumNext(block, 6); SumNext(block, 7);
  }

  lemma AddZero(x: bv32)
    ensures Add(0, x) == x
  {}

  lemma SumNext(block: seq<bv8>, i: nat)
    requires 0 < i && 4 * i <= |block|
    ensures Sum(block, i) == Add(Sum(block, i - 1), Counts(WordAt(block, i - 1))) && Sum(block, 0) == 0
  {}

  /** The 28-byte loop, and what is left over. */
  method CountBlocks(s: seq<bv8>) returns (bits: nat)
    ensures bits == Weight(s)
  {
    hide Weight;
    bits := 0;
    var p, count := 0, |s|;
    assert s[0..] == s;
    while count >= 28
      invariant 0 <= p && 0 <= count && p + count == |s| && bits + Weight(s[p..]) == Weight(s)
    {
      var block := s[p..p + 28];
      assert s[p..] == block + s[p + 28..];
      WeightConcat(block, s[p + 28..]);
      var n := CountBlock(block);
      bits := bits + n;
      p, count := p + 28, count - 28;
    }
    var rest := CountBytes(s[p..]);
    bits := bits + rest;
  }

  /** The POPCNT instruction on the eight bytes at `p`. */
  function Instruction(s: seq<bv8>, p: nat): nat requires p + 8 <= |s| { Weight(s[p..p + 8]) }

  /** The 32-byte loop with four counters, and what is left over. */
  method CountWithPopcnt(s: seq<bv8>) returns (bits: nat)
    ensures bits == Weight(s)
  {
    hide Weight;
    var cnt := new nat[4](_ => 0);
    var p, count := 0, |s|;
    assert s[0..] == s;
    while count >= 32
      invariant 0 <= p && 0 <= count && p + count == |s|
      invariant cnt[0] + cnt[1] + cnt[2] + cnt[3] + Weight(s[p..]) == Weight(s)
    {
      FourWords(s, p);
      cnt[0] := cnt[0] + Instruction(s, p);
      cnt[1] := cnt[1] + Instruction(s, p + 8);
      cnt[2] := cnt[2] + Instruction(s, p + 16);
      cnt[3] := cnt[3] + Instruction(s, p + 24);
      p, count := p + 32, count - 32;
    }
    var rest := CountBytes(s[p..]);
    bits := cnt[0] + cnt[1] + cnt[2] + cnt[3] + rest;
  }

  lemma FourWords(s: seq<bv8>, p: nat)
    requires p + 32 <= |s|
    ensures Weight(s[p..]) ==
      Instruction(s, p) + Instruction(s, p + 8) + Instruction(s, p + 16) + Instruction(s, p + 24) + Weight(s[p + 32..])
  {
    hide Weight;
    assert s[p..] == s[p..p + 8] + s[p + 8..];
    assert s[p + 8..] == s[p + 8..p + 16] + s[p + 16..];
    assert s[p + 16..] == s[p + 16..p + 24] + s[p + 24..];
    assert s[p + 24..] == s[p + 24..p + 32] + s[p + 32..];
    WeightConcat(s[p..p + 8], s[p + 8..]);
    WeightConcat(s[p + 8..p + 16], s[p + 16..]);
    WeightConcat(s[p + 16..p + 24], s[p + 24..]);
    WeightConcat(s[p + 24..p + 32], s[p + 32..]);
  }

  /** `redisPopcount` on a string at any address, on either path. */
  method RedisPopcount(s: seq<bv8>, address: nat, usePopcnt: bool) returns (bits: nat)
    ensures bits == Weight(s)
  {
    hide Weight;
    var size := if usePopcnt then 8 else 4;
    var p, lead := 0, 0;
    while (address + p) % size != 0 && p < |s|
      invariant 0 <= p <= |s|
      decreases |s| - p
    {
      p := p + 1;
    }
    assert s == s[..p] + s[p..];
    WeightConcat(s[..p], s[p..]);
    lead := CountBytes(s[..p]);
    var rest: nat;
    if usePopcnt { rest := CountWithPopcnt(s[p..]); } else { rest := CountBlocks(s[p..]); }
    bits := lead + rest;
  }
}
