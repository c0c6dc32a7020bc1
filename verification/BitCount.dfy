/** BITCOUNT (bitops.c): the set bits of a string, of a range of its bytes or of a range of its bits. */
module BitCount {
  import opened Bits
  import opened BitRange
  import Popcount

  // ----- the edges of a bit range

  lemma {:induction false} OnesEmpty(s: seq<bv8>, a: nat, b: nat)
    requires forall i :: a <= i < b ==> !Bit(s, i)
    ensures Ones(s, a, b) == 0
    decreases b - a
  {
    hide Bit;
    if a < b { OnesEmpty(s, a + 1, b); }
  }

  /** Bits of a one-byte string. */
  lemma SingleBit(b: bv8, i: nat)
    ensures Bit([b], i) <==> i < 8 && BitOf(b, i)
  {}

  lemma SingleOnes(b: bv8)
    ensures Ones([b], 0, 8) == ByteOnes(b)
  {
    hide Ones, ByteOnes;
    OnesOfByte([b], 0);
  }

  lemma AndBits(a: bv8, b: bv8, i: nat)
    ensures Bit([And(a, b)], i) <==> i < 8 && BitOf(a, i) && BitOf(b, i)
  {
    hide BitOf, Bit, And;
    SingleBit(And(a, b), i);
    if i < 8 { AndBit(a, b, i); }
  }

  lemma FirstBits(s: seq<bv8>, k: nat, r: nat, i: nat)
    requires k < |s| && r < 8 && i < 8
    ensures Bit([And(s[k], FirstMask(r))], i) == (i < r && Bit(s, 8 * k + i))
  {
    hide *;
    AndBits(s[k], FirstMask(r), i);
    FirstMaskBit(r, i);
    AtByte(s, k, i);
  }

  lemma LastBits(s: seq<bv8>, k: nat, r: nat, i: nat)
    requires k < |s| && r < 8 && i < 8
    ensures Bit([And(s[k], LastMask(r))], i) == (i > r && Bit(s, 8 * k + i))
  {
    hide *;
    AndBits(s[k], LastMask(r), i);
    LastMaskBit(r, i);
    AtByte(s, k, i);
  }

  /** The masked first byte holds the bits before the range. */
  lemma BeforeRange(s: seq<bv8>, k: nat, r: nat)
    requires k < |s| && r < 8
    ensures Ones(s, 8 * k, 8 * k + r) == ByteOnes(And(s[k], FirstMask(r)))
  {
    hide *;
    var t := [And(s[k], FirstMask(r))];
    SingleOnes(t[0]);
    OnesSplit(t, 0, r, 8);
    forall i | r <= i < 8 ensures !Bit(t, i) { FirstBits(s, k, r, i); }
    OnesEmpty(t, r, 8);
    forall i | 0 <= i < r ensures Bit(t, i) == Bit(s, 8 * k + i - 0) { FirstBits(s, k, r, i); }
    OnesSame(t, s, 0, r, 8 * k);
  }

  /** The masked last byte holds the bits after the range. */
  lemma AfterRange(s: seq<bv8>, k: nat, r: nat)
    requires k < |s| && r < 8
    ensures Ones(s, 8 * k + r + 1, 8 * k + 8) == ByteOnes(And(s[k], LastMask(r)))
  {
    hide *;
    var t := [And(s[k], LastMask(r))];
    SingleOnes(t[0]);
    OnesSplit(t, 0, r + 1, 8);
    forall i | 0 <= i < r + 1 ensures !Bit(t, i) { LastBits(s, k, r, i); }
    OnesEmpty(t, 0, r + 1);
    var c := 8 * k + r + 1;
    forall i | r + 1 <= i < 8 ensures Bit(t, i) == Bit(s, c + i - (r + 1)) { LastBits(s, k, r, i); }
    OnesSame(t, s, r + 1, 8, c);
  }

  lemma TrimmedAt(s: seq<bv8>, i: nat, p: nat, j: nat, q: nat)
    requires i <= j < |s| && p < 8 && q < 8 && 8 * i + p <= 8 * j + q
    ensures Weight(s[i..j + 1]) ==
      Ones(s, 8 * i + p, 8 * j + q + 1) + ByteOnes(And(s[i], FirstMask(p))) + ByteOnes(And(s[j], LastMask(q)))
  {
    hide *;
    WeightIsOnes(s, i, j + 1);
    BeforeRange(s, i, p);
    AfterRange(s, j, q);
    OnesSplit(s, 8 * i, 8 * i + p, 8 * j + 8);
    OnesSplit(s, 8 * i + p, 8 * j + q + 1, 8 * j + 8);
  }

  /** Whole bytes less the bits outside the range are the bits in the range. */
  lemma Trimmed(s: seq<bv8>, a: nat, b: nat)
    requires a <= b < 8 * |s|
    ensures Weight(s[a / 8..b / 8 + 1]) ==
      Ones(s, a, b + 1) + ByteOnes(And(s[a / 8], FirstMask(a % 8))) + ByteOnes(And(s[b / 8], LastMask(b % 8)))
  {
    hide *;
    TrimmedAt(s, a / 8, a % 8, b / 8, b % 8);
  }

  // ----- the command

  datatype Option = Missing | Value(bytes: seq<bv8>)

  datatype Range = Whole | Bytes(start: int, end: int) | BitsOf(start: int, end: int)

  /** The range runs backwards from the end: nothing is counted, whatever the string. */
  predicate Backwards(r: Range) { !r.Whole? && r.start < 0 && r.end < 0 && r.start > r.end }

  /** The set bits at the places the range stands for. */
  function Expected(s: seq<bv8>, r: Range): nat {
    if Backwards(r) then 0
    else match r
      case Whole => Ones(s, 0, 8 * |s|)
      case Bytes(start, end) => Ones(s, 8 * FromEnd(start, |s|), 8 * (Clip(end, |s|) + 1))
      case BitsOf(start, end) => Ones(s, FromEnd(start, 8 * |s|), Clip(end, 8 * |s|) + 1)
  }

  lemma NothingBetween(s: seq<bv8>, a: nat, b: nat)
    requires a >= b
    ensures Ones(s, a, b) == 0
  {}

  /** `bitcountCommand`. */
  method Bitcount(value: Option, r: Range, address: nat, usePopcnt: bool) returns (count: nat)
    ensures count == if value.Missing? then 0 else Expected(value.bytes, r)
  {
    hide Ones, ByteOnes, Weight, FirstMask, LastMask, And, FromEnd, Clip;
    var p := if value.Missing? then [] else value.bytes;
    var start: nat, end: int := 0, |p| - 1;
    var first: bv8, last: bv8 := 0, 0;
    if !r.Whole? {
      if Backwards(r) { return 0; }
      var total := if r.BitsOf? then 8 * |p| else |p|;
      start, end := FromEnd(r.start, total), Clip(r.end, total);
      if r.BitsOf? && start <= end {
        Trimmed(p, start, end);
        first, last := FirstMask(start % 8), LastMask(end % 8);
        start, end := start / 8, end / 8;
      }
    }
    if value.Missing? { return 0; }
    if start > end {
      if r.Bytes? { NothingBetween(p, 8 * start, 8 * (end + 1)); } else { NothingBetween(p, start, end + 1); }
      return 0;
    }
    WeightIsOnes(p, start, end + 1);
    count := Popcount.RedisPopcount(p[start..end + 1], address + start, usePopcnt);
    var outside := CountEdges(p[start], p[end], first, last, address, usePopcnt);
    NoEdge(p[start]);
    NoEdge(p[end]);
    assert Weight(p[start..end + 1]) == Expected(p, r) + outside;
    count := count - outside;
  }

  /** The bits of the first and the last byte that are outside the range. */
  method CountEdges(a: bv8, b: bv8, first: bv8, last: bv8, address: nat, usePopcnt: bool) returns (outside: nat)
    ensures outside == ByteOnes(And(a, first)) + ByteOnes(And(b, last))
  {
    hide Weight, ByteOnes, And;
    outside := 0;
    if first != 0 || last != 0 {
      var edges := [0 as bv8, 0];
      if first != 0 { edges := edges[0 := And(a, first)]; }
      if last != 0 { edges := edges[1 := And(b, last)]; }
      outside := Popcount.RedisPopcount(edges, address, usePopcnt);
      WeightTwo(edges);
    }
    NoEdge(a);
    NoEdge(b);
  }

  lemma WeightTwo(edges: seq<bv8>)
    requires |edges| == 2
    ensures Weight(edges) == ByteOnes(edges[0]) + ByteOnes(edges[1])
  {
    hide ByteOnes;
    assert edges[1..] == [edges[1]] && edges[1..][1..] == [];
    assert Weight(edges[1..]) == ByteOnes(edges[1]) + Weight(edges[1..][1..]);
  }

  lemma NoEdge(a: bv8)
    ensures And(a, 0) == 0 && ByteOnes(0) == 0
  {}

  /** A negative index counts from the end, and one before the beginning is the beginning. */
  lemma IndexesFromEnd(i: int, total: nat)
    ensures FromEnd(i, total) == if i >= 0 then i else if i + total >= 0 then i + total else 0
    ensures total > 0 ==> Clip(i, total) == if i >= total then total - 1 else if i >= 0 then i
                                            else if i + total >= 0 then i + total else 0
    ensures Clip(i, 0) == -1
  {}

  /** 0 -1 is the whole string, in bytes and in bits, and one index may be written in two ways. */
  lemma WholeRange(s: seq<bv8>)
    ensures Expected(s, Bytes(0, -1)) == Expected(s, BitsOf(0, -1)) == Expected(s, Whole) == Weight(s)
  {
    hide Ones, Weight;
    assert s[0..|s|] == s;
    WeightIsOnes(s, 0, |s|);
  }

  /** Positive indexes inside the string: the bits of the first byte to the last, or the first bit to the last. */
  lemma InsideRange(s: seq<bv8>, a: nat, b: nat)
    ensures a <= b < |s| ==> Expected(s, Bytes(a, b)) == Expected(s, Bytes(a - |s|, b - |s|)) == Weight(s[a..b + 1])
    ensures a <= b < 8 * |s| ==>
      Expected(s, BitsOf(a, b)) == Expected(s, BitsOf(a - 8 * |s|, b - 8 * |s|)) == Ones(s, a, b + 1)
  {
    hide Ones, Weight;
    if a <= b < |s| { WeightIsOnes(s, a, b + 1); }
  }
}
