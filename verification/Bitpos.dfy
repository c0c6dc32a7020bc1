/** `redisBitpos` (bitops.c): the first set or clear bit of a string, found byte by byte and word by word. */
module Bitpos {
  import opened Bits
  import opened BitWord

  /** `r` is the first place, in the zero-padded string, that holds `bit`; -1 if no place does. */
  ghost predicate IsFirst(s: seq<bv8>, bit: bool, r: int) {
    if r < 0 then r == -1 && forall i: nat :: Bit(s, i) != bit
    else Bit(s, r) == bit && forall i: nat :: i < r ==> Bit(s, i) != bit
  }

  function Skip(bit: bool): bv8 { if bit then 0x00 else 0xFF }

  lemma SkipBit(bit: bool, j: nat)
    requires j < 8
    ensures BitOf(Skip(bit), j) != bit
  {}

  /** Bytes that hold only the other bit. */
  ghost predicate Skipped(s: seq<bv8>, bit: bool, p: nat) {
    p <= |s| && forall i :: 0 <= i < p ==> s[i] == Skip(bit)
  }

  lemma SkippedBits(s: seq<bv8>, bit: bool, p: nat, i: nat)
    requires Skipped(s, bit, p) && i < 8 * p
    ensures Bit(s, i) != bit
  {
    hide BitOf;
    assert i / 8 < p;
    SkipBit(bit, i % 8);
  }

  /** The first eight bytes of what is left, zero-padded. */
  function Padded(s: seq<bv8>, p: nat): (t: seq<bv8>)
    requires p <= |s|
    ensures |t| == 8
  {
    seq(8, j requires 0 <= j < 8 => if p + j < |s| then s[p + j] else 0)
  }

  lemma ZeroBit(j: nat)
    requires j < 8
    ensures !BitOf(0, j)
  {}

  lemma PaddedBit(s: seq<bv8>, p: nat, j: nat)
    requires p <= |s| && j < 64
    ensures Bit(Padded(s, p), j) == Bit(s, 8 * p + j)
  {
    hide BitOf;
    assert (8 * p + j) / 8 == p + j / 8 && (8 * p + j) % 8 == j % 8;
    ZeroBit(j % 8);
  }

  /** Where the scan of whole words stops: the next word is short, or holds the bit. */
  ghost predicate Stopped(s: seq<bv8>, bit: bool, p: nat) {
    p <= |s| && (p + 8 <= |s| ==> exists i :: p <= i < p + 8 && s[i] != Skip(bit))
  }

  /** Looking for a zero, there is always one in the last word. */
  lemma WordHasZero(s: seq<bv8>, p: nat) returns (j: nat)
    requires Stopped(s, false, p)
    ensures j < 64 && !Bit(Padded(s, p), j)
  {
    hide BitOf;
    if p + 8 <= |s| {
      var i :| p <= i < p + 8 && s[i] != Skip(false);
      var k := OtherBit(s[i], false);
      j := 8 * (i - p) + k;
      BitInByte(Padded(s, p), i - p, k);
    } else {
      j := 8 * (|s| - p);
      BitInByte(Padded(s, p), |s| - p, 0);
      ZeroBit(0);
    }
  }

  /** A word that is not zero has a bit set. */
  lemma WordHasOne(t: seq<bv8>) returns (j: nat)
    requires |t| == 8 && Of(t) != 0
    ensures j < 64 && Bit(t, j)
  {
    hide BitOf, Word;
    ZeroWord();
    assert exists i :: 0 <= i < 8 && t[i] != 0;
    var i :| 0 <= i < 8 && t[i] != 0;
    var k := OtherBit(t[i], true);
    j := 8 * i + k;
    BitInByte(t, i, k);
  }

  /** Looking for a one, a word of zeroes is the end of the string. */
  lemma ZeroWordEnds(s: seq<bv8>, p: nat, i: nat)
    requires Stopped(s, true, p) && Of(Padded(s, p)) == 0 && i >= 8 * p
    ensures !Bit(s, i)
  {
    hide BitOf, Of;
    if p + 8 <= |s| {
      var k :| p <= k < p + 8 && s[k] != Skip(true);
      var m := OtherBit(s[k], true);
      BitInByte(Padded(s, p), k - p, m);
      WordBit(Padded(s, p), 8 * (k - p) + m);
      assert false;
    }
    if i < 8 * p + 64 {
      WordBit(Padded(s, p), i - 8 * p);
      PaddedBit(s, p, i - 8 * p);
    }
  }

  // ----- the program

  /** The bytes before the first aligned address. */
  method SkipBytes(s: seq<bv8>, address: nat, bit: bool) returns (p: nat, found: bool)
    ensures Skipped(s, bit, p) && (found ==> p < |s| && s[p] != Skip(bit))
  {
    p, found := 0, false;
    while (address + p) % 8 != 0 && p < |s|
      invariant Skipped(s, bit, p)
      decreases |s| - p
    {
      if s[p] != Skip(bit) { return p, true; }
      p := p + 1;
    }
  }

  /** `*l == skipval`. */
  predicate WordSkipped(s: seq<bv8>, bit: bool, p: nat)
    requires p + 8 <= |s|
  {
    forall i :: p <= i < p + 8 ==> s[i] == Skip(bit)
  }

  method SkipWords(s: seq<bv8>, bit: bool, start: nat) returns (p: nat)
    requires Skipped(s, bit, start)
    ensures Skipped(s, bit, p) && Stopped(s, bit, p)
  {
    p := start;
    while |s| - p >= 8
      invariant Skipped(s, bit, p)
      decreases |s| - p
    {
      if !WordSkipped(s, bit, p) { break; }
      p := p + 8;
    }
  }

  /** Eight bytes into a word, zeroes where there are none left. */
  method LoadWord(s: seq<bv8>, p: nat) returns (word: bv64)
    requires p <= |s|
    ensures word == Of(Padded(s, p))
  {
    hide Push, Of, Fold;
    word := 0;
    ghost var t := Padded(s, p);
    assert t[..0] == [];
    FoldNone();
    for j := 0 to 8
      invariant word == Fold(t[..j])
    {
      FoldNext(t, j);
      word := Push(word, if p + j < |s| then s[p + j] else 0);
    }
    assert t[..8] == t;
    FoldIsWord(t);
  }

  lemma FoldNone()
    ensures Fold([]) == 0
  {}

  /** The word is scanned bit by bit. */
  method Scan(t: seq<bv8>, word: bv64, bit: bool, ghost witness_: nat) returns (j: nat)
    requires |t| == 8 && word == Of(t) && witness_ < 64 && Bit(t, witness_) == bit
    ensures j < 64 && Bit(t, j) == bit && forall i: nat :: i < j ==> Bit(t, i) != bit
  {
    hide Test, Of, Top, Bit, Right;
    var one := MSB;
    j := 0;
    TopNone();
    while one != 0
      invariant j <= 64 && one == Top(j) && forall i: nat :: i < j ==> Bit(t, i) != bit
      decreases 64 - j
    {
      TopEnds(j);
      WordBit(t, j);
      if Test(one, word) == bit { return; }
      TopNext(j);
      one := Right(one);
      j := j + 1;
    }
    TopEnds(j);
    assert false;
  }

  lemma TopNone()
    ensures Top(0) == MSB
  {}

  lemma TopNext(j: nat)
    ensures Top(j + 1) == Right(Top(j))
  {}

  /** `redisBitpos`. The end of its last loop is never reached. */
  method RedisBitpos(s: seq<bv8>, address: nat, bit: bool) returns (pos: int)
    ensures IsFirst(s, bit, pos) && pos <= 8 * |s| && (!bit ==> pos >= 0)
  {
    hide Bit, Of, Skip;
    var p, found := SkipBytes(s, address, bit);
    if !found { p := SkipWords(s, bit, p); }
    var word := LoadWord(s, p);
    if bit && word == 0 {
      forall i: nat ensures !Bit(s, i) {
        if i < 8 * p { SkippedBits(s, bit, p, i); } else { ZeroWordEnds(s, p, i); }
      }
      return -1;
    }
    ghost var w: nat;
    if bit { w := WordHasOne(Padded(s, p)); } else { w := WordHasZero(s, p); }
    var j := Scan(Padded(s, p), word, bit, w);
    pos := 8 * p + j;
    PaddedBit(s, p, j);
    forall i: nat | i < pos ensures Bit(s, i) != bit {
      if i < 8 * p { SkippedBits(s, bit, p, i); } else { PaddedBit(s, p, i - 8 * p); }
    }
    InString(s, bit, pos);
  }

  /** The first place is in the string, or right after it. */
  lemma InString(s: seq<bv8>, bit: bool, pos: nat)
    requires IsFirst(s, bit, pos)
    ensures pos <= 8 * |s|
  {
    assert !Bit(s, 8 * |s|) && (pos >= 8 * |s| ==> !Bit(s, pos));
  }
}
