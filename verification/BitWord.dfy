/**
 Eight bytes as one machine word, the first byte being the most significant one, and the
 test of its bits from the left by a single bit that is shifted to the right.
 */
module BitWord {
  import opened Bits

  function Word(a: bv8, b: bv8, c: bv8, d: bv8, e: bv8, f: bv8, g: bv8, h: bv8): bv64 {
    ((a as bv64) << 56) | ((b as bv64) << 48) | ((c as bv64) << 40) | ((d as bv64) << 32)
    | ((e as bv64) << 24) | ((f as bv64) << 16) | ((g as bv64) << 8) | (h as bv64)
  }

  /** `word <<= 8; word |= *c`. */
  function Push(w: bv64, b: bv8): bv64 { (w << 8) | (b as bv64) }

  function Of(s: seq<bv8>): bv64
    requires |s| == 8
  {
    Word(s[0], s[1], s[2], s[3], s[4], s[5], s[6], s[7])
  }

  function Fold(s: seq<bv8>): bv64 {
    if s == [] then 0 else Push(Fold(s[..|s| - 1]), s[|s| - 1])
  }

  lemma PushWord(a: bv8, b: bv8, c: bv8, d: bv8, e: bv8, f: bv8, g: bv8, h: bv8, x: bv8)
    ensures Push(Word(a, b, c, d, e, f, g, h), x) == Word(b, c, d, e, f, g, h, x)
  {}

  lemma ZeroWord()
    ensures Word(0, 0, 0, 0, 0, 0, 0, 0) == 0
  {}

  lemma FoldNext(s: seq<bv8>, i: nat)
    requires i < |s|
    ensures Fold(s[..i + 1]) == Push(Fold(s[..i]), s[i])
  {
    assert s[..i + 1][..i] == s[..i];
  }

  /** The first `i` bytes at the right end of a word. */
  ghost function Entered(s: seq<bv8>, i: nat): (t: seq<bv8>)
    requires i <= |s| && i <= 8
    ensures |t| == 8
  {
    seq(8, j requires 0 <= j < 8 => if j < 8 - i then 0 else s[j - (8 - i)])
  }

  lemma PushOf(t: seq<bv8>, x: bv8, u: seq<bv8>)
    requires |t| == 8 && u == t[1..] + [x]
    ensures Push(Of(t), x) == Of(u)
  {
    hide Push, Word;
    PushWord(t[0], t[1], t[2], t[3], t[4], t[5], t[6], t[7], x);
  }

  lemma {:induction false} FoldEntered(s: seq<bv8>, i: nat)
    requires i <= |s| && i <= 8
    ensures Fold(s[..i]) == Of(Entered(s, i))
    decreases i
  {
    hide Push, Word;
    if i == 0 {
      ZeroWord();
    } else {
      FoldEntered(s, i - 1);
      FoldNext(s, i - 1);
      assert Entered(s, i) == Entered(s, i - 1)[1..] + [s[i - 1]];
      PushOf(Entered(s, i - 1), s[i - 1], Entered(s, i));
    }
  }

  /** Loading the bytes one by one. */
  lemma FoldIsWord(s: seq<bv8>)
    requires |s| == 8
    ensures Fold(s) == Of(s)
  {
    hide Fold, Of;
    FoldEntered(s, 8);
    assert s[..8] == s && Entered(s, 8) == s;
  }

  // ----- shifting the test bit or the word

  const MSB: bv64 := 0x8000_0000_0000_0000

  function Right(one: bv64): bv64 { one >> 1 }

  function Left(w: bv64): bv64 { w << 1 }

  predicate Test(one: bv64, w: bv64) { one & w != 0 }

  lemma ShiftEither(one: bv64, w: bv64)
    ensures Test(Right(one), w) == Test(one, Left(w))
  {}

  /** The test bit after `j` shifts. */
  function Top(j: nat): bv64 { if j == 0 then MSB else Right(Top(j - 1)) }

  function Rights(one: bv64, j: nat): bv64 { if j == 0 then one else Right(Rights(one, j - 1)) }

  function Lefts(w: bv64, j: nat): bv64
    decreases j
  {
    if j == 0 then w else Lefts(Left(w), j - 1)
  }

  lemma {:induction false} RightsLefts(one: bv64, w: bv64, j: nat)
    ensures Test(Rights(one, j), w) == Test(one, Lefts(w, j))
    decreases j
  {
    hide Right, Left, Test;
    if j > 0 {
      ShiftEither(Rights(one, j - 1), w);
      RightsLefts(one, Left(w), j - 1);
    }
  }

  lemma {:induction false} TopIsRights(j: nat)
    ensures Top(j) == Rights(MSB, j)
  {
    hide Right;
    if j > 0 { TopIsRights(j - 1); }
  }

  lemma {:induction false} LeftsAdd(w: bv64, i: nat, j: nat)
    ensures Lefts(w, i + j) == Lefts(Lefts(w, i), j)
    decreases i
  {
    hide Left;
    if i > 0 { LeftsAdd(Left(w), i - 1, j); }
  }

  // ----- within the first byte

  function Hi(w: bv64): bv8 { (w >> 56) as bv8 }

  function By(w: bv64, t: nat): bv64
    requires t <= 8
  {
    if t == 0 then w else if t == 1 then w << 1 else if t == 2 then w << 2 else if t == 3 then w << 3
    else if t == 4 then w << 4 else if t == 5 then w << 5 else if t == 6 then w << 6 else if t == 7 then w << 7
      else w << 8
  }

  lemma ByNext(w: bv64, t: nat)
    requires t < 8
    ensures By(w, t + 1) == Left(By(w, t))
  {
    LeftOf(w);
    hide Left;
  }

  lemma LeftOf(w: bv64)
    ensures Left(w) == w << 1 && Left(w << 1) == w << 2 && Left(w << 2) == w << 3 && Left(w << 3) == w << 4
    ensures Left(w << 4) == w << 5 && Left(w << 5) == w << 6 && Left(w << 6) == w << 7 && Left(w << 7) == w << 8
  {}

  lemma {:induction false} LeftsBy(w: bv64, t: nat)
    requires t <= 8
    ensures Lefts(w, t) == By(w, t)
    decreases t
  {
    hide Left, By, Lefts;
    if t == 0 {
      ByNone(w);
    } else {
      LeftsBy(w, t - 1);
      LeftsAdd(w, t - 1, 1);
      ByNext(w, t - 1);
      LeftsOne(Lefts(w, t - 1));
    }
  }

  lemma ByNone(w: bv64)
    ensures By(w, 0) == w && Lefts(w, 0) == w
  {}

  lemma LeftsOne(w: bv64)
    ensures Lefts(w, 1) == Left(w)
  {}

  lemma FirstByte(w: bv64, t: nat)
    requires t < 8
    ensures Test(MSB, By(w, t)) == BitOf(Hi(w), t)
  {}

  lemma HiWord(a: bv8, b: bv8, c: bv8, d: bv8, e: bv8, f: bv8, g: bv8, h: bv8)
    ensures Hi(Word(a, b, c, d, e, f, g, h)) == a
  {}

  lemma NextByte(a: bv8, b: bv8, c: bv8, d: bv8, e: bv8, f: bv8, g: bv8, h: bv8)
    ensures By(Word(a, b, c, d, e, f, g, h), 8) == Word(b, c, d, e, f, g, h, 0)
  {}

  // ----- the bits of the word are those of the bytes

  lemma {:induction false} LeftsBit(s: seq<bv8>, j: nat)
    requires |s| == 8 && j < 64
    ensures Test(MSB, Lefts(Of(s), j)) == Bit(s, j)
    decreases j
  {
    hide Test, Lefts, Word, Hi, By, BitOf;
    if j < 8 {
      LeftsBy(Of(s), j);
      FirstByte(Of(s), j);
      HiWord(s[0], s[1], s[2], s[3], s[4], s[5], s[6], s[7]);
    } else {
      var t := s[1..] + [0];
      LeftsAdd(Of(s), 8, j - 8);
      LeftsBy(Of(s), 8);
      NextByte(s[0], s[1], s[2], s[3], s[4], s[5], s[6], s[7]);
      LeftsBit(t, j - 8);
      assert t[(j - 8) / 8] == s[j / 8];
    }
  }

  lemma WordBit(s: seq<bv8>, j: nat)
    requires |s| == 8 && j < 64
    ensures Test(Top(j), Of(s)) == Bit(s, j)
  {
    hide *;
    TopIsRights(j);
    RightsLefts(MSB, Of(s), j);
    LeftsBit(s, j);
  }

  /** After 64 shifts the test bit is gone, and not before. */
  lemma TopEnds(j: nat)
    requires j <= 64
    ensures Top(j) == 0 <==> j == 64
  {
    hide Lefts, Top, Bit;
    if j < 64 {
      var full := [0xFF, 0xFF, 0xFF, 0xFF, 0xFF, 0xFF, 0xFF, 0xFF];
      WordBit(full, j);
      FullBit(full, j);
    } else {
      TopIsRights(64);
      RightsLefts(MSB, Top(64), 64);
      AllOut(Top(64));
    }
  }

  lemma FullBit(s: seq<bv8>, j: nat)
    requires |s| == 8 && j < 64 && forall i :: 0 <= i < 8 ==> s[i] == 0xFF
    ensures Bit(s, j)
  {}

  /** Every word is made of eight bytes. */
  lemma Bytes(w: bv64) returns (s: seq<bv8>)
    ensures |s| == 8 && Of(s) == w
  {
    s := [(w >> 56) as bv8, ((w >> 48) & 0xFF) as bv8, ((w >> 40) & 0xFF) as bv8, ((w >> 32) & 0xFF) as bv8,
          ((w >> 24) & 0xFF) as bv8, ((w >> 16) & 0xFF) as bv8, ((w >> 8) & 0xFF) as bv8, (w & 0xFF) as bv8];
  }

  lemma {:induction false} Out(s: seq<bv8>, k: nat)
    requires |s| == 8 && k <= 8 && forall i :: 8 - k <= i < 8 ==> s[i] == 0
    ensures Lefts(Of(s), 8 * (8 - k)) == 0
    decreases 8 - k
  {
    hide Word, Lefts, By;
    if k == 8 {
      LeftsNone(Of(s));
      ZeroWord();
    } else {
      var t := s[1..] + [0];
      LeftsAdd(Of(s), 8, 8 * (7 - k));
      LeftsBy(Of(s), 8);
      NextByte(s[0], s[1], s[2], s[3], s[4], s[5], s[6], s[7]);
      Out(t, k + 1);
    }
  }

  lemma LeftsNone(w: bv64)
    ensures Lefts(w, 0) == w
  {}

  lemma AllOut(w: bv64)
    ensures Lefts(w, 64) == 0
  {
    hide Of, Lefts;
    var s := Bytes(w);
    Out(s, 0);
  }

  // ----- nothing found

  lemma ByteFull(b: bv8, bit: bool)
    requires forall j :: 0 <= j < 8 ==> BitOf(b, j) == bit
    ensures b == if bit then 0xFF else 0x00
  {
    assert BitOf(b, 0) == bit && BitOf(b, 1) == bit && BitOf(b, 2) == bit && BitOf(b, 3) == bit;
    assert BitOf(b, 4) == bit && BitOf(b, 5) == bit && BitOf(b, 6) == bit && BitOf(b, 7) == bit;
  }

  /** A byte that is not all ones, or not all zeroes, has the other bit somewhere. */
  lemma OtherBit(b: bv8, bit: bool) returns (j: nat)
    requires b != if bit then 0x00 else 0xFF
    ensures j < 8 && BitOf(b, j) == bit
  {
    hide BitOf;
    if forall i :: 0 <= i < 8 ==> BitOf(b, i) == !bit {
      ByteFull(b, !bit);
      assert false;
    }
    j :| 0 <= j < 8 && BitOf(b, j) == bit;
  }
}
