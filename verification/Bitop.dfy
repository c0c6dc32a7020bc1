/**
 BITOP (bitops.c): the vector path, the four-word path and the byte path on the strings.
 A vector and four words are 32 bytes, on which the operations work byte by byte.
 */
module Bitop {
  import opened Bits
  import opened BitRange
  import opened BitopBytes

  const STEP: nat := 32

  /** The byte of each source at `b`, zero beyond its end. */
  function Column(src: seq<seq<bv8>>, b: nat): (col: seq<bv8>)
    ensures |col| == |src|
  {
    seq(|src|, k requires 0 <= k < |src| => if b < |src[k]| then src[k][b] else 0)
  }

  /** The result at a place of the bit arrays. */
  predicate IdealBit(op: Op, src: seq<seq<bv8>>, i: nat) requires src != [] { Ideal(op, Column(src, i / 8), i % 8) }

  predicate AllLong(src: seq<seq<bv8>>, n: nat) { forall k :: 0 <= k < |src| ==> n <= |src[k]| }

  /** What the command demands of the number of sources. */
  predicate Arity(op: Op, n: nat) { n > 0 && (op == OpNot ==> n == 1) && (OfRest(op) ==> n > 1) }

  // ----- the vector path

  /** A register of 32 bytes. */
  function Load(s: seq<bv8>, at: nat): (r: seq<bv8>)
    requires at + STEP <= |s|
    ensures |r| == STEP
  {
    s[at..at + STEP]
  }

  /** The accumulators after the first `i` sources, for the block at `at`. */
  ghost predicate BlockIs(op: Op, src: seq<seq<bv8>>, at: nat, i: nat, x: seq<bv8>, common: seq<bv8>) {
    && 0 < i <= |src| && |x| == STEP && |common| == STEP
    && forall b :: 0 <= b < STEP ==> Acc(x[b], common[b]) == After(op, Column(src, at + b), i)
  }

  /** One source into the accumulators. */
  method BlockStep(op: Op, src: seq<seq<bv8>>, at: nat, i: nat, x: seq<bv8>, common: seq<bv8>)
    returns (x': seq<bv8>, common': seq<bv8>)
    requires BlockIs(op, src, at, i, x, common) && i < |src| && at + STEP <= |src[i]|
    ensures BlockIs(op, src, at, i + 1, x', common')
  {
    hide Step;
    var key := Load(src[i], at);
    x' := seq(STEP, b requires 0 <= b < STEP => Step(op, Acc(x[b], common[b]), key[b]).x);
    common' := seq(STEP, b requires 0 <= b < STEP => Step(op, Acc(x[b], common[b]), key[b]).common);
    forall b | 0 <= b < STEP ensures Acc(x'[b], common'[b]) == After(op, Column(src, at + b), i + 1) {
      assert Column(src, at + b)[i] == key[b];
    }
  }

  /** What the first pass stores. */
  function Stored(op: Op, a: Acc): bv8 {
    match op
    case OpNot => Not(a.x)
    case OpOne => AndNot(a.x, a.common)
    case _ => a.x
  }

  /** The second pass of DIFF, DIFF1 and ANDOR. */
  function Final(op: Op, first: bv8, d: bv8): bv8 {
    match op
    case OpDiff => AndNot(first, d)
    case OpDiff1 => AndNot(d, first)
    case OpAndOr => And(first, d)
    case _ => d
  }

  lemma TwoPasses(op: Op, a: Acc, first: bv8)
    ensures Final(op, first, Stored(op, a)) == Finish(op, a, first)
  {
    hide And, AndNot, Not;
  }

  /** The first pass over the first `n` bytes is done. */
  ghost predicate FirstPass(op: Op, src: seq<seq<bv8>>, res: seq<bv8>, n: nat) {
    && src != [] && n <= |res|
    && forall b :: 0 <= b < n ==> res[b] == Stored(op, After(op, Column(src, b), |src|))
  }

  ghost predicate Done(op: Op, src: seq<seq<bv8>>, res: seq<bv8>, n: nat) {
    && src != [] && n <= |res|
    && forall b :: 0 <= b < n ==> res[b] == Fast(op, Column(src, b))
  }

  /** The bytes the first pass starts from: the first source, or zeroes. */
  ghost predicate Primed(op: Op, src: seq<seq<bv8>>, res: seq<bv8>, from: nat, to: nat) {
    && src != [] && to <= |res| && to <= |src[0]|
    && forall b :: from <= b < to ==> res[b] == Start(op, src[0][b]).x
  }

  method Prime(op: Op, src: seq<seq<bv8>>, res: array<bv8>, n: nat)
    requires src != [] && n <= |src[0]| && n <= res.Length && forall b :: 0 <= b < n ==> res[b] == 0
    modifies res
    ensures Primed(op, src, res[..], 0, n)
  {
    if !OfRest(op) {
      forall b | 0 <= b < n { res[b] := src[0][b]; }
    }
  }

  lemma BlockStart(op: Op, src: seq<seq<bv8>>, res: seq<bv8>, at: nat, to: nat, x: seq<bv8>, common: seq<bv8>)
    requires Primed(op, src, res, at, to) && at + STEP <= to && x == res[at..at + STEP]
    requires |common| == STEP && forall b :: 0 <= b < STEP ==> common[b] == 0
    ensures BlockIs(op, src, at, 1, x, common)
  {
    forall b | 0 <= b < STEP ensures Acc(x[b], common[b]) == After(op, Column(src, at + b), 1) {
      assert x[b] == res[at + b];
      assert Column(src, at + b)[0] == src[0][at + b];
    }
  }

  /** 32 bytes at a time, in registers. */
  method VectorBlock(op: Op, src: seq<seq<bv8>>, res: seq<bv8>, at: nat, to: nat) returns (out: seq<bv8>)
    requires Primed(op, src, res, at, to) && at + STEP <= to && AllLong(src, to)
    ensures |out| == STEP && forall b :: 0 <= b < STEP ==> out[b] == Stored(op, After(op, Column(src, at + b), |src|))
  {
    hide Stored, After, Column;
    var x, common := Load(res, at), seq(STEP, _ => 0);
    BlockStart(op, src, res, at, to, x, common);
    for i := 1 to |src|
      invariant BlockIs(op, src, at, i, x, common)
    {
      x, common := BlockStep(op, src, at, i, x, common);
    }
    out := seq(STEP, b requires 0 <= b < STEP => Stored(op, Acc(x[b], common[b])));
  }

  /** The second pass, in place. */
  method SecondPass(op: Op, src: seq<seq<bv8>>, res: array<bv8>, n: nat)
    requires FirstPass(op, src, res[..], n) && AllLong(src, n)
    modifies res
    ensures Done(op, src, res[..], n)
  {
    hide After, Final, Stored, Finish;
    ghost var was := res[..];
    forall b | 0 <= b < n { res[b] := Final(op, src[0][b], res[b]); }
    forall b | 0 <= b < n ensures res[b] == Fast(op, Column(src, b)) {
      var a := After(op, Column(src, b), |src|);
      assert was[b] == Stored(op, a);
      TwoPasses(op, a, src[0][b]);
      assert Column(src, b)[0] == src[0][b];
    }
  }

  lemma PassGrows(op: Op, src: seq<seq<bv8>>, res: seq<bv8>, at: nat, out: seq<bv8>, now: seq<bv8>, to: nat)
    requires FirstPass(op, src, res, at) && Primed(op, src, res, at, to) && at + STEP <= to
    requires |out| == STEP && forall b :: 0 <= b < STEP ==> out[b] == Stored(op, After(op, Column(src, at + b), |src|))
    requires now == res[..at] + out + res[at + STEP..]
    ensures FirstPass(op, src, now, at + STEP) && Primed(op, src, now, at + STEP, to)
  {
    hide Stored, After, Column, Start;
    forall b | 0 <= b < at + STEP ensures now[b] == Stored(op, After(op, Column(src, b), |src|)) {
      if b < at { assert now[b] == res[b]; } else { assert now[b] == out[b - at]; }
    }
    forall b | at + STEP <= b < to ensures now[b] == Start(op, src[0][b]).x { assert now[b] == res[b]; }
  }

  method Store(res: array<bv8>, at: nat, out: seq<bv8>)
    requires |out| == STEP && at + STEP <= res.Length
    modifies res
    ensures res[..] == old(res[..at]) + out + old(res[at + STEP..])
  {
    forall b | at <= b < at + STEP { res[b] := out[b - at]; }
  }

  /** `bitopCommandAVX`. */
  method VectorPath(op: Op, src: seq<seq<bv8>>, res: array<bv8>, minlen: nat) returns (processed: nat)
    requires src != [] && AllLong(src, minlen) && minlen <= res.Length
    requires forall b :: 0 <= b < minlen ==> res[b] == 0
    modifies res
    ensures processed <= minlen && minlen - processed < STEP && Done(op, src, res[..], processed)
  {
    hide Stored, After, Column, Fast, Primed, FirstPass;
    processed := 0;
    if minlen < STEP { return; }
    Prime(op, src, res, minlen);
    PassNone(op, src, res[..]);
    while minlen - processed >= STEP
      invariant processed <= minlen
      invariant FirstPass(op, src, res[..], processed) && Primed(op, src, res[..], processed, minlen)
    {
      ghost var was := res[..];
      var out := VectorBlock(op, src, res[..], processed, minlen);
      Store(res, processed, out);
      PassGrows(op, src, was, processed, out, res[..], minlen);
      processed := processed + STEP;
    }
    SecondPass(op, src, res, processed);
  }

  lemma PassNone(op: Op, src: seq<seq<bv8>>, res: seq<bv8>)
    requires src != []
    ensures FirstPass(op, src, res, 0)
  {}

  // ----- the four-word path

  lemma StepAlone(op: Op, a: Acc, k: bv8)
    ensures Step(op, a.(common := 0), k).x == Step(op, a, k).x
  {
    hide And, Or, Xor;
  }

  /** One source into the words of the result, in place; `common` is `lcommon_bits`. */
  method WordStep(op: Op, src: seq<seq<bv8>>, res: array<bv8>, at: nat, i: nat, common: array<bv8>)
    requires common != res && common.Length == STEP && at + STEP <= res.Length
    requires BlockIs(op, src, at, i, res[at..at + STEP], common[..]) && i < |src| && at + STEP <= |src[i]|
    modifies res, common
    ensures BlockIs(op, src, at, i + 1, res[at..at + STEP], common[..])
    ensures res[..at] == old(res[..at]) && res[at + STEP..] == old(res[at + STEP..])
  {
    hide Step;
    ghost var x, c := res[at..at + STEP], common[..];
    forall b | 0 <= b < STEP { common[b] := Step(op, Acc(res[at + b], common[b]), src[i][at + b]).common; }
    forall b | at <= b < at + STEP { res[b] := Step(op, Acc(res[b], 0), src[i][b]).x; }
    ghost var x', c' := res[at..at + STEP], common[..];
    forall b | 0 <= b < STEP ensures Acc(x'[b], c'[b]) == After(op, Column(src, at + b), i + 1) {
      assert x[b] == old(res[at + b]);
      assert Column(src, at + b)[i] == src[i][at + b];
      assert Acc(x[b], c[b]) == After(op, Column(src, at + b), i);
      StepAlone(op, Acc(x[b], c[b]), src[i][at + b]);
    }
  }

  /** 32 bytes at a time, in the memory of the result. */
  method WordBlock(op: Op, src: seq<seq<bv8>>, res: array<bv8>, at: nat, to: nat)
    requires FirstPass(op, src, res[..], at) && Primed(op, src, res[..], at, to) && at + STEP <= to && AllLong(src, to)
    modifies res
    ensures FirstPass(op, src, res[..], at + STEP) && Primed(op, src, res[..], at + STEP, to)
  {
    hide Stored, After, Column, Primed, FirstPass, BlockIs;
    var common := new bv8[STEP](_ => 0);
    ghost var was := res[..];
    PrimedRange(op, src, was, at, to);
    BlockStart(op, src, was, at, to, res[at..at + STEP], common[..]);
    for i := 1 to |src|
      invariant BlockIs(op, src, at, i, res[at..at + STEP], common[..])
      invariant res[..at] == was[..at] && res[at + STEP..] == was[at + STEP..]
    {
      WordStep(op, src, res, at, i, common);
    }
    ghost var x, c := res[at..at + STEP], common[..];
    forall b | at <= b < at + STEP { res[b] := Stored(op, Acc(res[b], common[b - at])); }
    ghost var out := res[at..at + STEP];
    assert res[..at] == was[..at] && res[at + STEP..] == was[at + STEP..];
    assert res[..] == was[..at] + out + was[at + STEP..];
    BlockStored(op, src, at, x, c, out);
    PassGrows(op, src, was, at, out, res[..], to);
  }

  lemma PrimedRange(op: Op, src: seq<seq<bv8>>, res: seq<bv8>, from: nat, to: nat)
    requires Primed(op, src, res, from, to)
    ensures src != [] && to <= |res|
  {}

  lemma BlockStored(op: Op, src: seq<seq<bv8>>, at: nat, x: seq<bv8>, c: seq<bv8>, out: seq<bv8>)
    requires src != [] && BlockIs(op, src, at, |src|, x, c)
    requires |out| == STEP && |x| == STEP && |c| == STEP && forall b :: 0 <= b < STEP ==>
      out[b] == Stored(op, Acc(x[b], c[b]))
    ensures forall b :: 0 <= b < STEP ==> out[b] == Stored(op, After(op, Column(src, at + b), |src|))
  {
    hide Stored, After, Column;
  }

  method WordPath(op: Op, src: seq<seq<bv8>>, res: array<bv8>, minlen: nat) returns (processed: nat)
    requires src != [] && AllLong(src, minlen) && minlen <= res.Length
    requires forall b :: 0 <= b < minlen ==> res[b] == 0
    modifies res
    ensures processed <= minlen && minlen - processed < STEP && Done(op, src, res[..], processed)
  {
    hide Stored, After, Column, Fast, Primed, FirstPass;
    processed := 0;
    if minlen < STEP { return; }
    Prime(op, src, res, minlen);
    PassNone(op, src, res[..]);
    while minlen - processed >= STEP
      invariant processed <= minlen
      invariant FirstPass(op, src, res[..], processed) && Primed(op, src, res[..], processed, minlen)
    {
      WordBlock(op, src, res, processed, minlen);
      processed := processed + STEP;
    }
    SecondPass(op, src, res, processed);
  }

  // ----- the command

  function MaxLen(src: seq<seq<bv8>>): nat {
    if src == [] then 0 else var m := MaxLen(src[..|src| - 1]); if |src[|src| - 1]| > m then |src[|src| - 1]| else m
  }

  /** The length of the longest source. */
  lemma {:induction false} MaxLenIs(src: seq<seq<bv8>>)
    ensures forall i :: 0 <= i < |src| ==> |src[i]| <= MaxLen(src)
    ensures if src == [] then MaxLen(src) == 0 else exists i :: 0 <= i < |src| && |src[i]| == MaxLen(src)
    decreases |src|
  {
    if src != [] {
      var front := src[..|src| - 1];
      MaxLenIs(front);
      if MaxLen(src) == |src[|src| - 1]| {
        assert |src[|src| - 1]| == MaxLen(src);
      } else {
        var i :| 0 <= i < |front| && |front[i]| == MaxLen(front);
        assert src[i] == front[i];
      }
    }
  }

  /** The lengths, gathered key by key. */
  method Lengths(src: seq<seq<bv8>>) returns (minlen: nat, maxlen: nat)
    requires src != []
    ensures AllLong(src, minlen) && minlen <= maxlen && maxlen == MaxLen(src)
  {
    minlen, maxlen := 0, 0;
    for j := 0 to |src|
      invariant maxlen == MaxLen(src[..j]) && minlen <= maxlen
      invariant forall k :: 0 <= k < j ==> minlen <= |src[k]|
    {
      assert src[..j + 1][..j] == src[..j];
      if |src[j]| > maxlen { maxlen := |src[j]|; }
      if j == 0 || |src[j]| < minlen { minlen := |src[j]|; }
    }
    assert src[..|src|] == src;
  }

  /** The byte path, from `from` on. */
  method BytePath(op: Op, src: seq<seq<bv8>>, res: array<bv8>, from: nat)
    requires Arity(op, |src|) && Done(op, src, res[..], from)
    modifies res
    ensures forall b, j: nat :: 0 <= b < res.Length && j < 8 ==> (BitOf(res[b], j) <==> Ideal(op, Column(src, b), j))
  {
    hide Fast, Column, Ideal, BitOf;
    forall b, j: nat | 0 <= b < from && j < 8 ensures BitOf(res[b], j) <==> Ideal(op, Column(src, b), j) {
      FastIsIdeal(op, Column(src, b), j);
    }
    for k := from to res.Length
      invariant forall b, j: nat :: 0 <= b < k && j < 8 ==> (BitOf(res[b], j) <==> Ideal(op, Column(src, b), j))
    {
      var byte := SlowByte(op, Column(src, k));
      res[k] := byte;
    }
  }

  /**
   `bitopCommand`: on every path, and for sources of any lengths, each bit of the result is the operation on the
   bits of the zero-padded sources at its place, and the result is as long as the longest source.
   */
  method BitopOf(op: Op, src: seq<seq<bv8>>, useVector: bool, useWords: bool) returns (r: seq<bv8>)
    requires Arity(op, |src|)
    ensures |r| == MaxLen(src) && forall i: nat :: i < 8 * |r| ==> (Bit(r, i) <==> IdealBit(op, src, i))
  {
    hide Ideal, BitOf, Done;
    var minlen, maxlen := Lengths(src);
    var res := new bv8[maxlen](_ => 0);
    var j := 0;
    var left := minlen;
    if useVector {
      j := VectorPath(op, src, res, minlen);
      left := minlen - j;
    } else {
      DoneNone(op, src, res[..]);
    }
    if useWords && left >= STEP {
      assert !useVector;
      j := WordPath(op, src, res, minlen);
    }
    BytePath(op, src, res, j);
    r := res[..];
  }

  lemma DoneNone(op: Op, src: seq<seq<bv8>>, res: seq<bv8>)
    requires src != []
    ensures Done(op, src, res, 0)
  {}
}
