/**
 One column of BITOP (bitops.c): a byte from each source, the eight operations on them in
 the two forms the command uses, and what a bit of the result says about the sources.
 */
module BitopBytes {
  import opened Bits
  import opened BitRange

  datatype Op = OpAnd | OpOr | OpXor | OpNot | OpDiff | OpDiff1 | OpAndOr | OpOne

  predicate OfRest(op: Op) { op == OpDiff || op == OpDiff1 || op == OpAndOr }

  /** How many of the bytes have bit `j` set. */
  function CountOn(col: seq<bv8>, j: nat): nat
    requires j < 8
  {
    if col == [] then 0 else CountOn(col[..|col| - 1], j) + One(BitOf(col[|col| - 1], j))
  }

  /** The meaning of the operations, bit by bit. */
  predicate Ideal(op: Op, col: seq<bv8>, j: nat)
    requires col != [] && j < 8
  {
    match op
    case OpAnd => CountOn(col, j) == |col|
    case OpOr => CountOn(col, j) > 0
    case OpXor => CountOn(col, j) % 2 == 1
    case OpNot => !BitOf(col[0], j)
    case OpDiff => BitOf(col[0], j) && CountOn(col[1..], j) == 0
    case OpDiff1 => !BitOf(col[0], j) && CountOn(col[1..], j) > 0
    case OpAndOr => BitOf(col[0], j) && CountOn(col[1..], j) > 0
    case OpOne => CountOn(col, j) == 1
  }

  lemma {:induction false} CountRange(col: seq<bv8>, j: nat)
    requires j < 8
    ensures CountOn(col, j) <= |col|
  {
    hide BitOf;
    if col != [] { CountRange(col[..|col| - 1], j); }
  }

  lemma CountNext(col: seq<bv8>, i: nat, j: nat)
    requires i < |col| && j < 8
    ensures CountOn(col[..i + 1], j) == CountOn(col[..i], j) + One(BitOf(col[i], j))
  {
    hide BitOf;
    assert col[..i + 1][..i] == col[..i];
  }

  // ----- operations on bytes

  function Xor(a: bv8, b: bv8): bv8 { a ^ b }

  function Not(a: bv8): bv8 { !a }

  lemma XorMask(a: bv8, b: bv8, m: bv8)
    requires Single(m)
    ensures Xor(a, b) & m != 0 <==> (a & m != 0) != (b & m != 0)
  {}

  lemma XorBit(a: bv8, b: bv8, j: nat)
    requires j < 8
    ensures BitOf(Xor(a, b), j) <==> BitOf(a, j) != BitOf(b, j)
  {
    hide Mask, Single, Xor;
    MaskIsSingle(j);
    XorMask(a, b, Mask(j));
  }

  lemma NotBit(a: bv8, j: nat)
    requires j < 8
    ensures BitOf(Not(a), j) <==> !BitOf(a, j)
  {}

  lemma ZeroBit(j: nat)
    requires j < 8
    ensures !BitOf(0, j)
  {}

  lemma FullBit(j: nat)
    requires j < 8
    ensures BitOf(0xFF, j)
  {}

  // ----- the fast form: no early exit, the final step at the end

  /** The accumulator, and for ONE the bits seen in more than one source. */
  datatype Acc = Acc(x: bv8, common: bv8)

  function Start(op: Op, first: bv8): Acc { Acc(if OfRest(op) then 0 else first, 0) }

  function Step(op: Op, a: Acc, b: bv8): Acc {
    match op
    case OpAnd => a.(x := And(a.x, b))
    case OpXor => a.(x := Xor(a.x, b))
    case OpNot => a
    case OpOne => Acc(Xor(a.x, b), Or(a.common, And(a.x, b)))
    case _ => a.(x := Or(a.x, b))
  }

  function Finish(op: Op, a: Acc, first: bv8): bv8 {
    match op
    case OpNot => Not(a.x)
    case OpDiff => AndNot(first, a.x)
    case OpDiff1 => AndNot(a.x, first)
    case OpAndOr => And(first, a.x)
    case OpOne => AndNot(a.x, a.common)
    case _ => a.x
  }

  /** The accumulator after the first `i` sources. */
  function After(op: Op, col: seq<bv8>, i: nat): Acc
    requires 0 < i <= |col|
  {
    if i == 1 then Start(op, col[0]) else Step(op, After(op, col, i - 1), col[i - 1])
  }

  function Fast(op: Op, col: seq<bv8>): bv8 requires col != [] { Finish(op, After(op, col, |col|), col[0]) }

  /** What a bit of the accumulator knows of the first `i` sources. */
  ghost predicate Knows(op: Op, a: Acc, col: seq<bv8>, i: nat, j: nat)
    requires 0 < i <= |col| && j < 8
  {
    var n := CountOn(col[..i], j);
    match op
    case OpAnd => BitOf(a.x, j) <==> n == i
    case OpOr => BitOf(a.x, j) <==> n > 0
    case OpXor => BitOf(a.x, j) <==> n % 2 == 1
    case OpNot => BitOf(a.x, j) <==> BitOf(col[0], j)
    case OpOne => (BitOf(a.x, j) <==> n % 2 == 1) && (BitOf(a.common, j) <==> n >= 2)
    case _ => BitOf(a.x, j) <==> n > One(BitOf(col[0], j))
  }

  lemma CountFirst(col: seq<bv8>, j: nat)
    requires col != [] && j < 8
    ensures CountOn(col[..1], j) == One(BitOf(col[0], j))
  {
    hide BitOf;
    assert col[..1][..0] == [];
  }

  lemma {:induction false} CountAtLeast(col: seq<bv8>, i: nat, j: nat)
    requires 0 < i <= |col| && j < 8
    ensures One(BitOf(col[0], j)) <= CountOn(col[..i], j) <= i
    decreases i
  {
    hide BitOf, CountOn;
    CountFirst(col, j);
    if i > 1 {
      CountAtLeast(col, i - 1, j);
      CountNext(col, i - 1, j);
    }
  }

  lemma KnowsStart(op: Op, col: seq<bv8>, j: nat)
    requires col != [] && j < 8
    ensures Knows(op, Start(op, col[0]), col, 1, j)
  {
    hide BitOf, CountOn;
    CountFirst(col, j);
    ZeroBit(j);
  }

  lemma KnowsStep(op: Op, a: Acc, col: seq<bv8>, i: nat, j: nat)
    requires 0 < i < |col| && j < 8 && Knows(op, a, col, i, j)
    ensures Knows(op, Step(op, a, col[i]), col, i + 1, j)
  {
    hide BitOf, CountOn, And, Or, Xor;
    CountNext(col, i, j);
    CountAtLeast(col, i, j);
    AndBit(a.x, col[i], j);
    OrBit(a.x, col[i], j);
    XorBit(a.x, col[i], j);
    OrBit(a.common, And(a.x, col[i]), j);
  }

  lemma {:induction false} AfterKnows(op: Op, col: seq<bv8>, i: nat, j: nat)
    requires 0 < i <= |col| && j < 8
    ensures Knows(op, After(op, col, i), col, i, j)
    decreases i
  {
    hide Knows, Step, Start;
    if i == 1 {
      KnowsStart(op, col, j);
    } else {
      AfterKnows(op, col, i - 1, j);
      KnowsStep(op, After(op, col, i - 1), col, i - 1, j);
    }
  }

  lemma {:induction false} CountTail(col: seq<bv8>, j: nat)
    requires col != [] && j < 8
    ensures CountOn(col, j) == One(BitOf(col[0], j)) + CountOn(col[1..], j)
    decreases |col|
  {
    hide BitOf;
    if |col| == 1 {
      assert col[..0] == [] && col[1..] == [];
    } else {
      var front := col[..|col| - 1];
      CountTail(front, j);
      assert front[1..] == col[1..][..|col| - 2];
    }
  }

  /** Whatever the number of sources, the fast form computes the meaning of the operation. */
  lemma FastIsIdeal(op: Op, col: seq<bv8>, j: nat)
    requires col != [] && j < 8
    ensures BitOf(Fast(op, col), j) <==> Ideal(op, col, j)
  {
    hide BitOf, CountOn, And, AndNot, Not, After;
    var a := After(op, col, |col|);
    AfterKnows(op, col, |col|, j);
    assert col[..|col|] == col;
    CountTail(col, j);
    CountRange(col[1..], j);
    NotBit(a.x, j);
    AndNotBit(col[0], a.x, j);
    AndNotBit(a.x, col[0], j);
    AndBit(col[0], a.x, j);
    AndNotBit(a.x, a.common, j);
  }

  // ----- the form with early exit

  datatype Slow = Slow(output: bv8, disjunction: bv8, common: bv8)

  function SlowStart(op: Op, first: bv8): Slow { Slow(if op == OpNot then Not(first) else first, 0, 0) }

  function SlowStep(op: Op, a: Slow, b: bv8): Slow {
    match op
    case OpAnd => a.(output := And(a.output, b))
    case OpOr => a.(output := Or(a.output, b))
    case OpXor => a.(output := Xor(a.output, b))
    case OpOne =>
      var common := Or(a.common, And(a.output, b));
      Slow(AndNot(Xor(a.output, b), common), a.disjunction, common)
    case OpNot => a
    case _ => a.(disjunction := Or(a.disjunction, b))
  }

  /** No further source can change the result. */
  predicate Skip(op: Op, a: Slow) {
    match op
    case OpAnd => a.output == 0
    case OpOr => a.output == 0xFF
    case OpXor => false
    case OpNot => false
    case OpOne => a.common == 0xFF
    case _ => a.disjunction == 0xFF
  }

  function SlowFinish(op: Op, a: Slow): bv8 {
    match op
    case OpDiff => AndNot(a.output, a.disjunction)
    case OpDiff1 => AndNot(a.disjunction, a.output)
    case OpAndOr => And(a.output, a.disjunction)
    case _ => a.output
  }

  ghost predicate SlowKnows(op: Op, a: Slow, col: seq<bv8>, i: nat, j: nat)
    requires 0 < i <= |col| && j < 8
  {
    var n := CountOn(col[..i], j);
    match op
    case OpAnd => BitOf(a.output, j) <==> n == i
    case OpOr => BitOf(a.output, j) <==> n > 0
    case OpXor => BitOf(a.output, j) <==> n % 2 == 1
    case OpNot => BitOf(a.output, j) <==> !BitOf(col[0], j)
    case OpOne => (BitOf(a.output, j) <==> n == 1) && (BitOf(a.common, j) <==> n >= 2)
    case _ => (BitOf(a.output, j) <==> BitOf(col[0], j)) && (BitOf(a.disjunction, j) <==> n > One(BitOf(col[0], j)))
  }

  lemma SlowKnowsStart(op: Op, col: seq<bv8>, j: nat)
    requires col != [] && j < 8
    ensures SlowKnows(op, SlowStart(op, col[0]), col, 1, j)
  {
    hide BitOf, CountOn, Not;
    CountFirst(col, j);
    ZeroBit(j);
    NotBit(col[0], j);
  }

  lemma SlowKnowsStep(op: Op, a: Slow, col: seq<bv8>, i: nat, j: nat)
    requires 0 < i < |col| && j < 8 && SlowKnows(op, a, col, i, j)
    ensures SlowKnows(op, SlowStep(op, a, col[i]), col, i + 1, j)
  {
    hide BitOf, CountOn, And, Or, Xor, AndNot;
    CountNext(col, i, j);
    CountAtLeast(col, i, j);
    AndBit(a.output, col[i], j);
    OrBit(a.output, col[i], j);
    OrBit(a.disjunction, col[i], j);
    XorBit(a.output, col[i], j);
    var common := Or(a.common, And(a.output, col[i]));
    OrBit(a.common, And(a.output, col[i]), j);
    AndNotBit(Xor(a.output, col[i]), common, j);
  }

  lemma {:induction false} CountGrows(col: seq<bv8>, i: nat, k: nat, j: nat)
    requires i <= k <= |col| && j < 8
    ensures CountOn(col[..i], j) <= CountOn(col[..k], j) <= CountOn(col[..i], j) + (k - i)
    decreases k
  {
    hide BitOf, CountOn;
    if i < k {
      CountGrows(col, i, k - 1, j);
      CountNext(col, k - 1, j);
    }
  }

  /** At an early exit, or at the end, the bit is what it should be for all sources. */
  lemma SlowSettles(op: Op, a: Slow, col: seq<bv8>, i: nat, j: nat)
    requires 0 < i <= |col| && j < 8 && SlowKnows(op, a, col, i, j) && (i == |col| || Skip(op, a))
    requires op == OpNot ==> |col| == 1
    ensures BitOf(SlowFinish(op, a), j) <==> Ideal(op, col, j)
  {
    hide BitOf, CountOn, And, AndNot, Or, Xor;
    assert col[..|col|] == col;
    CountGrows(col, i, |col|, j);
    CountAtLeast(col, i, j);
    CountTail(col, j);
    ZeroBit(j);
    FullBit(j);
    AndNotBit(a.output, a.disjunction, j);
    AndNotBit(a.disjunction, a.output, j);
    AndBit(a.output, a.disjunction, j);
  }

  /** One byte of the result, source by source. */
  method SlowByte(op: Op, col: seq<bv8>) returns (r: bv8)
    requires col != [] && (op == OpNot ==> |col| == 1)
    ensures forall j: nat :: j < 8 ==> (BitOf(r, j) <==> Ideal(op, col, j))
  {
    hide BitOf, SlowStep, SlowFinish, SlowKnows, Ideal, Skip;
    var a := SlowStart(op, col[0]);
    forall j: nat | j < 8 ensures SlowKnows(op, a, col, 1, j) { SlowKnowsStart(op, col, j); }
    var i := 1;
    while i < |col|
      invariant 0 < i <= |col|
      invariant forall j: nat :: j < 8 ==> SlowKnows(op, a, col, i, j)
    {
      var next, k := SlowStep(op, a, col[i]), i + 1;
      forall j: nat | j < 8 ensures SlowKnows(op, next, col, k, j) { SlowKnowsStep(op, a, col, i, j); }
      a, i := next, k;
      if Skip(op, a) { break; }
    }
    r := SlowFinish(op, a);
    forall j: nat | j < 8 ensures BitOf(r, j) <==> Ideal(op, col, j) { SlowSettles(op, a, col, i, j); }
  }
}
