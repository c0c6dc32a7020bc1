/** Bit fields of any width at any place of a string (bitops.c): reading, writing, and BITFIELD's operations. */
module Bitfield {
  import opened Bits
  import opened BitRange
  import opened BitOverflow
  import opened Powers

  /** The unsigned number in the `bits` bits at `offset`, the most significant bit first. */
  function Field(s: seq<bv8>, offset: nat, bits: nat): nat {
    if bits == 0 then 0 else 2 * Field(s, offset, bits - 1) + One(Bit(s, offset + bits - 1))
  }

  /** Bit `k` of a number, counted from the least significant one. */
  predicate NatBit(v: nat, k: nat) { v / Pow2(k) % 2 == 1 }

  // ----- one bit

  /** `byteval &= ~(1 << bit); byteval |= bitval << bit`. */
  function WriteBit(b: bv8, j: nat, v: bool): bv8
    requires j < 8
  {
    Or(AndNot(b, Mask(j)), if v then Mask(j) else 0)
  }

  lemma MaskBit(j: nat, i: nat)
    requires j < 8 && i < 8
    ensures BitOf(Mask(j), i) <==> i == j
  {}

  lemma ZeroBits(i: nat)
    requires i < 8
    ensures !BitOf(0, i)
  {}

  lemma WriteBitAt(b: bv8, j: nat, v: bool, i: nat)
    requires j < 8 && i < 8
    ensures BitOf(WriteBit(b, j, v), i) == if i == j then v else BitOf(b, i)
  {
    hide BitOf, Mask, Or, AndNot;
    OrBit(AndNot(b, Mask(j)), if v then Mask(j) else 0, i);
    AndNotBit(b, Mask(j), i);
    MaskBit(j, i);
    ZeroBits(i);
  }

  /** The first `j` bits of the field have been written, and nothing else. */
  ghost predicate Written(s: seq<bv8>, t: seq<bv8>, offset: nat, bits: nat, value: nat, j: nat) {
    && |t| == |s| && j <= bits
    && forall i: nat :: Bit(t, i) == if offset <= i < offset + j then NatBit(value, bits - 1 - (i - offset))
      else Bit(s, i)
  }

  lemma WriteNext(s: seq<bv8>, t: seq<bv8>, u: seq<bv8>, offset: nat, bits: nat, value: nat, j: nat)
    requires Written(s, t, offset, bits, value, j) && j < bits && (offset + j) / 8 < |t|
    requires u == t[(offset + j) / 8 := WriteBit(t[(offset + j) / 8], (offset + j) % 8, NatBit(value, bits - 1 - j))]
    ensures Written(s, u, offset, bits, value, j + 1)
  {
    hide BitOf, WriteBit, NatBit;
    var at := offset + j;
    forall i: nat ensures Bit(u, i) == if i == at then NatBit(value, bits - 1 - j) else Bit(t, i) {
      if i / 8 == at / 8 { WriteBitAt(t[at / 8], at % 8, NatBit(value, bits - 1 - j), i % 8); }
    }
  }

  // ----- the programs

  /** `setUnsignedBitfield`. */
  method SetUnsigned(p: array<bv8>, offset: nat, bits: nat, value: nat)
    requires offset + bits <= 8 * p.Length
    modifies p
    ensures Written(old(p[..]), p[..], offset, bits, value, bits)
  {
    hide Bit, WriteBit, NatBit;
    ghost var s := p[..];
    for j := 0 to bits
      invariant Written(s, p[..], offset, bits, value, j)
    {
      var at := offset + j;
      ghost var t := p[..];
      p[at / 8] := WriteBit(p[at / 8], at % 8, NatBit(value, bits - 1 - j));
      assert p[..] == t[at / 8 := WriteBit(t[at / 8], at % 8, NatBit(value, bits - 1 - j))];
      WriteNext(s, t, p[..], offset, bits, value, j);
    }
  }

  /** `getUnsignedBitfield`. */
  method GetUnsigned(p: seq<bv8>, offset: nat, bits: nat) returns (value: nat)
    requires offset + bits <= 8 * |p|
    ensures value == Field(p, offset, bits)
  {
    hide BitOf;
    value := 0;
    for j := 0 to bits
      invariant value == Field(p, offset, j)
    {
      var at := offset + j;
      value := 2 * value + One(BitOf(p[at / 8], at % 8));
    }
  }

  /** `getSignedBitfield`: the top bit is carried into all higher bits of the word. */
  method GetSigned(p: seq<bv8>, offset: nat, bits: nat) returns (value: int)
    requires offset + bits <= 8 * |p| && 0 < bits <= 64
    ensures value == Signed(Field(p, offset, bits), bits)
  {
    hide Pow2, Field;
    var u := GetUnsigned(p, offset, bits);
    FieldRange(p, offset, bits);
    Doubles(bits - 1);
    Pow63();
    Reduced(u, Pow2(bits));
    value := if u < TWO_63 then u else u - TWO_64;
    if bits < 64 {
      PowRange(bits);
      value := if u >= Pow2(bits - 1) then u - Pow2(bits) else u;
    }
  }

  lemma Reduced(u: nat, m: nat)
    requires u < m
    ensures u % m == u
  {}

  lemma {:induction false} FieldRange(s: seq<bv8>, offset: nat, bits: nat)
    ensures Field(s, offset, bits) < Pow2(bits)
    decreases bits
  {
    hide Bit;
    if bits > 0 { FieldRange(s, offset, bits - 1); }
  }

  // ----- what was written is read back

  lemma HalfStep(q: nat, m: nat)
    requires m > 0
    ensures q % (2 * m) == 2 * (q / 2 % m) + q % 2
  {
    var h, b := q / 2, q % 2;
    var d, r := h / m, h % m;
    assert q == 2 * h + b && h == m * d + r;
    assert 2 * (m * d) == (2 * m) * d;
    Unique(q, 2 * m, d, 2 * r + b);
  }

  lemma HalfOf(v: nat, k: nat)
    ensures v / Pow2(k) / 2 == v / Pow2(k + 1)
  {
    var m := Pow2(k);
    var d, r := v / m, v % m;
    var h, b := d / 2, d % 2;
    assert v == m * d + r && d == 2 * h + b;
    assert m * d == m * (2 * h) + m * b && m * (2 * h) == (2 * m) * h;
    Quotient(v, 2 * m, h, m * b + r);
  }

  lemma Quotient(x: nat, m: nat, q: nat, r: nat)
    requires r < m && x == m * q + r
    ensures x / m == q
  {
    var q2, r2 := x / m, x % m;
    Distribute(m, q, q2);
    AtLeast(m, q - q2);
  }

  lemma {:induction false} ReadBack(s: seq<bv8>, t: seq<bv8>, offset: nat, bits: nat, value: nat, k: nat)
    requires Written(s, t, offset, bits, value, bits) && k <= bits
    ensures Field(t, offset, k) == value / Pow2(bits - k) % Pow2(k)
    decreases k
  {
    hide Bit, Pow2, NatBit;
    if k == 0 {
      PowZero();
    } else {
      ReadBack(s, t, offset, bits, value, k - 1);
      var q := value / Pow2(bits - k);
      HalfOf(value, bits - k);
      HalfStep(q, Pow2(k - 1));
      Doubles(k - 1);
      assert Bit(t, offset + k - 1) == NatBit(value, bits - k);
      NatBitIs(value, bits - k);
    }
  }

  lemma NatBitIs(v: nat, k: nat)
    ensures One(NatBit(v, k)) == v / Pow2(k) % 2
  {}

  /** A field that was written holds the value, cut to its width. */
  lemma FieldWritten(s: seq<bv8>, t: seq<bv8>, offset: nat, bits: nat, value: nat)
    requires Written(s, t, offset, bits, value, bits)
    ensures Field(t, offset, bits) == LowBits(value, bits)
  {
    hide Written, Field, Pow2;
    ReadBack(s, t, offset, bits, value, bits);
    PowZero();
  }

  /** A field that does not overlap keeps its value. */
  lemma {:induction false} OtherField(s: seq<bv8>, t: seq<bv8>, offset: nat, bits: nat, value: nat, at: nat, n: nat)
    requires Written(s, t, offset, bits, value, bits) && (at + n <= offset || offset + bits <= at)
    ensures Field(t, at, n) == Field(s, at, n)
    decreases n
  {
    hide Bit, NatBit;
    if n > 0 { OtherField(s, t, offset, bits, value, at, n - 1); }
  }

  // ----- GET through a buffer

  lemma {:induction false} FieldSame(s: seq<bv8>, t: seq<bv8>, a: nat, b: nat, n: nat)
    requires forall i: nat :: a <= i < a + n ==> Bit(s, i) == Bit(t, b + i - a)
    ensures Field(s, a, n) == Field(t, b, n)
    decreases n
  {
    hide Bit;
    if n > 0 {
      FieldSame(s, t, a, b, n - 1);
    }
  }

  /** Up to nine bytes, zero-padded. */
  method CopyNine(src: seq<bv8>, byte: nat) returns (buf: seq<bv8>)
    ensures |buf| == 9 && forall i :: 0 <= i < 9 ==> buf[i] == if byte + i < |src| then src[byte + i] else 0
  {
    buf := [0, 0, 0, 0, 0, 0, 0, 0, 0];
    var i := 0;
    while i < 9
      invariant 0 <= i <= 9 && |buf| == 9
      invariant forall k :: 0 <= k < 9 ==> buf[k] == if k < i && byte + k < |src| then src[byte + k] else 0
    {
      if i + byte >= |src| { break; }
      buf := buf[i := src[i + byte]];
      i := i + 1;
    }
  }

  lemma BufferBit(src: seq<bv8>, buf: seq<bv8>, byte: nat, i: nat)
    requires |buf| == 9 && i < 72
    requires forall k :: 0 <= k < 9 ==> buf[k] == if byte + k < |src| then src[byte + k] else 0
    ensures Bit(buf, i) == Bit(src, 8 * byte + i)
  {
    hide BitOf;
    assert (8 * byte + i) / 8 == byte + i / 8 && (8 * byte + i) % 8 == i % 8;
    ZeroBits(i % 8);
  }

  /** GET reads the field of the zero-padded string, wherever its end is; no string is the empty one. */
  method GetField(src: seq<bv8>, offset: nat, bits: nat, isSigned: bool) returns (value: int)
    requires 0 < bits <= 64
    ensures value == if isSigned then Signed(Field(src, offset, bits), bits) else Field(src, offset, bits)
  {
    hide Bit, Field, Signed;
    var byte := offset / 8;
    var buf := CopyNine(src, byte);
    var r := offset - 8 * byte;
    forall i: nat | r <= i < r + bits ensures Bit(buf, i) == Bit(src, offset + i - r) { BufferBit(src, buf, byte, i); }
    FieldSame(buf, src, r, offset, bits);
    if isSigned { value := GetSigned(buf, r, bits); } else { value := GetUnsigned(buf, r, bits); }
  }

  // ----- SET and INCRBY

  datatype Op = Op(incrBy: bool, isSigned: bool, bits: nat, offset: nat, arg: int, ow: Overflow)

  predicate OpOk(op: Op) { 0 < op.bits <= (if op.isSigned then 64 else 63) && IsS64(op.arg) }

  /** The number an operation finds in its field. */
  function Read(s: seq<bv8>, op: Op): int
    requires OpOk(op)
  {
    var f := Field(s, op.offset, op.bits);
    if op.isSigned then Signed(f, op.bits) else f
  }

  predicate Fits(x: int, op: Op) requires OpOk(op) { if op.isSigned then InS(x, op.bits) else InU(x, op.bits) }

  /** The number in range that is equal modulo the field's size. */
  function Wrapped(x: int, op: Op): int
    requires OpOk(op)
  {
    if op.isSigned then Signed(x, op.bits) else LowBits(x, op.bits)
  }

  function Nearest(x: int, op: Op): int
    requires OpOk(op)
  {
    if op.isSigned then NearestS(x, op.bits) else NearestU(x, op.bits)
  }

  /** What SET stores for an argument that is out of range and saturates; see `SetSaturatesIff`. */
  function SetLimit(op: Op): int
    requires OpOk(op)
  {
    if op.isSigned then CheckSigned(op.arg, 0, op.bits, Sat).limit else MaxU(op.bits)
  }

  datatype Option = None | Some(value: int)

  /** The number to be stored: the exact one if it fits, else what the overflow type says. */
  function Target(old_: int, op: Op): Option
    requires OpOk(op)
  {
    var x := if op.incrBy then old_ + op.arg else op.arg;
    if Fits(x, op) then Some(x)
    else match op.ow
      case Wrap => Some(Wrapped(x, op))
      case Sat => Some(if op.incrBy then Nearest(x, op) else SetLimit(op))
      case Fail => None
  }

  /** The arithmetic of one operation, as it is programmed. */
  function Compute(old_: int, op: Op): (Check, int)
    requires OpOk(op)
  {
    if op.isSigned then
      if op.incrBy then
        var c := CheckSigned(old_, op.arg, op.bits, op.ow);
        (c, if c.flag != 0 then c.limit else S64(old_ + op.arg))
      else
        var c := CheckSigned(op.arg, 0, op.bits, op.ow);
        (c, if c.flag != 0 then c.limit else op.arg)
    else
      if op.incrBy then
        var c := CheckUnsigned(old_, op.arg, op.bits, op.ow);
        (c, if c.flag != 0 then c.limit else U64(old_ + op.arg))
      else
        var c := CheckUnsigned(U64(op.arg), 0, op.bits, op.ow);
        (c, if c.flag != 0 then c.limit else U64(op.arg))
  }

  lemma ComputeUnsigned(old_: int, op: Op)
    requires OpOk(op) && !op.isSigned && InU(old_, op.bits)
    ensures var (c, v) := Compute(old_, op);
      if c.flag != 0 && op.ow == Fail then Target(old_, op) == None else Target(old_, op) == Some(v)
  {
    hide Pow2, CheckUnsigned, U64, S64, LowBits;
    PowRange(op.bits);
    if op.incrBy {
      UnsignedExact(old_, op.arg, op.bits, op.ow);
      BitOverflow.Fits(old_ + op.arg);
    } else {
      UnsignedSet(op.arg, op.bits, op.ow);
    }
  }

  lemma ComputeSigned(old_: int, op: Op)
    requires OpOk(op) && op.isSigned && InS(old_, op.bits)
    ensures var (c, v) := Compute(old_, op);
      if c.flag != 0 && op.ow == Fail then Target(old_, op) == None else Target(old_, op) == Some(v)
  {
    hide Pow2, CheckSigned, U64, S64, LowBits, Signed;
    SignedRange(op.bits);
    if op.incrBy {
      SignedExact(old_, op.arg, op.bits, op.ow);
      BitOverflow.Fits(old_ + op.arg);
    } else {
      SignedSet(op.arg, op.bits, op.ow);
    }
  }

  lemma ReadFits(s: seq<bv8>, op: Op)
    requires OpOk(op)
    ensures Fits(Read(s, op), op)
  {
    hide Field, Pow2;
    FieldRange(s, op.offset, op.bits);
    if op.isSigned { SignedInRange(Field(s, op.offset, op.bits), op.bits); }
  }

  lemma TargetFits(old_: int, op: Op)
    requires OpOk(op) && Fits(old_, op) && Target(old_, op).Some?
    ensures Fits(Target(old_, op).value, op)
  {
    hide Pow2, U64, S64;
    var x := if op.incrBy then old_ + op.arg else op.arg;
    PowRange(op.bits);
    if op.isSigned {
      SignedInRange(x, op.bits);
      SignedRange(op.bits);
    } else {
      LowRange(x, op.bits);
    }
  }

  lemma LowRange(x: int, bits: nat)
    ensures InU(LowBits(x, bits), bits)
  {
    hide Pow2;
  }

  /** The field holds the number that was stored, read the way it was written. */
  lemma ReadTarget(s: seq<bv8>, t: seq<bv8>, op: Op, v: int)
    requires OpOk(op) && Fits(v, op) && Written(s, t, op.offset, op.bits, U64(v), op.bits)
    ensures Read(t, op) == v
  {
    hide Written, Field, Pow2, U64;
    FieldWritten(s, t, op.offset, op.bits, U64(v));
    ModMod(v, op.bits);
    if op.isSigned {
      LowTwice(v, op.bits);
      SignedUnique(v, op.bits, v, 0);
    } else {
      LowSmall(v, op.bits);
    }
  }

  lemma LowTwice(x: int, bits: nat)
    requires bits > 0
    ensures Signed(LowBits(x, bits), bits) == Signed(x, bits)
  {
    hide Pow2;
    Reduced(LowBits(x, bits), Pow2(bits));
  }

  lemma LowSmall(x: int, bits: nat)
    requires InU(x, bits)
    ensures LowBits(x, bits) == x
  {
    hide Pow2;
    Reduced(x, Pow2(bits));
  }

  /**
   One SET or INCRBY: SET replies with the old number and INCRBY with the new one; nothing is written and the
   reply is nothing when the number does not fit and the overflow type is FAIL; otherwise the field then holds
   the target and no other bit has changed.
   */
  method Execute(p: array<bv8>, op: Op) returns (reply: Option)
    requires OpOk(op) && op.offset + op.bits <= 8 * p.Length
    modifies p
    ensures var was := Read(old(p[..]), op);
      match Target(was, op)
      case None => reply == None && p[..] == old(p[..])
      case Some(v) =>
        && reply == Some(if op.incrBy then v else was) && Read(p[..], op) == v
        && Written(old(p[..]), p[..], op.offset, op.bits, U64(v), op.bits)
  {
    hide Field, Signed, Compute, Target, Written, U64, Fits;
    ghost var s := p[..];
    var was: int;
    if op.isSigned {
      was := GetSigned(p[..], op.offset, op.bits);
    } else {
      was := GetUnsigned(p[..], op.offset, op.bits);
    }
    ReadFits(s, op);
    var (check, value) := Compute(was, op);
    Computed(was, op);
    if check.flag != 0 && op.ow == Fail { return None; }
    TargetFits(was, op);
    SetUnsigned(p, op.offset, op.bits, U64(value));
    ReadTarget(s, p[..], op, value);
    reply := Some(if op.incrBy then value else was);
  }

  lemma Computed(old_: int, op: Op)
    requires OpOk(op) && Fits(old_, op)
    ensures var (c, v) := Compute(old_, op);
      if c.flag != 0 && op.ow == Fail then Target(old_, op) == None else Target(old_, op) == Some(v)
  {
    hide Compute, Target, InS, InU;
    if op.isSigned { ComputeSigned(old_, op); } else { ComputeUnsigned(old_, op); }
  }
}
