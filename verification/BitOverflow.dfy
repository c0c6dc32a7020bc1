/**
 Overflow of bit fields (bitops.c, `checkUnsignedBitfieldOverflow` and
 `checkSignedBitfieldOverflow`). Machine integers are integers with the wrap-around of
 each step written out; masking with a power of two is a remainder.
 */
module BitOverflow {
  import opened Powers

  const TWO_63: int := 0x8000_0000_0000_0000

  /** Conversion to `uint64_t`. */
  function U64(x: int): nat { x % TWO_64 }

  /** Conversion to `int64_t`. */
  function S64(x: int): int {
    var u := x % TWO_64;
    if u < TWO_63 then u else u - TWO_64
  }

  predicate IsU64(x: int) { 0 <= x < TWO_64 }

  predicate IsS64(x: int) { -TWO_63 <= x < TWO_63 }

  datatype Overflow = Wrap | Sat | Fail

  /** What a check returns, and what it stores in `*limit`: nothing for FAIL. */
  datatype Check = Check(flag: int, limit: int)

  /** `x & ~(-1 << bits)`. */
  function LowBits(x: int, bits: nat): nat { x % Pow2(bits) }

  // ----- unsigned

  function MaxU(bits: nat): nat { Pow2(bits) - 1 }

  function CheckUnsigned(value: int, incr: int, bits: nat, ow: Overflow): Check {
    var max := MaxU(bits);
    var maxincr, minincr := S64(max - value), S64(-value);
    var wrapped := LowBits(U64(value + incr), bits);
    if value > max || (incr > 0 && incr > maxincr) then
      Check(1, if ow == Wrap then wrapped else if ow == Sat then max else 0)
    else if incr < 0 && incr < minincr then
      (if ow == Wrap then Check(1, wrapped) else Check(-1, 0))
    else Check(0, 0)
  }

  // ----- signed

  function MaxS(bits: nat): nat requires bits > 0 { Pow2(bits - 1) - 1 }

  function MinS(bits: nat): int requires bits > 0 { 0 - MaxS(bits) - 1 }

  /** The low bits of a word read as a signed number. */
  function Signed(c: int, bits: nat): int
    requires bits > 0
  {
    var low := LowBits(c, bits);
    if low >= Pow2(bits - 1) then low - Pow2(bits) else low
  }

  function CheckSigned(value: int, incr: int, bits: nat, ow: Overflow): Check
    requires bits > 0
  {
    var max, min := MaxS(bits), MinS(bits);
    var maxincr, minincr := S64(U64(max) - value), S64(min - value);
    var wrapped := Signed(U64(value + incr), bits);
    if value > max || (bits != 64 && incr > maxincr) || (value >= 0 && incr > 0 && incr > maxincr) then
      Check(1, if ow == Wrap then wrapped else if ow == Sat then max else 0)
    else if value < min || (bits != 64 && incr < minincr) || (value < 0 && incr < 0 && incr < minincr) then
      (if ow == Wrap then Check(1, wrapped) else Check(-1, if ow == Sat then min else 0))
    else Check(0, 0)
  }

  // ----- powers

  lemma Pow63()
    ensures Pow2(63) == TWO_63 && Pow2(64) == TWO_64
  {
    hide Pow2;
    Pow2Limit();
    Doubles(63);
  }

  lemma Doubles(k: nat)
    ensures Pow2(k + 1) == 2 * Pow2(k)
  {}

  lemma PowRange(bits: nat)
    requires bits <= 64
    ensures 1 <= Pow2(bits) <= TWO_64 && (bits <= 63 ==> Pow2(bits) <= TWO_63)
  {
    hide Pow2;
    Pow63();
    Pow2Monotone(bits, 64);
    if bits <= 63 { Pow2Monotone(bits, 63); }
    Pow2Monotone(0, bits);
    PowZero();
  }

  lemma PowZero()
    ensures Pow2(0) == 1
  {}

  lemma Fits(x: int)
    ensures IsS64(x) ==> S64(x) == x
    ensures IsU64(x) ==> U64(x) == x
  {}

  lemma Borrows(x: int)
    requires TWO_63 <= x < TWO_64
    ensures S64(x) == x - TWO_64
  {}

  /** Reducing modulo 2^64 first changes nothing modulo a smaller power. */
  lemma ModMod(x: int, bits: nat)
    requires bits <= 64
    ensures LowBits(U64(x), bits) == LowBits(x, bits)
  {
    hide Pow2;
    Pow63();
    PowRange(bits);
    Pow2Add(bits, 64 - bits);
    var m, k, q := Pow2(bits), Pow2(64 - bits), x / TWO_64;
    assert x == (m * k) * q + U64(x);
    Multiple(U64(x), m, k * q);
    assert (m * k) * q == m * (k * q);
  }

  // ----- what the unsigned check says

  predicate InU(x: int, bits: nat) { 0 <= x <= MaxU(bits) }

  function NearestU(x: int, bits: nat): nat { if x > MaxU(bits) then MaxU(bits) else if x < 0 then 0 else x }

  /** For a stored value and any increment, overflow is reported exactly when the exact sum does not fit. */
  lemma UnsignedExact(value: int, incr: int, bits: nat, ow: Overflow)
    requires 0 < bits <= 63 && InU(value, bits) && IsS64(incr)
    ensures var c := CheckUnsigned(value, incr, bits, ow);
      && (c.flag != 0 <==> !InU(value + incr, bits))
      && (c.flag != 0 && ow == Wrap ==> c.limit == LowBits(value + incr, bits))
      && (c.flag != 0 && ow == Sat ==> c.limit == NearestU(value + incr, bits))
  {
    hide Pow2, S64, U64, LowBits;
    PowRange(bits);
    Fits(MaxU(bits) - value);
    Fits(-value);
    ModMod(value + incr, bits);
  }

  /** A value that is set from an argument: the argument is taken as an unsigned word. */
  lemma UnsignedSet(arg: int, bits: nat, ow: Overflow)
    requires 0 < bits <= 63 && IsS64(arg)
    ensures var c := CheckUnsigned(U64(arg), 0, bits, ow);
      && (c.flag != 0 <==> !InU(arg, bits))
      && (c.flag != 0 && ow == Wrap ==> c.limit == LowBits(arg, bits))
      && (c.flag != 0 && ow == Sat ==> c.limit == MaxU(bits) && (c.limit == NearestU(arg, bits) <==> arg >= 0))
      && (InU(arg, bits) ==> U64(arg) == arg)
  {
    hide Pow2, S64, U64, LowBits;
    PowRange(bits);
    Fits(arg);
    Fits(U64(arg));
    if arg < 0 { NegativeWord(arg); assert MaxU(bits) > 0 by { Doubles(bits - 1); } }
    ModMod(U64(arg), bits);
    ModMod(arg, bits);
  }

  lemma NegativeWord(x: int)
    requires IsS64(x) && x < 0
    ensures U64(x) >= TWO_63
  {}

  // ----- what the signed check says

  predicate InS(x: int, bits: nat) requires bits > 0 { MinS(bits) <= x <= MaxS(bits) }

  function NearestS(x: int, bits: nat): int
    requires bits > 0
  {
    if x > MaxS(bits) then MaxS(bits) else if x < MinS(bits) then MinS(bits) else x
  }

  /** Reading the low bits as a signed number gives the one number in range that is congruent. */
  lemma SignedUnique(x: int, bits: nat, y: int, q: int)
    requires bits > 0 && InS(y, bits) && x == y + Pow2(bits) * q
    ensures Signed(x, bits) == y
  {
    hide Pow2;
    Doubles(bits - 1);
    if y >= 0 {
      Unique(x, Pow2(bits), q, y);
    } else {
      Distribute(Pow2(bits), q, 1);
      Unique(x, Pow2(bits), q - 1, y + Pow2(bits));
    }
  }

  lemma SignedInRange(x: int, bits: nat)
    requires bits > 0
    ensures InS(Signed(x, bits), bits)
  {
    hide Pow2;
    Doubles(bits - 1);
  }

  lemma SignedOfWord(x: int, bits: nat)
    requires 0 < bits <= 64
    ensures Signed(U64(x), bits) == Signed(x, bits)
  {
    hide Pow2;
    ModMod(x, bits);
  }

  lemma SignedRange(bits: nat)
    requires 0 < bits <= 64
    ensures MaxS(bits) < TWO_63 && MinS(bits) >= -TWO_63 && MinS(bits) < 0
    ensures bits < 64 ==> 2 * MaxS(bits) + 1 < TWO_63
    ensures bits == 64 ==> MaxS(bits) == TWO_63 - 1
  {
    hide Pow2;
    PowRange(bits - 1);
    Pow63();
    if bits < 64 { PowRange(bits); Doubles(bits - 1); }
  }

  /** For a stored value and any increment, overflow is reported exactly when the exact sum does not fit. */
  lemma SignedExact(value: int, incr: int, bits: nat, ow: Overflow)
    requires 0 < bits <= 64 && InS(value, bits) && IsS64(incr)
    ensures var c := CheckSigned(value, incr, bits, ow);
      && (c.flag != 0 <==> !InS(value + incr, bits))
      && (c.flag != 0 && ow == Wrap ==> c.limit == Signed(value + incr, bits))
      && (c.flag != 0 && ow == Sat ==> c.limit == NearestS(value + incr, bits))
  {
    hide Pow2, Signed, S64, U64;
    SignedRange(bits);
    Fits(MaxS(bits));
    if bits < 64 || value >= 0 { Fits(MaxS(bits) - value); }
    if bits < 64 || value < 0 { Fits(MinS(bits) - value); }
    SignedOfWord(value + incr, bits);
  }

  /** The distances to the bounds, as far as they fit. */
  lemma Distances(arg: int, bits: nat)
    requires 0 < bits <= 64 && IsS64(arg)
    ensures U64(MaxS(bits)) == MaxS(bits)
    ensures arg > MaxS(bits) - TWO_63 ==> S64(MaxS(bits) - arg) == MaxS(bits) - arg
    ensures arg <= MaxS(bits) - TWO_63 ==> S64(MaxS(bits) - arg) == MaxS(bits) - arg - TWO_64
    ensures MinS(bits) <= arg <= MaxS(bits) && bits < 64 ==> S64(MinS(bits) - arg) == MinS(bits) - arg
  {
    hide Pow2, S64, U64;
    SignedRange(bits);
    Fits(MaxS(bits));
    Fits(MaxS(bits) - arg);
    Fits(MinS(bits) - arg);
    if arg <= MaxS(bits) - TWO_63 { Borrows(MaxS(bits) - arg); }
  }

  /** A value that is set from an argument: overflow is reported exactly when it does not fit. */
  lemma SignedSet(arg: int, bits: nat, ow: Overflow)
    requires 0 < bits <= 64 && IsS64(arg)
    ensures var c := CheckSigned(arg, 0, bits, ow);
      && (c.flag != 0 <==> !InS(arg, bits))
      && (c.flag != 0 && ow == Wrap ==> c.limit == Signed(arg, bits))
  {
    hide Pow2, Signed, S64, U64;
    SignedRange(bits);
    Distances(arg, bits);
    SignedOfWord(arg, bits);
  }

  /**
   Saturation of a set value gives the nearest bound exactly when the distance to the maximum fits a signed
   word; an argument further below is taken for too large, and the maximum is stored.
   */
  lemma SetSaturatesIff(arg: int, bits: nat)
    requires 0 < bits <= 64 && IsS64(arg) && !InS(arg, bits)
    ensures CheckSigned(arg, 0, bits, Sat).limit == NearestS(arg, bits) <==> arg > MaxS(bits) - TWO_63
    ensures arg <= MaxS(bits) - TWO_63 ==> CheckSigned(arg, 0, bits, Sat).limit == MaxS(bits)
  {
    hide Pow2, Signed, S64, U64;
    SignedRange(bits);
    Distances(arg, bits);
  }

  /** The smallest argument, set into eight bits, is stored as 127. */
  lemma SetSaturatesWrongly()
    ensures CheckSigned(-TWO_63, 0, 8, Sat).limit == 127 && NearestS(-TWO_63, 8) == -128
  {
    assert Pow2(7) == 128 by { assert Pow2(4) == 16; }
    hide Pow2, Signed;
  }
}
