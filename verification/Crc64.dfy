/**
 The reflected Jones CRC-64 as a linear map over GF(2).

 `Step` feeds one zero bit to the register, `Update` one byte and `Crc` a whole
 buffer. Every fast path of crcspeed.c and crccombine.c is proved against `Crc`.

 Exclusive-or and byte extraction are named functions. Facts about them are
 proved once on plain bit-vector expressions; the lemmas above that layer hide
 the bodies and reason by equations only.
 */
module Crc64 {

  const POLY: bv64 := 0xad93d23594c935a9
  const REVERSED_POLY: bv64 := 0x95ac9329ac4bc9b5

  function Xor(a: bv64, b: bv64): bv64 { a ^ b }

  function Low(c: bv64): bv8 { (c & 0xff) as bv8 }

  function Wide(b: bv8): bv64 { b as bv64 }

  predicate Odd(c: bv64) { c & 1 == 1 }

  function Shr(c: bv64): bv64 { c >> 1 }

  /** One zero bit through the reflected register. */
  function Step(c: bv64): bv64 {
    if Odd(c) then Xor(Shr(c), REVERSED_POLY) else Shr(c)
  }

  /** `n` zero bits. */
  function Steps(c: bv64, n: nat): bv64
    decreases n
  {
    if n == 0 then c else Steps(Step(c), n - 1)
  }

  /** One input byte. */
  function Update(c: bv64, b: bv8): bv64 {
    Steps(Xor(c, Wide(b)), 8)
  }

  /** The CRC of buffer `s` started from register value `c`. */
  function Crc(c: bv64, s: seq<bv8>): bv64 {
    if s == [] then c else Update(Crc(c, s[..|s| - 1]), s[|s| - 1])
  }

  // ----- exclusive or

  lemma XorComm(a: bv64, b: bv64)
    ensures Xor(a, b) == Xor(b, a)
  {}

  lemma XorNamed(a: bv64, b: bv64)
    ensures Xor(a, b) == a ^ b
  {}

  lemma XorNamedLeft(a: bv64, b: bv64, c: bv64)
    ensures Xor(a ^ b, c) == a ^ b ^ c
  {}

  lemma XorNamedRight(a: bv64, b: bv64, c: bv64)
    ensures Xor(a, b ^ c) == a ^ b ^ c
  {}

  lemma XorAssoc(a: bv64, b: bv64, c: bv64)
    ensures Xor(Xor(a, b), c) == Xor(a, Xor(b, c))
  {
    hide Xor;
    XorNamed(a, b); XorNamed(b, c);
    XorNamedLeft(a, b, c); XorNamedRight(a, b, c);
  }

  lemma XorZero(a: bv64)
    ensures Xor(a, 0) == a && Xor(0, a) == a
  {}

  lemma XorSelf(a: bv64)
    ensures Xor(a, a) == 0
  {}

  lemma XorCancel(a: bv64, b: bv64, c: bv64)
    requires Xor(a, c) == Xor(b, c)
    ensures a == b
  {
    hide Xor;
    XorAssoc(a, c, c); XorAssoc(b, c, c); XorSelf(c); XorZero(a); XorZero(b);
  }

  // ----- linearity and injectivity of one bit

  lemma OddXor(a: bv64, b: bv64)
    ensures Odd(Xor(a, b)) <==> Odd(a) != Odd(b)
  {}

  lemma ShrXor(a: bv64, b: bv64)
    ensures Shr(Xor(a, b)) == Xor(Shr(a), Shr(b))
  {}

  lemma StepLinear(a: bv64, b: bv64)
    ensures Step(Xor(a, b)) == Xor(Step(a), Step(b))
  {
    hide Xor, Odd, Shr;
    OddXor(a, b); ShrXor(a, b);
    var x, y, p := Shr(a), Shr(b), REVERSED_POLY;
    XorAssoc(x, y, p);
    XorAssoc(x, p, y); XorComm(p, y);
    XorAssoc(x, p, Xor(y, p)); XorAssoc(p, y, p);
    XorAssoc(y, p, p); XorSelf(p); XorZero(y);
  }

  lemma StepInjective(a: bv64, b: bv64)
    requires Step(a) == Step(b)
    ensures a == b
  {}

  // ----- runs of zero bits

  lemma {:induction false} StepsLinear(a: bv64, b: bv64, n: nat)
    ensures Steps(Xor(a, b), n) == Xor(Steps(a, n), Steps(b, n))
    decreases n
  {
    hide Step, Xor;
    if n > 0 {
      StepLinear(a, b);
      StepsLinear(Step(a), Step(b), n - 1);
    }
  }

  lemma {:induction false} StepsAdd(a: bv64, m: nat, n: nat)
    ensures Steps(a, m + n) == Steps(Steps(a, m), n)
    decreases m
  {
    hide Step;
    if m > 0 { StepsAdd(Step(a), m - 1, n); }
  }

  lemma {:induction false} StepsInjective(a: bv64, b: bv64, n: nat)
    requires Steps(a, n) == Steps(b, n)
    ensures a == b
    decreases n
  {
    hide Step;
    if n > 0 {
      StepsInjective(Step(a), Step(b), n - 1);
      StepInjective(a, b);
    }
  }

  lemma {:induction false} StepsZero(n: nat)
    ensures Steps(0, n) == 0
  {
    if n > 0 { StepsZero(n - 1); }
  }

  // ----- whole bytes

  function ShiftByte(c: bv64): bv64 { c >> 8 }

  /** Eight trailing zero bits leave the register by plain shifting. */
  lemma EightShifts(c: bv64)
    requires c & 0xff == 0
    ensures Step(Step(Step(Step(Step(Step(Step(Step(c)))))))) == c >> 8
  {}

  lemma EightSteps(c: bv64)
    ensures Steps(c, 8) == Step(Step(Step(Step(Step(Step(Step(Step(c))))))))
  {
    hide Step;
    var d := Step(Step(Step(Step(c))));
    assert Steps(c, 8) == Steps(Step(Step(c)), 6) == Steps(d, 4);
    assert Steps(d, 4) == Steps(Step(Step(d)), 2);
  }

  lemma ShiftOut(c: bv64)
    requires c & 0xff == 0
    ensures Steps(c, 8) == ShiftByte(c)
  {
    hide Step, Steps;
    EightSteps(c);
    EightShifts(c);
  }

  lemma SplitLowByte(c: bv64)
    ensures Xor(Wide(Low(c)), c & 0xffff_ffff_ffff_ff00) == c
    ensures (c & 0xffff_ffff_ffff_ff00) & 0xff == 0
    ensures ShiftByte(c & 0xffff_ffff_ffff_ff00) == ShiftByte(c)
  {}

  /** One byte by table: only the low byte of the register meets the polynomial. */
  lemma TableStep(c: bv64)
    ensures Steps(c, 8) == Xor(Steps(Wide(Low(c)), 8), ShiftByte(c))
  {
    hide *;
    var hi := c & 0xffff_ffff_ffff_ff00;
    SplitLowByte(c);
    StepsLinear(Wide(Low(c)), hi, 8);
    ShiftOut(hi);
  }

  // ----- buffers

  lemma {:induction false} CrcAppend(c: bv64, a: seq<bv8>, b: seq<bv8>)
    ensures Crc(c, a + b) == Crc(Crc(c, a), b)
    decreases |b|
  {
    hide Update;
    if b == [] {
      assert a + b == a;
    } else {
      var b' := b[..|b| - 1];
      assert (a + b)[..|a + b| - 1] == a + b';
      CrcAppend(c, a, b');
    }
  }

  lemma UpdateLinear(x: bv64, y: bv64, b: bv8)
    ensures Update(Xor(x, y), b) == Xor(Steps(x, 8), Update(y, b))
  {
    hide Steps, Xor, Wide;
    XorAssoc(x, y, Wide(b));
    StepsLinear(x, Xor(y, Wide(b)), 8);
  }

  /** The register's start value and the data contribute independently. */
  lemma {:induction false} CrcLinear(c: bv64, s: seq<bv8>)
    ensures Crc(c, s) == Xor(Steps(c, 8 * |s|), Crc(0, s))
    decreases |s|
  {
    hide Step, Xor, Update;
    if s == [] {
      XorZero(c);
    } else {
      var s', b := s[..|s| - 1], s[|s| - 1];
      CrcLinear(c, s');
      UpdateLinear(Steps(c, 8 * |s'|), Crc(0, s'), b);
      StepsAdd(c, 8 * |s'|, 8);
    }
  }

  /** Merging the CRCs of two adjacent blocks. */
  lemma CrcConcat(c: bv64, a: seq<bv8>, b: seq<bv8>)
    ensures Crc(c, a + b) == Xor(Steps(Crc(c, a), 8 * |b|), Crc(0, b))
  {
    hide *;
    CrcAppend(c, a, b);
    CrcLinear(Crc(c, a), b);
  }

  lemma UpdateInjective(x: bv64, y: bv64, b: bv8)
    requires Update(x, b) == Update(y, b)
    ensures x == y
  {
    hide Steps, Xor, Wide;
    StepsInjective(Xor(x, Wide(b)), Xor(y, Wide(b)), 8);
    XorCancel(x, y, Wide(b));
  }

  lemma {:induction false} CrcInjective(c: bv64, d: bv64, s: seq<bv8>)
    requires Crc(c, s) == Crc(d, s)
    ensures c == d
    decreases |s|
  {
    hide Update;
    if s != [] {
      var s', b := s[..|s| - 1], s[|s| - 1];
      UpdateInjective(Crc(c, s'), Crc(d, s'), b);
      CrcInjective(c, d, s');
    }
  }
}
