/**
 The check value of the CRC-64: what the test of crc64.c expects of the nine digits.
 */
module Crc64Check {
  import opened Crc64

  const DIGITS: seq<bv8> := [0x31, 0x32, 0x33, 0x34, 0x35, 0x36, 0x37, 0x38, 0x39]

  lemma EightSteps(c0: bv64, c1: bv64, c2: bv64, c3: bv64, c4: bv64, c5: bv64, c6: bv64, c7: bv64, c8: bv64)
    requires Step(c0) == c1 && Step(c1) == c2 && Step(c2) == c3 && Step(c3) == c4
    requires Step(c4) == c5 && Step(c5) == c6 && Step(c6) == c7 && Step(c7) == c8
    ensures Steps(c0, 8) == c8
  {
    hide Step;
    assert Steps(c7, 1) == c8 && Steps(c6, 2) == c8 && Steps(c5, 3) == c8 && Steps(c4, 4) == c8;
    assert Steps(c3, 5) == c8 && Steps(c2, 6) == c8 && Steps(c1, 7) == c8;
  }

  lemma Digit1()
    ensures Update(0x0, 0x31) == 0xfdc17184a9f739fa
  {
    assert Xor(0x0, Wide(0x31)) == 0x31;
    EightSteps(0x31, 0x95ac9329ac4bc9ad, 0xdf7adabd7a6e2d63, 0xfa11fe77117cdf04,
               0x7d08ff3b88be6f82, 0x3e847f9dc45f37c1, 0x8aeeace74e645255, 0xd0dbc55a0b79e09f, 0xfdc17184a9f739fa);
  }

  lemma Digit2()
    ensures Update(0xfdc17184a9f739fa, 0x32) == 0xe10364513a98ed96
  {
    assert Xor(0xfdc17184a9f739fa, Wide(0x32)) == 0xfdc17184a9f739c8;
    EightSteps(0xfdc17184a9f739c8, 0x7ee0b8c254fb9ce4, 0x3f705c612a7dce72, 0x1fb82e30953ee739,
               0x9a708431e6d4ba29, 0xd894d1315f2194a1, 0xf9e6fbb103db03e5, 0xe95feef12da64847, 0xe10364513a98ed96);
  }

  lemma Digit3()
    ensures Update(0xe10364513a98ed96, 0x33) == 0xd5bcfb814479b1ac
  {
    assert Xor(0xe10364513a98ed96, Wide(0x33)) == 0xe10364513a98eda5;
    EightSteps(0xe10364513a98eda5, 0xe52d21013107bf67, 0xe73a03a934c81606, 0x739d01d49a640b03,
               0xac6213c3e179cc34, 0x563109e1f0bce61a, 0x2b1884f0f85e730d, 0x8020d151d064f033, 0xd5bcfb814479b1ac);
  }

  lemma Digit4()
    ensures Update(0xd5bcfb814479b1ac, 0x34) == 0x43593c5dcda521f0
  {
    assert Xor(0xd5bcfb814479b1ac, Wide(0x34)) == 0xd5bcfb814479b198;
    EightSteps(0xd5bcfb814479b198, 0x6ade7dc0a23cd8cc, 0x356f3ee0511e6c66, 0x1ab79f70288f3633,
               0x98f75c91b80c52ac, 0x4c7bae48dc062956, 0x263dd7246e0314ab, 0x86b278bb9b4a43e0, 0x43593c5dcda521f0);
  }

  lemma Digit5()
    ensures Update(0x43593c5dcda521f0, 0x35) == 0xf0758513239c7e0d
  {
    assert Xor(0x43593c5dcda521f0, Wide(0x35)) == 0x43593c5dcda521c5;
    EightSteps(0x43593c5dcda521c5, 0xb4000d074a995957, 0xcfac95aa0907651e, 0x67d64ad50483b28f,
               0xa647b6432e0a10f2, 0x5323db2197050879, 0xbc3d7eb967c94d89, 0xcbb22c751faf6f71, 0xf0758513239c7e0d);
  }

  lemma Digit6()
    ensures Update(0xf0758513239c7e0d, 0x36) == 0xa3a90925b2ab4903
  {
    assert Xor(0xf0758513239c7e0d, Wide(0x36)) == 0xf0758513239c7e3b;
    EightSteps(0xf0758513239c7e3b, 0xed9651a03d85f6a8, 0x76cb28d01ec2fb54, 0x3b6594680f617daa,
               0x1db2ca3407b0bed5, 0x9b75f633af9396df, 0xd81668307b8202da, 0x6c0b34183dc1016d, 0xa3a90925b2ab4903);
  }

  lemma Digit7()
    ensures Update(0xa3a90925b2ab4903, 0x37) == 0x47824d362431ad45
  {
    assert Xor(0xa3a90925b2ab4903, Wide(0x37)) == 0xa3a90925b2ab4934;
    EightSteps(0xa3a90925b2ab4934, 0x51d48492d955a49a, 0x28ea42496caad24d, 0x81d9b20d1a1ea093,
               0xd5404a2f214499fc, 0x6aa0251790a24cfe, 0x3550128bc851267f, 0x8f049a6c48635a8a, 0x47824d362431ad45);
  }

  lemma Digit8()
    ensures Update(0x47824d362431ad45, 0x38) == 0x49ec20b315e86dc2
  {
    assert Xor(0x47824d362431ad45, Wide(0x38)) == 0x47824d362431ad7d;
    EightSteps(0x47824d362431ad7d, 0xb66db5b2be531f0b, 0xce9a49f0f3624630, 0x674d24f879b12318,
               0x33a6927c3cd8918c, 0x19d3493e1e6c48c6, 0xce9a49f0f362463, 0x93d841662bd0db84, 0x49ec20b315e86dc2);
  }

  lemma Digit9()
    ensures Update(0x49ec20b315e86dc2, 0x39) == 0xe9c6d914c4b8d9ca
  {
    assert Xor(0x49ec20b315e86dc2, Wide(0x39)) == 0x49ec20b315e86dfb;
    EightSteps(0x49ec20b315e86dfb, 0xb15a837026bfff48, 0x58ad41b8135fffa4, 0x2c56a0dc09afffd2,
               0x162b506e04d7ffe9, 0x9eb93b1eae203641, 0xdaf00ea6fb5bd295, 0xf8d4947ad1e620ff, 0xe9c6d914c4b8d9ca);
  }

  lemma CrcOne(c: bv64, s: seq<bv8>, b: bv8)
    ensures Crc(c, s + [b]) == Update(Crc(c, s), b)
  {
    assert (s + [b])[..|s|] == s;
  }

  /** The check value. */
  lemma CheckValue()
    ensures Crc(0, DIGITS) == 0xe9c6d914c4b8d9ca
  {
    hide Update, Crc;
    CrcNothing();
    Digit1(); CrcOne(0, DIGITS[..0], DIGITS[0]); assert DIGITS[..0] + [DIGITS[0]] == DIGITS[..1];
    Digit2(); CrcOne(0, DIGITS[..1], DIGITS[1]); assert DIGITS[..1] + [DIGITS[1]] == DIGITS[..2];
    Digit3(); CrcOne(0, DIGITS[..2], DIGITS[2]); assert DIGITS[..2] + [DIGITS[2]] == DIGITS[..3];
    Digit4(); CrcOne(0, DIGITS[..3], DIGITS[3]); assert DIGITS[..3] + [DIGITS[3]] == DIGITS[..4];
    Digit5(); CrcOne(0, DIGITS[..4], DIGITS[4]); assert DIGITS[..4] + [DIGITS[4]] == DIGITS[..5];
    Digit6(); CrcOne(0, DIGITS[..5], DIGITS[5]); assert DIGITS[..5] + [DIGITS[5]] == DIGITS[..6];
    Digit7(); CrcOne(0, DIGITS[..6], DIGITS[6]); assert DIGITS[..6] + [DIGITS[6]] == DIGITS[..7];
    Digit8(); CrcOne(0, DIGITS[..7], DIGITS[7]); assert DIGITS[..7] + [DIGITS[7]] == DIGITS[..8];
    Digit9(); CrcOne(0, DIGITS[..8], DIGITS[8]); assert DIGITS[..8] + [DIGITS[8]] == DIGITS[..9];
    assert DIGITS[..9] == DIGITS && DIGITS[..0] == [];
  }

  lemma CrcNothing()
    ensures Crc(0, []) == 0
  {}
}
