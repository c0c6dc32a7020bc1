/**
 The big-endian variant of crcspeed.c. It keeps the register byte-reversed, uses
 byte-reversed tables and reads words most significant byte first.
 */
module Crc64Big {
  import opened Crc64
  import opened Crc64Reference
  import opened Crc64Speed

  /** `rev8`: the bytes of a word in the opposite order. */
  function Rev8(a: bv64): bv64 {
    var b := ((a >> 8) & 0xff00ff00ff00ff) | ((a & 0xff00ff00ff00ff) << 8);
    var c := ((b >> 16) & 0xffff0000ffff) | ((b & 0xffff0000ffff) << 16);
    (c >> 32) | (c << 32)
  }

  lemma Rev8Involutive(a: bv64)
    ensures Rev8(Rev8(a)) == a
  {}

  lemma Rev8XorWord(a: bv64, b: bv64)
    ensures Rev8(a ^ b) == Rev8(a) ^ Rev8(b)
  {}

  lemma Rev8Xor(a: bv64, b: bv64)
    ensures Rev8(Xor(a, b)) == Xor(Rev8(a), Rev8(b))
  {
    hide Rev8, Xor;
    XorNamed(a, b); XorNamed(Rev8(a), Rev8(b));
    Rev8XorWord(a, b);
  }

  function TopByte(x: bv64): bv8 { (x >> 56) as bv8 }

  lemma Rev8Bytes(x: bv64)
    ensures TopByte(Rev8(x)) == Low(x) && Low(Rev8(x)) == Byte7(x)
    ensures Byte1(Rev8(x)) == Byte6(x) && Byte2(Rev8(x)) == Byte5(x) && Byte3(Rev8(x)) == Byte4(x)
    ensures Byte4(Rev8(x)) == Byte3(x) && Byte5(Rev8(x)) == Byte2(x) && Byte6(Rev8(x)) == Byte1(x)
    ensures Byte7(Rev8(x)) == Low(x)
  {}

  lemma Rev8ShiftWord(x: bv64)
    ensures Rev8(x >> 8) == Rev8(x) << 8
  {}

  lemma ShiftsNamed(x: bv64)
    ensures UpByte(x) == x << 8 && ShiftByte(x) == x >> 8
  {}

  lemma Rev8Shift(x: bv64)
    ensures UpByte(Rev8(x)) == Rev8(ShiftByte(x))
  {
    hide Rev8, UpByte, ShiftByte;
    ShiftsNamed(x); ShiftsNamed(Rev8(x));
    Rev8ShiftWord(x);
  }

  function Xor8(a: bv8, b: bv8): bv8 { a ^ b }

  lemma LowXor(c: bv64, b: bv8)
    ensures Xor8(Low(c), b) == Low(Xor(c, Wide(b)))
  {}

  ghost predicate BigTables(t: array2<bv64>)
    requires Shape(t)
    reads t
  {
    forall k, b: bv8 :: 0 <= k < 8 ==> t[k, b as int] == Rev8(Entry(k, b))
  }

  /** `crcspeed64big_init`. */
  method FillBigTables(t: array2<bv64>)
    requires Shape(t)
    modifies t
    ensures BigTables(t)
  {
    hide Rev8, Entry;
    FillTables(t);
    label Filled:
    for k := 0 to 8
      invariant forall i, n :: 0 <= i < k && 0 <= n < 256 ==> t[i, n] == Rev8(old@Filled(t[i, n]))
      invariant forall i, n :: k <= i < 8 && 0 <= n < 256 ==> t[i, n] == old@Filled(t[i, n])
    {
      for m := 0 to 256
        invariant forall i, n :: 0 <= i < k && 0 <= n < 256 ==> t[i, n] == Rev8(old@Filled(t[i, n]))
        invariant forall n :: 0 <= n < m ==> t[k, n] == Rev8(old@Filled(t[k, n]))
        invariant forall n :: m <= n < 256 ==> t[k, n] == old@Filled(t[k, n])
        invariant forall i, n :: k < i < 8 && 0 <= n < 256 ==> t[i, n] == old@Filled(t[i, n])
      {
        t[k, m] := Rev8(t[k, m]);
      }
    }
  }

  /** The byte recurrence on the reversed register. */
  function ByBigTable(t: array2<bv64>, c: bv64, b: bv8): bv64
    requires Shape(t)
    reads t
  {
    Xor(t[0, Xor8(TopByte(c), b) as int], UpByte(c))
  }

  lemma ByBigTableIsUpdate(t: array2<bv64>, c: bv64, b: bv8)
    requires Shape(t) && BigTables(t)
    ensures ByBigTable(t, Rev8(c), b) == Rev8(Update(c, b))
  {
    hide Rev8, Xor, Xor8, Low, Wide, ShiftByte, UpByte, TopByte, Steps;
    var low := Low(Xor(c, Wide(b)));
    Rev8Bytes(c); Rev8Shift(c); LowXor(c, b);
    ByteKeepsShift(c, b);
    TableStep(Xor(c, Wide(b)));
    assert t[0, low as int] == Rev8(Entry(0, low));
    Rev8Xor(Entry(0, low), ShiftByte(c));
  }

  /** The eight lookups of the big-endian word loop. */
  function BigSlice8(t: array2<bv64>, x: bv64): bv64
    requires Shape(t)
    reads t
  {
    Xor(Xor(Xor(Xor(Xor(Xor(Xor(
      t[0, Low(x) as int], t[1, Byte1(x) as int]), t[2, Byte2(x) as int]), t[3, Byte3(x) as int]),
      t[4, Byte4(x) as int]), t[5, Byte5(x) as int]), t[6, Byte6(x) as int]), t[7, Byte7(x) as int])
  }

  /** `Steps(x, 8 * (k + 1))` from the register with one byte fewer. */
  lemma PeelByteLast(x: bv64, k: nat)
    ensures Steps(x, 8 * (k + 1)) == Xor(Steps(ShiftByte(x), 8 * k), Entry(k, Low(x)))
  {
    hide Steps, Xor, Low, Entry, ShiftByte;
    PeelByte(0, x, k);
    XorZero(Steps(x, 8 * (k + 1))); XorZero(Entry(k, Low(x)));
    XorComm(Entry(k, Low(x)), Steps(ShiftByte(x), 8 * k));
  }

  lemma BigSlice8IsSteps(t: array2<bv64>, x: bv64)
    requires Shape(t) && BigTables(t)
    ensures BigSlice8(t, Rev8(x)) == Rev8(Steps(x, 64))
  {
    hide Rev8, Steps, Xor, Low, Entry, ShiftByte, Byte1, Byte2, Byte3, Byte4, Byte5, Byte6, Byte7;
    var x1 := ShiftByte(x); var x2 := ShiftByte(x1); var x3 := ShiftByte(x2); var x4 := ShiftByte(x3);
    var x5 := ShiftByte(x4); var x6 := ShiftByte(x5); var x7 := ShiftByte(x6);
    ByteChain(x); ByteChainHigh(x); Rev8Bytes(x);
    PeelByteLast(x7, 0); StepsZero(0); XorZero(Entry(0, Low(x7)));
    PeelByteLast(x6, 1); PeelByteLast(x5, 2); PeelByteLast(x4, 3); PeelByteLast(x3, 4);
    PeelByteLast(x2, 5); PeelByteLast(x1, 6); PeelByteLast(x, 7);
    Rev8Xor(Steps(x7, 8), Entry(1, Low(x6)));
    Rev8Xor(Steps(x6, 16), Entry(2, Low(x5)));
    Rev8Xor(Steps(x5, 24), Entry(3, Low(x4)));
    Rev8Xor(Steps(x4, 32), Entry(4, Low(x3)));
    Rev8Xor(Steps(x3, 40), Entry(5, Low(x2)));
    Rev8Xor(Steps(x2, 48), Entry(6, Low(x1)));
    Rev8Xor(Steps(x1, 56), Entry(7, Low(x)));
  }

  /** The word with bytes `b0` (least significant) to `b7`. */
  function Pack(b0: bv8, b1: bv8, b2: bv8, b3: bv8, b4: bv8, b5: bv8, b6: bv8, b7: bv8): bv64 {
    ((b7 as bv64) << 56) | ((b6 as bv64) << 48) | ((b5 as bv64) << 40) | ((b4 as bv64) << 32)
    | ((b3 as bv64) << 24) | ((b2 as bv64) << 16) | ((b1 as bv64) << 8) | (b0 as bv64)
  }

  /** The word a big-endian machine reads from eight bytes. */
  function Big(s: seq<bv8>): bv64
    requires |s| == 8
  {
    Pack(s[7], s[6], s[5], s[4], s[3], s[2], s[1], s[0])
  }

  function Horner(b: bv8, x: bv64): bv64 { Xor(Wide(b), UpByte(x)) }

  lemma LittleHead(s: seq<bv8>, k: nat)
    requires k < |s| <= 8
    ensures Little(s[k..]) == Horner(s[k], Little(s[k + 1..]))
  {
    hide Xor, Wide, UpByte;
    assert s[k..][1..] == s[k + 1..];
  }

  lemma HornerIsPack(b0: bv8, b1: bv8, b2: bv8, b3: bv8, b4: bv8, b5: bv8, b6: bv8, b7: bv8)
    ensures Horner(b0, Horner(b1, Horner(b2, Horner(b3, Horner(b4, Horner(b5, Horner(b6, Horner(b7, 0))))))))
         == Pack(b0, b1, b2, b3, b4, b5, b6, b7)
  {}

  /** The little-endian value of eight bytes is the word a little-endian machine reads. */
  lemma LittleIsPack(s: seq<bv8>)
    requires |s| == 8
    ensures Little(s) == Pack(s[0], s[1], s[2], s[3], s[4], s[5], s[6], s[7])
  {
    hide Horner, Little, Pack;
    LittleHead(s, 0); LittleHead(s, 1); LittleHead(s, 2); LittleHead(s, 3);
    LittleHead(s, 4); LittleHead(s, 5); LittleHead(s, 6); LittleHead(s, 7);
    assert s[0..] == s && s[8..] == [];
    LittleNone();
    HornerIsPack(s[0], s[1], s[2], s[3], s[4], s[5], s[6], s[7]);
  }

  lemma LittleNone()
    ensures Little([]) == 0
  {}

  lemma Rev8Pack(b0: bv8, b1: bv8, b2: bv8, b3: bv8, b4: bv8, b5: bv8, b6: bv8, b7: bv8)
    ensures Rev8(Pack(b0, b1, b2, b3, b4, b5, b6, b7)) == Pack(b7, b6, b5, b4, b3, b2, b1, b0)
  {}

  lemma BigIsRev8(s: seq<bv8>)
    requires |s| == 8
    ensures Big(s) == Rev8(Little(s))
  {
    hide Rev8, Little, Pack;
    LittleIsPack(s);
    Rev8Pack(s[0], s[1], s[2], s[3], s[4], s[5], s[6], s[7]);
  }

  lemma BigWordAdvances(t: array2<bv64>, c: bv64, buf: seq<bv8>, at: nat)
    requires Shape(t) && BigTables(t) && at + 8 <= |buf|
    ensures BigSlice8(t, Xor(Rev8(Crc(c, buf[0..at])), Big(buf[at..at + 8]))) == Rev8(Crc(c, buf[0..at + 8]))
  {
    hide BigSlice8, Rev8, Big, Xor, Little, Steps, Crc;
    var d, w := Crc(c, buf[0..at]), buf[at..at + 8];
    BigIsRev8(w);
    Rev8Xor(d, Little(w));
    BigSlice8IsSteps(t, Xor(d, Little(w)));
    WordAtOnce(d, w);
    CrcAppend(c, buf[0..at], w);
    assert buf[0..at] + w == buf[0..at + 8];
  }

  lemma BigByteAdvances(t: array2<bv64>, c: bv64, buf: seq<bv8>, at: nat)
    requires Shape(t) && BigTables(t) && at < |buf|
    ensures ByBigTable(t, Rev8(Crc(c, buf[0..at])), buf[at]) == Rev8(Crc(c, buf[0..at + 1]))
  {
    hide ByBigTable, Rev8, Update;
    ByBigTableIsUpdate(t, Crc(c, buf[0..at]), buf[at]);
    assert buf[0..at + 1][..at] == buf[0..at];
  }

  /** `crcspeed64big`: the same value as the little-endian code, for any buffer and address. */
  method CrcSpeedBig(t: array2<bv64>, crc: bv64, buf: seq<bv8>, address: nat) returns (r: bv64)
    requires Shape(t) && BigTables(t)
    ensures r == Crc(crc, buf)
  {
    hide BigSlice8, ByBigTable, Rev8, Big, Xor, Crc, BigTables;
    var c := Rev8(crc);
    var next, len := 0, |buf|;
    CrcEmpty(crc);
    assert buf[0..0] == [];
    while len != 0 && (address + next) % 8 != 0
      invariant 0 <= next && 0 <= len && next + len == |buf| && c == Rev8(Crc(crc, buf[0..next]))
    {
      BigByteAdvances(t, crc, buf, next);
      c := ByBigTable(t, c, buf[next]);
      next, len := next + 1, len - 1;
    }
    while len >= 8
      invariant 0 <= next && 0 <= len && next + len == |buf| && c == Rev8(Crc(crc, buf[0..next]))
    {
      BigWordAdvances(t, crc, buf, next);
      c := BigSlice8(t, Xor(c, Big(buf[next..next + 8])));
      next, len := next + 8, len - 8;
    }
    while len != 0
      invariant 0 <= next && 0 <= len && next + len == |buf| && c == Rev8(Crc(crc, buf[0..next]))
    {
      BigByteAdvances(t, crc, buf, next);
      c := ByBigTable(t, c, buf[next]);
      next, len := next + 1, len - 1;
    }
    assert buf[0..next] == buf;
    Rev8Involutive(Crc(crc, buf));
    r := Rev8(c);
  }
}
