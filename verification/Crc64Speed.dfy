/**
 crcspeed.c: slice-by-8 tables, the two- and three-way split of long buffers and
 the byte-reversed variant, all proved equal to `Crc64.Crc`.
 */
module Crc64Speed {
  import opened Crc64
  import opened Crc64Reference
  import opened Crc64Combine
  import opened Powers

  // ----- words of eight bytes

  function UpByte(x: bv64): bv64 { x << 8 }

  /** The little-endian value of up to eight bytes. */
  function Little(s: seq<bv8>): bv64
    requires |s| <= 8
    decreases |s|
  {
    if s == [] then 0 else Xor(Wide(s[0]), UpByte(Little(s[1..])))
  }

  predicate Below(x: bv64, bytes: nat)
  {
    if bytes == 0 then x == 0
    else if bytes == 1 then x <= 0xff
    else if bytes == 2 then x <= 0xffff
    else if bytes == 3 then x <= 0xff_ffff
    else if bytes == 4 then x <= 0xffff_ffff
    else if bytes == 5 then x <= 0xff_ffff_ffff
    else if bytes == 6 then x <= 0xffff_ffff_ffff
    else if bytes == 7 then x <= 0xff_ffff_ffff_ffff
    else true
  }

  lemma BelowStep(b: bv8, x: bv64, bytes: nat)
    requires Below(x, bytes) && bytes < 8
    ensures Below(Xor(Wide(b), UpByte(x)), bytes + 1)
  {}

  lemma UpByteOut(x: bv64, bytes: nat)
    requires Below(x, bytes) && bytes < 8
    ensures UpByte(x) & 0xff == 0 && ShiftByte(UpByte(x)) == x
  {}

  lemma {:induction false} LittleBelow(s: seq<bv8>)
    requires |s| <= 8
    ensures Below(Little(s), |s|)
    decreases |s|
  {
    hide Below, Xor, Wide, UpByte;
    if s == [] {
      NoBytes();
    } else {
      LittleBelow(s[1..]);
      BelowStep(s[0], Little(s[1..]), |s| - 1);
    }
  }

  lemma NoBytes()
    ensures Below(0, 0)
  {}

  lemma StepsUpByte(x: bv64, bytes: nat)
    requires Below(x, bytes) && bytes < 8
    ensures Steps(UpByte(x), 8) == x
  {
    hide Steps, Below, UpByte, ShiftByte;
    UpByteOut(x, bytes);
    ShiftOut(UpByte(x));
  }

  /** Up to eight bytes enter the register at once. */
  lemma {:induction false} WordAtOnce(c: bv64, s: seq<bv8>)
    requires |s| <= 8
    ensures Crc(c, s) == Steps(Xor(c, Little(s)), 8 * |s|)
    decreases |s|
  {
    hide Xor, Wide, UpByte, Step, Crc, Update, Below;
    if s == [] {
      CrcEmpty(c);
      XorZero(c);
    } else {
      var b, rest := s[0], s[1..];
      var w := Little(rest);
      assert s == [b] + rest;
      CrcAppend(c, [b], rest);
      CrcSingle(c, b);
      WordAtOnce(Update(c, b), rest);
      LittleBelow(rest);
      StepsUpByte(w, |rest|);
      XorAssoc(c, Wide(b), UpByte(w));
      FirstByte(Xor(c, Wide(b)), UpByte(w), 8 * |rest|);
      UpdateNamed(c, b);
    }
  }

  lemma CrcEmpty(c: bv64)
    ensures Crc(c, []) == c
  {}

  lemma CrcSingle(c: bv64, b: bv8)
    ensures Crc(c, [b]) == Update(c, b)
  {
    hide Update;
    assert [b][..0] == [];
    CrcEmpty(c);
  }

  lemma UpdateNamed(c: bv64, b: bv8)
    ensures Update(c, b) == Steps(Xor(c, Wide(b)), 8)
  {}

  lemma FirstByte(x: bv64, y: bv64, n: nat)
    ensures Steps(Xor(x, y), 8 + n) == Steps(Xor(Steps(x, 8), Steps(y, 8)), n)
  {
    hide Steps, Xor;
    StepsAdd(Xor(x, y), 8, n);
    StepsLinear(x, y, 8);
  }

  // ----- lookup tables

  /** What entry `b` of table `k` has to be: byte `b` followed by `k` zero bytes. */
  function Entry(k: nat, b: bv8): bv64 { Steps(Wide(b), 8 * (k + 1)) }

  ghost predicate Shape(t: array2<bv64>) { t.Length0 == 8 && t.Length1 == 256 }

  ghost predicate Tables(t: array2<bv64>)
    requires Shape(t)
    reads t
  {
    forall k, b: bv8 :: 0 <= k < 8 ==> t[k, b as int] == Entry(k, b)
  }

  lemma NextByte(v: bv8)
    requires v != 255
    ensures (v + 1) as int == v as int + 1
  {}

  lemma {:induction false} ByteOf(n: int) returns (b: bv8)
    requires 0 <= n < 256
    ensures b as int == n
  {
    if n == 0 {
      b := 0;
    } else {
      var c := ByteOf(n - 1);
      NextByte(c);
      b := c + 1;
    }
  }

  lemma ByteIndex(n: int)
    requires 0 <= n < 256
    ensures (n as bv8) as int == n
  {
    var b := ByteOf(n);
    ByteRoundTrip(b);
  }

  lemma ByteRoundTrip(b: bv8)
    ensures (b as int) as bv8 == b
  {}

  lemma FirstEntry(b: bv8)
    ensures Crc(Reflect(0), [b]) == Entry(0, b)
  {
    hide Crc, Reflect, Xor, Wide, Steps;
    ReflectZero();
    CrcSingle(0, b);
    XorZero(Wide(b));
  }

  lemma NextEntry(k: nat, b: bv8)
    ensures Entry(k + 1, b) == Xor(Entry(0, Low(Entry(k, b))), ShiftByte(Entry(k, b)))
  {
    hide Steps, Xor, Wide, Low, ShiftByte;
    StepsAdd(Wide(b), 8 * (k + 1), 8);
    TableStep(Entry(k, b));
  }

  /** `crcspeed64little_init`. */
  method FillTables(t: array2<bv64>)
    requires Shape(t)
    modifies t
    ensures Tables(t)
  {
    hide Entry;
    FillFirst(t);
    for n := 0 to 256
      invariant forall b: bv8 :: t[0, b as int] == Entry(0, b)
      invariant forall k, b: bv8 :: 0 <= k < 8 && b as int < n ==> t[k, b as int] == Entry(k, b)
    {
      ByteIndex(n);
      FillColumn(t, n);
    }
  }

  method FillFirst(t: array2<bv64>)
    requires Shape(t)
    modifies t
    ensures forall b: bv8 :: t[0, b as int] == Entry(0, b)
  {
    hide Entry, Crc, Reflect;
    for n := 0 to 256
      invariant forall b: bv8 :: b as int < n ==> t[0, b as int] == Entry(0, b)
    {
      var v := n as bv8;
      ByteIndex(n);
      FirstEntry(v);
      var e := BitByBit(0, [v]);
      t[0, n] := e;
    }
  }

  method FillColumn(t: array2<bv64>, n: nat)
    requires Shape(t) && n < 256
    requires forall b: bv8 :: t[0, b as int] == Entry(0, b)
    modifies t
    ensures forall k :: 0 <= k < 8 ==> t[k, n] == Entry(k, n as bv8)
    ensures forall b: bv8 :: t[0, b as int] == Entry(0, b)
    ensures forall k, m :: 0 <= k < 8 && 0 <= m < 256 && m != n ==> t[k, m] == old(t[k, m])
  {
    hide Entry, Xor, Low, ShiftByte;
    ByteIndex(n);
    var crc := t[0, n];
    for k := 1 to 8
      invariant crc == Entry(k - 1, n as bv8)
      invariant forall i :: 0 <= i < k ==> t[i, n] == Entry(i, n as bv8)
      invariant forall b: bv8 :: t[0, b as int] == Entry(0, b)
      invariant forall i, m :: 0 <= i < 8 && 0 <= m < 256 && m != n ==> t[i, m] == old(t[i, m])
    {
      NextEntry(k - 1, n as bv8);
      crc := Xor(t[0, Low(crc) as int], ShiftByte(crc));
      t[k, n] := crc;
    }
  }

  // ----- one byte and one word by table

  lemma ByteKeepsShift(c: bv64, b: bv8)
    ensures ShiftByte(Xor(c, Wide(b))) == ShiftByte(c)
  {}

  /** The byte-at-a-time recurrence of both loops. */
  function ByTable(t: array2<bv64>, c: bv64, b: bv8): bv64
    requires Shape(t)
    reads t
  {
    Xor(t[0, Low(Xor(c, Wide(b))) as int], ShiftByte(c))
  }

  lemma ByTableIsUpdate(t: array2<bv64>, c: bv64, b: bv8)
    requires Shape(t) && Tables(t)
    ensures ByTable(t, c, b) == Update(c, b)
  {
    hide Xor, Low, Wide, ShiftByte, Steps;
    ByteKeepsShift(c, b);
    TableStep(Xor(c, Wide(b)));
    var low := Low(Xor(c, Wide(b)));
    assert t[0, low as int] == Entry(0, low);
  }

  function Byte1(x: bv64): bv8 { ((x >> 8) & 0xff) as bv8 }
  function Byte2(x: bv64): bv8 { ((x >> 16) & 0xff) as bv8 }
  function Byte3(x: bv64): bv8 { ((x >> 24) & 0xff) as bv8 }
  function Byte4(x: bv64): bv8 { ((x >> 32) & 0xff) as bv8 }
  function Byte5(x: bv64): bv8 { ((x >> 40) & 0xff) as bv8 }
  function Byte6(x: bv64): bv8 { ((x >> 48) & 0xff) as bv8 }
  function Byte7(x: bv64): bv8 { (x >> 56) as bv8 }

  /** The eight lookups of the `DO_8_2` macro. */
  function Slice8(t: array2<bv64>, x: bv64): bv64
    requires Shape(t)
    reads t
  {
    Xor(Xor(Xor(Xor(Xor(Xor(Xor(
      t[7, Low(x) as int], t[6, Byte1(x) as int]), t[5, Byte2(x) as int]), t[4, Byte3(x) as int]),
      t[3, Byte4(x) as int]), t[2, Byte5(x) as int]), t[1, Byte6(x) as int]), t[0, Byte7(x) as int])
  }

  lemma ByteChain(x: bv64)
    ensures var x1 := ShiftByte(x); var x2 := ShiftByte(x1); var x3 := ShiftByte(x2); var x4 := ShiftByte(x3);
            Low(x1) == Byte1(x) && Low(x2) == Byte2(x) && Low(x3) == Byte3(x) && Low(x4) == Byte4(x)
  {}

  lemma ByteChainHigh(x: bv64)
    ensures var x4 := ShiftByte(ShiftByte(ShiftByte(ShiftByte(x))));
            var x5 := ShiftByte(x4); var x6 := ShiftByte(x5); var x7 := ShiftByte(x6);
            Low(x5) == Byte5(x) && Low(x6) == Byte6(x) && Low(x7) == Byte7(x) && ShiftByte(x7) == 0
  {}

  /** Taking one byte out of what is left of the word. */
  lemma PeelByte(acc: bv64, x: bv64, k: nat)
    ensures Xor(acc, Steps(x, 8 * (k + 1))) == Xor(Xor(acc, Entry(k, Low(x))), Steps(ShiftByte(x), 8 * k))
  {
    hide Steps, Xor, Low, Wide, ShiftByte;
    var e := Wide(Low(x));
    StepsAdd(x, 8, 8 * k);
    TableStep(x);
    StepsLinear(Steps(e, 8), ShiftByte(x), 8 * k);
    StepsAdd(e, 8, 8 * k);
    XorAssoc(acc, Entry(k, Low(x)), Steps(ShiftByte(x), 8 * k));
  }

  lemma Slice8IsSteps(t: array2<bv64>, x: bv64)
    requires Shape(t) && Tables(t)
    ensures Slice8(t, x) == Steps(x, 64)
  {
    hide Steps, Xor, Low, Entry, ShiftByte, Byte1, Byte2, Byte3, Byte4, Byte5, Byte6, Byte7;
    var x1 := ShiftByte(x); var x2 := ShiftByte(x1); var x3 := ShiftByte(x2); var x4 := ShiftByte(x3);
    var x5 := ShiftByte(x4); var x6 := ShiftByte(x5); var x7 := ShiftByte(x6);
    ByteChain(x); ByteChainHigh(x);
    var a0 := Entry(7, Low(x));
    var a1 := Xor(a0, Entry(6, Low(x1)));
    var a2 := Xor(a1, Entry(5, Low(x2)));
    var a3 := Xor(a2, Entry(4, Low(x3)));
    var a4 := Xor(a3, Entry(3, Low(x4)));
    var a5 := Xor(a4, Entry(2, Low(x5)));
    var a6 := Xor(a5, Entry(1, Low(x6)));
    var a7 := Xor(a6, Entry(0, Low(x7)));
    PeelByte(0, x, 7);
    XorZero(Steps(x, 64)); XorZero(a0);
    PeelByte(a0, x1, 6); PeelByte(a1, x2, 5); PeelByte(a2, x3, 4); PeelByte(a3, x4, 3);
    PeelByte(a4, x5, 2); PeelByte(a5, x6, 1); PeelByte(a6, x7, 0);
    StepsZero(0);
    XorZero(a7);
    assert Steps(x, 64) == a7;
  }

  // ----- progress through a buffer

  lemma ByteAdvances(t: array2<bv64>, c: bv64, buf: seq<bv8>, from: nat, at: nat)
    requires Shape(t) && Tables(t) && from <= at < |buf|
    ensures ByTable(t, Crc(c, buf[from..at]), buf[at]) == Crc(c, buf[from..at + 1])
  {
    hide ByTable, Update;
    ByTableIsUpdate(t, Crc(c, buf[from..at]), buf[at]);
    assert buf[from..at + 1][..at - from] == buf[from..at];
  }

  lemma WordAdvances(t: array2<bv64>, c: bv64, buf: seq<bv8>, from: nat, at: nat)
    requires Shape(t) && Tables(t) && from <= at && at + 8 <= |buf|
    ensures Slice8(t, Xor(Crc(c, buf[from..at]), Little(buf[at..at + 8]))) == Crc(c, buf[from..at + 8])
  {
    hide Slice8, Xor, Little, Steps, Crc;
    var d := Crc(c, buf[from..at]);
    Slice8IsSteps(t, Xor(d, Little(buf[at..at + 8])));
    WordAtOnce(d, buf[at..at + 8]);
    CrcAppend(c, buf[from..at], buf[at..at + 8]);
    assert buf[from..at] + buf[at..at + 8] == buf[from..at + 8];
  }

  /** The length mask of `CRC64_SPLIT`: for a third or half of a 64-bit length it clears the low three bits. */
  function LenMask(n: nat): (r: nat)
    ensures r <= n < r + 8 && r % 8 == 0
  {
    n / 8 * 8
  }

  function WordOf(y: bv61, r: bv3): bv64 { (y as bv64 << 3) | r as bv64 }

  function Upper(x: bv64): bv61 { (x >> 3) as bv61 }

  function Lowest(x: bv64): bv3 { (x & 7) as bv3 }

  /** `x & CRC64_LEN_MASK`. */
  function Masked(x: bv64): bv64 { x & 0x7fff_ffff_ffff_fff8 }

  lemma WordParts(x: bv64)
    ensures x == WordOf(Upper(x), Lowest(x))
    ensures x <= 0x7fff_ffff_ffff_ffff ==> Masked(x) == WordOf(Upper(x), 0)
  {}

  function Number(x: bv64): nat { x as nat }

  function UpperNumber(y: bv61): nat { y as nat }

  function LowestNumber(r: bv3): nat { r as nat }

  /** The number a word stands for, from its upper 61 and its lower three bits. */
  lemma WordNumber(y: bv61, r: bv3)
    ensures Number(WordOf(y, r)) == UpperNumber(y) * 8 + LowestNumber(r)
  {}

  lemma LowestIsSmall(r: bv3)
    ensures LowestNumber(r) < 8 && LowestNumber(0) == 0
  {}

  /** A third or a half of a 64-bit length is below 2^63, and there the mask of the source is `LenMask`. */
  lemma LenMaskOnWords(x: bv64)
    requires x <= 0x7fff_ffff_ffff_ffff
    ensures Number(Masked(x)) == LenMask(Number(x))
  {
    hide WordOf, Upper, Lowest, Masked, LenMask, Number, UpperNumber, LowestNumber;
    WordParts(x);
    var y, r := Upper(x), Lowest(x);
    WordNumber(y, r);
    WordNumber(y, 0);
    LowestIsSmall(r);
    ByEights(Number(x), UpperNumber(y), LowestNumber(r));
  }

  lemma ByEights(n: nat, q: nat, r: nat)
    requires n == q * 8 + r && r < 8
    ensures LenMask(n) == q * 8
  {}

  /** `MERGE_CRC` on two adjacent stretches of the buffer. */
  lemma MergeStretch(c: bv64, buf: seq<bv8>, from: nat, mid: nat, to: nat)
    requires from <= mid <= to <= |buf|
    ensures Crc(c, buf[from..to])
         == if to - mid == 0 then Crc(c, buf[from..mid])
            else Xor(Steps(Crc(c, buf[from..mid]), 8 * (to - mid)), Crc(0, buf[mid..to]))
  {
    hide Crc, Steps, Xor;
    CombineIsConcat(c, buf[from..mid], buf[mid..to]);
    assert buf[from..mid] + buf[mid..to] == buf[from..to];
  }

  /** The stepping loop of the three-way branch: three stretches of `size` bytes side by side. */
  method ThreeLanes(t: array2<bv64>, ghost c: bv64, crc: bv64, buf: seq<bv8>, start: nat, size: nat)
      returns (crc1: bv64, crc2: bv64, crc3: bv64, next1: nat, next2: nat, next3: nat)
    requires Shape(t) && Tables(t)
    requires size % 8 == 0 && start + 3 * size <= |buf| && crc == Crc(c, buf[0..start])
    ensures next1 == start + size && next2 == next1 + size && next3 == next2 + size
    ensures crc1 == Crc(c, buf[0..next1]) && crc2 == Crc(0, buf[next1..next2]) && crc3 == Crc(0, buf[next2..next3])
  {
    hide Slice8, Xor, Little, Steps, Crc, Tables;
    crc1, crc2, crc3 := crc, 0, 0;
    next1, next2, next3 := start, start + size, start + 2 * size;
    var len := size;
    ghost var mid1, mid2 := next2, next3;
    CrcEmpty(0);
    assert buf[mid1..mid1] == [] && buf[mid2..mid2] == [];
    while len >= 8
      invariant len % 8 == 0 && next1 == start + size - len && next2 == next1 + size && next3 == next2 + size
      invariant 0 <= len <= size
      invariant crc1 == Crc(c, buf[0..next1])
      invariant crc2 == Crc(0, buf[mid1..next2]) && crc3 == Crc(0, buf[mid2..next3])
    {
      len := len - 8;
      WordAdvances(t, c, buf, 0, next1);
      WordAdvances(t, 0, buf, mid1, next2);
      WordAdvances(t, 0, buf, mid2, next3);
      crc1 := Slice8(t, Xor(crc1, Little(buf[next1..next1 + 8])));
      crc2 := Slice8(t, Xor(crc2, Little(buf[next2..next2 + 8])));
      crc3 := Slice8(t, Xor(crc3, Little(buf[next3..next3 + 8])));
      next1, next2, next3 := next1 + 8, next2 + 8, next3 + 8;
    }
  }

  /** The stepping loop of the two-way branch. */
  method TwoLanes(t: array2<bv64>, ghost c: bv64, crc: bv64, buf: seq<bv8>, start: nat, size: nat)
      returns (crc1: bv64, crc2: bv64, next1: nat, next2: nat)
    requires Shape(t) && Tables(t)
    requires size % 8 == 0 && start + 2 * size <= |buf| && crc == Crc(c, buf[0..start])
    ensures next1 == start + size && next2 == next1 + size
    ensures crc1 == Crc(c, buf[0..next1]) && crc2 == Crc(0, buf[next1..next2])
  {
    hide Slice8, Xor, Little, Steps, Crc, Tables;
    crc1, crc2 := crc, 0;
    next1, next2 := start, start + size;
    var len := size;
    ghost var mid := next2;
    CrcEmpty(0);
    assert buf[mid..mid] == [];
    while len >= 8
      invariant len % 8 == 0 && next1 == start + size - len && next2 == next1 + size
      invariant 0 <= len <= size
      invariant crc1 == Crc(c, buf[0..next1]) && crc2 == Crc(0, buf[mid..next2])
    {
      len := len - 8;
      WordAdvances(t, c, buf, 0, next1);
      WordAdvances(t, 0, buf, mid, next2);
      crc1 := Slice8(t, Xor(crc1, Little(buf[next1..next1 + 8])));
      crc2 := Slice8(t, Xor(crc2, Little(buf[next2..next2 + 8])));
      next1, next2 := next1 + 8, next2 + 8;
    }
  }

  /** The single-lane loop over whole words. */
  method WholeWords(t: array2<bv64>, ghost c: bv64, crc: bv64, buf: seq<bv8>, start: nat)
      returns (crc1: bv64, next: nat)
    requires Shape(t) && Tables(t)
    requires start <= |buf| && crc == Crc(c, buf[0..start])
    ensures start <= next <= |buf| && crc1 == Crc(c, buf[0..next])
  {
    hide Slice8, Xor, Little, Steps, Crc, Tables;
    crc1, next := crc, start;
    var len := |buf| - start;
    while len >= 8
      invariant start <= next && 0 <= len && next + len == |buf| && crc1 == Crc(c, buf[0..next])
    {
      len := len - 8;
      WordAdvances(t, c, buf, 0, next);
      crc1 := Slice8(t, Xor(crc1, Little(buf[next..next + 8])));
      next := next + 8;
    }
  }

  /** Single bytes, up to an aligned address or to the end of the buffer. */
  method Bytes(t: array2<bv64>, ghost c: bv64, crc: bv64, buf: seq<bv8>, start: nat, address: nat, align: bool)
      returns (crc1: bv64, next: nat)
    requires Shape(t) && Tables(t)
    requires start <= |buf| && crc == Crc(c, buf[0..start])
    ensures start <= next <= |buf| && crc1 == Crc(c, buf[0..next])
    ensures !align ==> next == |buf|
  {
    hide ByTable, Xor, Steps, Crc, Tables;
    crc1, next := crc, start;
    var len := |buf| - start;
    while len != 0 && (!align || (address + next) % 8 != 0)
      invariant start <= next && 0 <= len && next + len == |buf| && crc1 == Crc(c, buf[0..next])
    {
      ByteAdvances(t, c, buf, 0, next);
      crc1 := ByTable(t, crc1, buf[next]);
      next, len := next + 1, len - 1;
    }
  }

  /** The three-way branch: three stretches in step, then two merges. */
  method SplitThree(t: array2<bv64>, cache: CombineCache, ghost c: bv64, crc: bv64, buf: seq<bv8>, start: nat)
      returns (crc1: bv64, next: nat)
    requires Shape(t) && Tables(t) && cache.Valid() && |buf| < TWO_64
    requires start <= |buf| && crc == Crc(c, buf[0..start])
    modifies cache.layers
    ensures cache.Valid()
    ensures next <= |buf| && crc1 == Crc(c, buf[0..next])
  {
    hide Xor, Steps, Crc, Tables;
    var crc2: bv64, crc3: bv64, next1: nat, next2: nat, next3: nat;
    var size := LenMask((|buf| - start) / 3);
    crc1, crc2, crc3, next1, next2, next3 := ThreeLanes(t, c, crc, buf, start, size);
    MergeStretch(c, buf, 0, next1, next2);
    MergeStretch(c, buf, 0, next2, next3);
    crc1 := cache.Combine(crc1, crc2, next2 - next1);
    crc1 := cache.Combine(crc1, crc3, next2 - next1);
    next := next3;
  }

  /** The two-way branch. */
  method SplitTwo(t: array2<bv64>, cache: CombineCache, ghost c: bv64, crc: bv64, buf: seq<bv8>, start: nat)
      returns (crc1: bv64, next: nat)
    requires Shape(t) && Tables(t) && cache.Valid() && |buf| < TWO_64
    requires start <= |buf| && crc == Crc(c, buf[0..start])
    modifies cache.layers
    ensures cache.Valid()
    ensures next <= |buf| && crc1 == Crc(c, buf[0..next])
  {
    hide Xor, Steps, Crc, Tables;
    var crc2: bv64, next1: nat, next2: nat;
    var size := LenMask((|buf| - start) / 2);
    crc1, crc2, next1, next2 := TwoLanes(t, c, crc, buf, start, size);
    MergeStretch(c, buf, 0, next1, next2);
    crc1 := cache.Combine(crc1, crc2, next2 - next1);
    next := next2;
  }

  /**
   `crcspeed64little`: any buffer at any address, any start value and any pair of
   cutoffs give the byte-at-a-time CRC.
   */
  method CrcSpeedLittle(t: array2<bv64>, cache: CombineCache, crc: bv64, buf: seq<bv8>, address: nat,
                        dualCutoff: nat, triCutoff: nat)
      returns (crc1: bv64)
    requires Shape(t) && Tables(t) && cache.Valid() && cache.layers != t && |buf| < TWO_64
    modifies cache.layers
    ensures cache.Valid()
    ensures crc1 == Crc(crc, buf)
  {
    hide Xor, Steps, Crc, Tables;
    var next := 0;
    crc1 := crc;
    CrcEmpty(crc);
    assert buf[0..0] == [] && buf[0..|buf|] == buf;
    if dualCutoff >= 1 {
      crc1, next := Bytes(t, crc, crc1, buf, next, address, true);
      if |buf| - next > triCutoff {
        crc1, next := SplitThree(t, cache, crc, crc1, buf, next);
      } else if |buf| - next > dualCutoff {
        crc1, next := SplitTwo(t, cache, crc, crc1, buf, next);
      }
      crc1, next := WholeWords(t, crc, crc1, buf, next);
    }
    crc1, next := Bytes(t, crc, crc1, buf, next, address, false);
  }
}
