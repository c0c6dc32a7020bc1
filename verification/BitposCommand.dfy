/** BITPOS (bitops.c): the first set or clear bit of a string, or of a range of its bytes or bits. */
module BitposCommand {
  import opened Bits
  import opened BitRange
  import opened Bitpos

  // ----- masked bytes

  /** The bits before bit `k` are made to look like the other bit. */
  function WithoutFirst(b: bv8, k: nat, bit: bool): bv8
    requires k < 8
  {
    if bit then AndNot(b, FirstMask(k)) else Or(b, FirstMask(k))
  }

  /** The bits after bit `k` are made to look like the other bit. */
  function WithoutLast(b: bv8, k: nat, bit: bool): bv8
    requires k < 8
  {
    if bit then AndNot(b, LastMask(k)) else Or(b, LastMask(k))
  }

  lemma WithoutFirstBit(b: bv8, k: nat, bit: bool, j: nat)
    requires k < 8 && j < 8
    ensures BitOf(WithoutFirst(b, k, bit), j) == if j < k then !bit else BitOf(b, j)
  {
    hide BitOf, FirstMask, AndNot, Or;
    AndNotBit(b, FirstMask(k), j); OrBit(b, FirstMask(k), j); FirstMaskBit(k, j);
  }

  lemma WithoutLastBit(b: bv8, k: nat, bit: bool, j: nat)
    requires k < 8 && j < 8
    ensures BitOf(WithoutLast(b, k, bit), j) == if j > k then !bit else BitOf(b, j)
  {
    hide BitOf, LastMask, AndNot, Or;
    AndNotBit(b, LastMask(k), j); OrBit(b, LastMask(k), j); LastMaskBit(k, j);
  }

  // ----- a chunk of the range

  /** The string seen through the range `lo..hi`: other places never hold the bit that is looked for. */
  ghost predicate Seen(s: seq<bv8>, bit: bool, lo: nat, hi: nat, i: nat) { lo <= i < hi && Bit(s, i) == bit }

  /** A chunk holds the bit exactly where the range shows it. */
  ghost predicate Shows(t: seq<bv8>, s: seq<bv8>, bit: bool, lo: nat, hi: nat, at: nat) {
    forall i: nat :: i < 8 * |t| ==> (Bit(t, i) == bit <==> Seen(s, bit, lo, hi, 8 * at + i))
  }

  /** A search of a chunk found the bit in it. */
  predicate Hit(pos: int, t: seq<bv8>) { pos != -1 && pos != 8 * |t| }

  ghost predicate NotBefore(s: seq<bv8>, bit: bool, lo: nat, hi: nat, n: nat) {
    forall i: nat :: i < n ==> !Seen(s, bit, lo, hi, i)
  }

  /** The search of a chunk moves on to its end, or finds the first place of the range. */
  lemma ChunkSearched(t: seq<bv8>, s: seq<bv8>, bit: bool, lo: nat, hi: nat, at: nat, pos: int)
    requires Shows(t, s, bit, lo, hi, at) && IsFirst(t, bit, pos) && pos <= 8 * |t| && NotBefore(s, bit, lo, hi, 8 * at)
    ensures Hit(pos, t) ==> 0 <= pos && Seen(s, bit, lo, hi, 8 * at + pos) && NotBefore(s, bit, lo, hi, 8 * at + pos)
    ensures !Hit(pos, t) ==> NotBefore(s, bit, lo, hi, 8 * (at + |t|)) && (bit ==> pos == -1) && (pos != -1 ==> !bit)
  {
    hide Bit, Seen;
    if Hit(pos, t) {
      forall i: nat | i < 8 * at + pos ensures !Seen(s, bit, lo, hi, i) {
        if i >= 8 * at { assert Bit(t, i - 8 * at) != bit; }
      }
    } else {
      NoBitBeyond(t, 8 * |t|);
      forall i: nat | i < 8 * (at + |t|) ensures !Seen(s, bit, lo, hi, i) {
        if i >= 8 * at { assert Bit(t, i - 8 * at) != bit; }
      }
    }
  }

  lemma NoBitBeyond(t: seq<bv8>, i: nat)
    requires i >= 8 * |t|
    ensures !Bit(t, i)
  {}

  /** One byte of the range, with the places outside it masked. */
  lemma ByteShows(b: bv8, s: seq<bv8>, bit: bool, lo: nat, hi: nat, at: nat)
    requires at < |s|
    requires forall j :: 0 <= j < 8 ==> BitOf(b, j) == if lo <= 8 * at + j < hi then BitOf(s[at], j) else !bit
    ensures Shows([b], s, bit, lo, hi, at)
  {
    hide BitOf;
    forall i: nat | i < 8 ensures Bit([b], i) == bit <==> Seen(s, bit, lo, hi, 8 * at + i) {
      AtByte(s, at, i);
      AtByte([b], 0, i);
    }
  }

  /** Whole bytes inside the range. */
  lemma StretchShows(s: seq<bv8>, bit: bool, lo: nat, hi: nat, at: nat, end: nat)
    requires at <= end <= |s| && lo <= 8 * at && 8 * end <= hi
    ensures Shows(s[at..end], s, bit, lo, hi, at)
  {
    hide Bit;
    forall i: nat | i < 8 * (end - at) ensures Bit(s[at..end], i) == bit <==> Seen(s, bit, lo, hi, 8 * at + i) {
      assert s[at..end] == s[at..][..end - at];
      BitTake(s[at..], end - at, i);
      BitShift(s, at, i);
    }
  }

  // ----- the search of a range

  /** The first byte of the range, or its only one. */
  function FirstByte(b: bv8, k1: nat, k2: nat, bit: bool, single: bool): bv8
    requires k1 < 8 && k2 < 8
  {
    if single && LastMask(k2) != 0 then WithoutLast(WithoutFirst(b, k1, bit), k2, bit) else WithoutFirst(b, k1, bit)
  }

  lemma FirstByteShows(s: seq<bv8>, bit: bool, start: nat, end: nat, k1: nat, k2: nat)
    requires start <= end < |s| && k1 < 8 && k2 < 8 && (start == end ==> k1 <= k2)
    ensures Shows([FirstByte(s[start], k1, k2, bit, start == end)], s, bit, 8 * start + k1, 8 * end + k2 + 1, start)
  {
    hide BitOf, WithoutFirst, WithoutLast, Shows;
    var single := start == end;
    var b := FirstByte(s[start], k1, k2, bit, single);
    forall j | 0 <= j < 8
      ensures BitOf(b, j) == if 8 * start + k1 <= 8 * start + j < 8 * end + k2 + 1 then BitOf(s[start], j) else !bit
    {
      WithoutFirstBit(s[start], k1, bit, j);
      WithoutLastBit(WithoutFirst(s[start], k1, bit), k2, bit, j);
    }
    ByteShows(b, s, bit, 8 * start + k1, 8 * end + k2 + 1, start);
  }

  lemma LastByteShows(s: seq<bv8>, bit: bool, lo: nat, end: nat, k2: nat)
    requires end < |s| && k2 < 8 && lo <= 8 * end
    ensures Shows([WithoutLast(s[end], k2, bit)], s, bit, lo, 8 * end + k2 + 1, end)
  {
    hide BitOf, WithoutLast, Shows;
    var b := WithoutLast(s[end], k2, bit);
    forall j | 0 <= j < 8 ensures BitOf(b, j) == if lo <= 8 * end + j < 8 * end + k2 + 1 then BitOf(s[end], j)
      else !bit {
      WithoutLastBit(s[end], k2, bit, j);
    }
    ByteShows(b, s, bit, lo, 8 * end + k2 + 1, end);
  }

  /** What a search of the range has to say: a hit at the first place, or no place and the end of the range. */
  ghost predicate Answer(s: seq<bv8>, bit: bool, lo: nat, hi: nat, pos: int, at: nat, bytes: nat, end: nat) {
    if pos != -1 && pos != 8 * bytes
    then 0 <= pos && Seen(s, bit, lo, hi, 8 * at + pos) && NotBefore(s, bit, lo, hi, 8 * at + pos)
    else at + bytes == end + 1 && (pos == -1 <==> bit) && NotBefore(s, bit, lo, hi, 8 * (end + 1))
  }

  /** The bytes `start..end`, from bit `k1` of the first to bit `k2` of the last. */
  method Search(s: seq<bv8>, address: nat, bit: bool, from: nat, end: nat, k1: nat, k2: nat)
    returns (pos: int, start: nat, bytes: nat)
    requires from <= end < |s| && k1 < 8 && k2 < 8 && (from == end ==> k1 <= k2)
    ensures Answer(s, bit, 8 * from + k1, 8 * end + k2 + 1, pos, start, bytes, end)
  {
    hide Shows, Seen, NotBefore, FirstMask, LastMask, FirstByte, WithoutLast, IsFirst;
    ghost var lo, hi := 8 * from + k1, 8 * end + k2 + 1;
    start, bytes := from, end - from + 1;
    NothingBefore(s, bit, lo, hi, 8 * from);
    if FirstMask(k1) != 0 {
      var t := [FirstByte(s[start], k1, k2, bit, bytes == 1)];
      FirstByteShows(s, bit, start, end, k1, k2);
      pos := RedisBitpos(t, address, bit);
      ChunkSearched(t, s, bit, lo, hi, start, pos);
      if bytes == 1 || (pos != -1 && pos != 8) { return; }
      start, bytes := start + 1, bytes - 1;
    }
    NoMask(k1);
    var whole := bytes - if LastMask(k2) != 0 then 1 else 0;
    if whole > 0 {
      NoMask2(k2);
      StretchShows(s, bit, lo, hi, start, start + whole);
      pos := RedisBitpos(s[start..start + whole], address + start, bit);
      ChunkSearched(s[start..start + whole], s, bit, lo, hi, start, pos);
      if bytes == whole || (pos != -1 && pos != 8 * whole) { return; }
      start, bytes := start + whole, bytes - whole;
    }
    LastByteShows(s, bit, lo, end, k2);
    var t := [WithoutLast(s[end], k2, bit)];
    pos := RedisBitpos(t, address, bit);
    ChunkSearched(t, s, bit, lo, hi, end, pos);
  }

  lemma NothingBefore(s: seq<bv8>, bit: bool, lo: nat, hi: nat, n: nat)
    requires n <= lo
    ensures NotBefore(s, bit, lo, hi, n)
  {}

  lemma NoMask(k: nat)
    requires k < 8
    ensures FirstMask(k) == 0 <==> k == 0
  {}

  lemma NoMask2(k: nat)
    requires k < 8
    ensures LastMask(k) == 0 <==> k == 7
  {}

  // ----- the command

  datatype Option = Missing | Value(bytes: seq<bv8>)

  datatype Range = Whole | From(start: int) | Bytes(start: int, end: int) | BitsOf(start: int, end: int)

  predicate EndGiven(r: Range) { r.Bytes? || r.BitsOf? }

  /** The first place of the range. */
  function Low(r: Range, n: nat): nat {
    match r
    case Whole => 0
    case From(start) => 8 * FromEnd(start, n)
    case Bytes(start, _) => 8 * FromEnd(start, n)
    case BitsOf(start, _) => FromEnd(start, 8 * n)
  }

  /** The place after the range; a range with no end given goes to the end of the string. */
  function High(r: Range, n: nat): nat {
    match r
    case Whole => 8 * n
    case From(_) => 8 * n
    case Bytes(_, end) => 8 * (Clip(end, n) + 1)
    case BitsOf(_, end) => Clip(end, 8 * n) + 1
  }

  /** `r` is the least place in `lo..hi` that holds the bit, -1 if there is none. */
  ghost predicate IsFirstIn(s: seq<bv8>, bit: bool, lo: nat, hi: nat, r: int) {
    if r == -1 then forall i: nat :: !Seen(s, bit, lo, hi, i)
    else 0 <= r && Seen(s, bit, lo, hi, r) && forall i: nat :: i < r ==> !Seen(s, bit, lo, hi, i)
  }

  /** What BITPOS answers, for a value: the least place in the range; with no end given, also the zeroes after it. */
  ghost predicate Expected(s: seq<bv8>, bit: bool, r: Range, pos: int) {
    var lo, hi := Low(r, |s|), High(r, |s|);
    if EndGiven(r) || bit || lo >= hi then IsFirstIn(s, bit, lo, hi, pos)
    else pos >= lo && !Bit(s, pos) && forall i: nat :: lo <= i < pos ==> Bit(s, i)
  }

  /** `bitposCommand`. */
  method BitposOf(value: Option, bit: bool, r: Range, address: nat) returns (pos: int)
    ensures value.Missing? ==> pos == if bit then -1 else 0
    ensures value.Value? ==> Expected(value.bytes, bit, r, pos)
  {
    hide Bit, FromEnd, Clip;
    if value.Missing? { return if bit then -1 else 0; }
    var p := value.bytes;
    var start, end := Limits(p, r);
    if start > end {
      EmptyRange(p, bit, Low(r, |p|), High(r, |p|));
      return -1;
    }
    var k1, k2 := 0, 7;
    if r.BitsOf? {
      k1, k2 := start % 8, end % 8;
      start, end := start / 8, end / 8;
    }
    var at: nat, bytes: nat;
    pos, at, bytes := Search(p, address, bit, start, end, k1, k2);
    AnswerMeans(p, bit, 8 * start + k1, 8 * end + k2 + 1, pos, at, bytes, end);
    if EndGiven(r) && !bit && pos == 8 * bytes { return -1; }
    if pos != -1 { pos := pos + 8 * at; }
    if !EndGiven(r) && !bit { PastTheEnd(p, 8 * start, pos); }
  }

  /** The range in bytes, or in bits. */
  method Limits(p: seq<bv8>, r: Range) returns (start: nat, end: int)
    ensures r.BitsOf? ==> start == Low(r, |p|) && end + 1 == High(r, |p|) && end < 8 * |p|
    ensures !r.BitsOf? ==> 8 * start == Low(r, |p|) && 8 * (end + 1) == High(r, |p|) && end < |p|
  {
    match r {
      case Whole => start, end := 0, |p| - 1;
      case From(s) => start, end := FromEnd(s, |p|), Clip(|p| - 1, |p|);
      case Bytes(s, e) => start, end := FromEnd(s, |p|), Clip(e, |p|);
      case BitsOf(s, e) => start, end := FromEnd(s, 8 * |p|), Clip(e, 8 * |p|);
    }
  }

  lemma EmptyRange(s: seq<bv8>, bit: bool, lo: nat, hi: nat)
    requires lo >= hi
    ensures IsFirstIn(s, bit, lo, hi, -1)
  {}

  lemma AnswerMeans(s: seq<bv8>, bit: bool, lo: nat, hi: nat, pos: int, at: nat, bytes: nat, end: nat)
    requires Answer(s, bit, lo, hi, pos, at, bytes, end) && hi <= 8 * (end + 1)
    ensures pos != -1 && pos != 8 * bytes ==> IsFirstIn(s, bit, lo, hi, pos + 8 * at)
    ensures pos == -1 ==> bit && IsFirstIn(s, bit, lo, hi, -1)
    ensures pos == 8 * bytes ==> !bit && IsFirstIn(s, bit, lo, hi, -1) && pos + 8 * at == 8 * (end + 1)
  {
    hide Bit;
  }

  /** With no end given, the first zero is in the string or right after it. */
  lemma PastTheEnd(s: seq<bv8>, lo: nat, pos: int)
    requires lo < 8 * |s|
    requires IsFirstIn(s, false, lo, 8 * |s|, pos) || (IsFirstIn(s, false, lo, 8 * |s|, -1) && pos == 8 * |s|)
    requires pos != -1
    ensures pos >= lo && !Bit(s, pos) && forall i: nat :: lo <= i < pos ==> Bit(s, i)
  {
    NoBitBeyond(s, 8 * |s|);
    hide Bit;
    forall i: nat | lo <= i < pos ensures Bit(s, i) { assert !Seen(s, false, lo, 8 * |s|, i); }
  }

  /**
   With no end given, the answer for a zero is the first zero of the zero-padded string at or after the start
   exactly when the start is inside the string; otherwise it is -1.
   */
  lemma ZeroPaddedIff(s: seq<bv8>, r: Range, pos: int)
    requires !EndGiven(r) && Expected(s, false, r, pos)
    ensures (pos >= Low(r, |s|) && !Bit(s, pos) && forall i: nat :: Low(r, |s|) <= i < pos ==> Bit(s, i))
      <==> Low(r, |s|) < 8 * |s|
    ensures Low(r, |s|) >= 8 * |s| ==> pos == -1
  {
    hide Bit, FromEnd, Clip;
  }
}
