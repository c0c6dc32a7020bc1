/**
 The DUMP/RESTORE framing of cluster.c: the object bytes, a two-byte RDB version
 and an eight-byte CRC-64, both little-endian.
 */
module DumpPayload {
  import opened Crc64
  import opened Crc64Speed
  import opened Crc64Big

  const RDB_VERSION: bv16 := 12

  /** The eight bytes of `x`, least significant first. */
  function StoreLittle(x: bv64): (s: seq<bv8>)
    ensures |s| == 8
  {
    [Low(x), Byte1(x), Byte2(x), Byte3(x), Byte4(x), Byte5(x), Byte6(x), Byte7(x)]
  }

  lemma PackBytes(x: bv64)
    ensures Pack(Low(x), Byte1(x), Byte2(x), Byte3(x), Byte4(x), Byte5(x), Byte6(x), Byte7(x)) == x
  {}

  lemma BytesOfPack(b0: bv8, b1: bv8, b2: bv8, b3: bv8, b4: bv8, b5: bv8, b6: bv8, b7: bv8)
    ensures var x := Pack(b0, b1, b2, b3, b4, b5, b6, b7);
            Low(x) == b0 && Byte1(x) == b1 && Byte2(x) == b2 && Byte3(x) == b3
            && Byte4(x) == b4 && Byte5(x) == b5 && Byte6(x) == b6 && Byte7(x) == b7
  {}

  /** Storing and reading back a word, in both directions. */
  lemma LittleOfStore(x: bv64)
    ensures Little(StoreLittle(x)) == x
  {
    hide Little, Pack, Low, Byte1, Byte2, Byte3, Byte4, Byte5, Byte6, Byte7;
    LittleIsPack(StoreLittle(x));
    PackBytes(x);
  }

  lemma StoreOfLittle(s: seq<bv8>)
    requires |s| == 8
    ensures StoreLittle(Little(s)) == s
  {
    hide Little, Pack, Low, Byte1, Byte2, Byte3, Byte4, Byte5, Byte6, Byte7;
    LittleIsPack(s);
    BytesOfPack(s[0], s[1], s[2], s[3], s[4], s[5], s[6], s[7]);
  }

  /** `createDumpPayload` on the already serialised object. */
  function CreatePayload(body: seq<bv8>): seq<bv8> {
    var framed := body + [(RDB_VERSION & 0xff) as bv8, ((RDB_VERSION >> 8) & 0xff) as bv8];
    framed + StoreLittle(Crc(0, framed))
  }

  function Version(p: seq<bv8>): bv16
    requires |p| >= 10
  {
    ((p[|p| - 9] as bv16) << 8) | (p[|p| - 10] as bv16)
  }

  /** `verifyDumpPayload`; `skip` is the server's skip_checksum_validation. */
  predicate VerifyPayload(p: seq<bv8>, skip: bool) {
    |p| >= 10 && Version(p) <= RDB_VERSION
    && (skip || StoreLittle(Crc(0, p[..|p| - 8])) == p[|p| - 8..])
  }

  // ----- what the checksum detects

  /** `p` and `q` differ at most inside the eight bytes from `k` on. */
  ghost predicate DifferWithin(p: seq<bv8>, q: seq<bv8>, k: nat) {
    |p| == |q| && forall i :: 0 <= i < |p| && !(k <= i < k + 8) ==> p[i] == q[i]
  }

  lemma WordInjective(c: bv64, u: seq<bv8>, v: seq<bv8>)
    requires |u| == |v| == 8 && Crc(c, u) == Crc(c, v)
    ensures u == v
  {
    hide Crc, Little, Steps, Xor, StoreLittle;
    WordAtOnce(c, u); WordAtOnce(c, v);
    StepsInjective(Xor(c, Little(u)), Xor(c, Little(v)), 64);
    XorComm(c, Little(u)); XorComm(c, Little(v));
    XorCancel(Little(u), Little(v), c);
    StoreOfLittle(u); StoreOfLittle(v);
  }

  lemma CrcInParts(c: bv64, p: seq<bv8>, k: nat)
    requires k + 8 <= |p|
    ensures Crc(c, p) == Crc(Crc(Crc(c, p[..k]), p[k..k + 8]), p[k + 8..])
  {
    hide Crc;
    assert p == p[..k] + p[k..k + 8] + p[k + 8..];
    CrcAppend(c, p[..k] + p[k..k + 8], p[k + 8..]);
    CrcAppend(c, p[..k], p[k..k + 8]);
  }

  /** A window of eight bytes that fits the string can stand for any window. */
  lemma WindowFits(p: seq<bv8>, q: seq<bv8>, k: nat) returns (w: nat)
    requires DifferWithin(p, q, k) && |p| >= 8
    ensures w + 8 <= |p| && p[..w] == q[..w] && p[w + 8..] == q[w + 8..]
  {
    w := if k + 8 <= |p| then k else |p| - 8;
  }

  lemma WindowDetermined(c: bv64, p: seq<bv8>, q: seq<bv8>, k: nat)
    requires DifferWithin(p, q, k) && |p| >= 8 && Crc(c, p) == Crc(c, q)
    ensures p == q
  {
    hide Crc;
    var w := WindowFits(p, q, k);
    assert p == p[..w] + p[w..w + 8] + p[w + 8..];
    assert q == q[..w] + q[w..w + 8] + q[w + 8..];
    CrcInParts(c, p, w); CrcInParts(c, q, w);
    var d := Crc(c, p[..w]);
    CrcInjective(Crc(d, p[w..w + 8]), Crc(d, q[w..w + 8]), p[w + 8..]);
    WordInjective(d, p[w..w + 8], q[w..w + 8]);
  }

  /** Different strings of one length that differ only within eight consecutive bytes have different CRCs. */
  lemma BurstChangesCrc(c: bv64, p: seq<bv8>, q: seq<bv8>, k: nat)
    requires DifferWithin(p, q, k)
    ensures Crc(c, p) == Crc(c, q) <==> p == q
  {
    hide Crc;
    if Crc(c, p) == Crc(c, q) {
      var zeros := seq(8, i => 0 as bv8);
      CrcAppend(c, p, zeros); CrcAppend(c, q, zeros);
      var p', q' := p + zeros, q + zeros;
      assert DifferWithin(p', q', k);
      WindowDetermined(c, p', q', k);
      assert p == p'[..|p|] && q == q'[..|p|];
    }
  }

  /** The checksum matches exactly when the CRC of the whole payload, footer included, is zero. */
  lemma MatchIsZeroResidue(p: seq<bv8>)
    requires |p| >= 8
    ensures StoreLittle(Crc(0, p[..|p| - 8])) == p[|p| - 8..] <==> Crc(0, p) == 0
  {
    hide Crc, Little, Steps, Xor, StoreLittle;
    var n := |p| - 8;
    var c, w := Crc(0, p[..n]), p[n..];
    assert p[..n] + w == p;
    CrcAppend(0, p[..n], w);
    WordAtOnce(c, w);
    LittleOfStore(c); StoreOfLittle(w);
    StepsZero(64);
    if StoreLittle(c) == w { XorSelf(c); }
    if Crc(0, p) == 0 {
      StepsInjective(Xor(c, Little(w)), 0, 64);
      XorSelf(Little(w));
      XorCancel(c, Little(w), Little(w));
    }
  }

  /** Every payload the server makes is accepted, and reports the server's own version. */
  lemma CreatedIsAccepted(body: seq<bv8>, skip: bool)
    ensures VerifyPayload(CreatePayload(body), skip)
    ensures Version(CreatePayload(body)) == RDB_VERSION
  {
    hide Crc, StoreLittle;
    var p := CreatePayload(body);
    var framed := body + [(RDB_VERSION & 0xff) as bv8, ((RDB_VERSION >> 8) & 0xff) as bv8];
    assert p[..|p| - 8] == framed && p[|p| - 8..] == StoreLittle(Crc(0, framed));
    assert p[|p| - 10] == 12 && p[|p| - 9] == 0;
  }

  /**
   With validation on, an accepted payload stops being accepted by any change
   inside eight consecutive bytes, in the object, the version or the checksum.
   */
  lemma BurstIsRejected(p: seq<bv8>, q: seq<bv8>, k: nat)
    requires VerifyPayload(p, false) && DifferWithin(p, q, k) && p != q
    ensures !VerifyPayload(q, false)
  {
    hide Crc, StoreLittle;
    BurstChangesCrc(0, p, q, k);
    MatchIsZeroResidue(p); MatchIsZeroResidue(q);
  }

  /** Without validation only the length and the version decide. */
  lemma SkippedChecks(p: seq<bv8>)
    ensures VerifyPayload(p, true) <==> |p| >= 10 && Version(p) <= RDB_VERSION
    ensures VerifyPayload(p, false) <==> VerifyPayload(p, true) && Crc(0, p) == 0
  {
    hide Crc, StoreLittle;
    if |p| >= 8 { MatchIsZeroResidue(p); }
  }
}
