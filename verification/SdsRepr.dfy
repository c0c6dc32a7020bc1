/**
 The quoted form of a string (`sdscatrepr`), which `sdssplitargs` reads back, and the test
 whether a string needs it (`sdsneedsrepr`). Characters are bytes.
 */
module SdsRepr {
  import opened AclText

  ghost predicate Bytes(s: string) { forall i :: 0 <= i < |s| ==> s[i] as int < 256 }

  /** `isprint` in the C locale. */
  predicate Printable(c: char) { 32 <= c as int <= 126 }

  function HexChar(n: nat): char
    requires n < 16
  {
    if n < 10 then (n + '0' as int) as char else (n - 10 + 'a' as int) as char
  }

  function ReprChar(c: char): string
    requires c as int < 256
  {
    if c == '\\' || c == '"' then ['\\', c]
    else if c == '\n' then ['\\', 'n']
    else if c == '\r' then ['\\', 'r']
    else if c == '\t' then ['\\', 't']
    else if c as int == 7 then ['\\', 'a']
    else if c as int == 8 then ['\\', 'b']
    else if Printable(c) then [c]
    else ['\\', 'x', HexChar(c as int / 16), HexChar(c as int % 16)]
  }

  ghost function ReprBody(s: string): string
    requires Bytes(s)
  {
    if s == [] then [] else ReprBody(s[..|s| - 1]) + ReprChar(s[|s| - 1])
  }

  ghost function Repr(s: string): string
    requires Bytes(s)
  {
    ['"'] + ReprBody(s) + ['"']
  }

  /** `sdscatrepr`. */
  method CatRepr(s: string, p: string) returns (r: string)
    requires Bytes(p)
    ensures r == s + Repr(p)
  {
    hide ReprChar;
    r := s + ['"'];
    assert p[..0] == [];
    for i := 0 to |p|
      invariant r == s + ['"'] + ReprBody(p[..i])
    {
      assert p[..i + 1][..i] == p[..i];
      r := r + ReprChar(p[i]);
    }
    assert p[..|p|] == p;
    r := r + ['"'];
  }

  /** `sdsneedsrepr`. The other characters it names are not printable. */
  method NeedsRepr(s: string) returns (r: bool)
    ensures r <==> Needs(s)
  {
    for i := 0 to |s|
      invariant forall j :: 0 <= j < i ==> !NeedsIt(s[j])
    {
      if s[i] == '\\' || s[i] == '"' || s[i] == '\n' || s[i] == '\r' || s[i] == '\t' || s[i] as int == 7
         || s[i] as int == 8 || !Printable(s[i]) || Blank(s[i]) { return true; }
    }
    return false;
  }

  ghost predicate NeedsIt(c: char) { c == '\\' || c == '"' || c == ' ' || !Printable(c) }

  ghost predicate Needs(s: string) { exists i :: 0 <= i < |s| && NeedsIt(s[i]) }

  // ----- reading back

  /** One quoted character reads back, whatever it is. */
  lemma ReadChar(c: char, rest: string, done: string)
    requires c as int < 256
    ensures ReadToken(ReprChar(c) + rest, Double, done) == ReadToken(rest, Double, done + [c])
  {
    var r := ReprChar(c);
    if |r| == 4 {
      HexReads(c as int / 16);
      HexReads(c as int % 16);
      ReadHex(r[2], r[3], c, rest, done);
      assert r == ['\\', 'x', r[2], r[3]];
    } else if |r| == 2 {
      assert (r + rest)[2..] == rest;
    } else {
      assert (r + rest)[1..] == rest;
    }
  }

  lemma ReadHex(a: char, b: char, c: char, rest: string, done: string)
    requires HexDigit(a) && HexDigit(b) && HexValue(a) * 16 + HexValue(b) == c as int
    ensures ReadToken(['\\', 'x', a, b] + rest, Double, done) == ReadToken(rest, Double, done + [c])
  {
    hide HexDigit, HexValue;
    assert (['\\', 'x', a, b] + rest)[4..] == rest;
  }

  lemma HexReads(n: nat)
    requires n < 16
    ensures HexDigit(HexChar(n)) && HexValue(HexChar(n)) == n
  {}

  lemma {:induction false} ReadBody(s: string, rest: string, done: string)
    requires Bytes(s)
    ensures ReadToken(ReprBody(s) + rest, Double, done) == ReadToken(rest, Double, done + s)
    decreases |s|
  {
    hide ReadToken, ReprChar;
    if s == [] {
      assert ReprBody(s) + rest == rest && done + s == done;
    } else {
      var front, c := s[..|s| - 1], s[|s| - 1];
      ReadBody(front, ReprChar(c) + rest, done);
      assert ReprBody(s) + rest == ReprBody(front) + (ReprChar(c) + rest);
      ReadChar(c, rest, done + front);
      assert done + front + [c] == done + s;
    }
  }

  /** A quoted string followed by the end or a blank is one token, the string. */
  lemma ReadRepr(s: string, tail: string)
    requires Bytes(s) && (tail == [] || Blank(tail[0]))
    ensures ReadToken(Repr(s) + tail, Plain, []) == Some(Token(s, tail))
  {
    hide ReprBody;
    var end := ['"'] + tail;
    assert Repr(s) + tail == ['"'] + (ReprBody(s) + end);
    assert (Repr(s) + tail)[1..] == ReprBody(s) + end;
    ReadBody(s, end, []);
    assert [] + s == s && end[1..] == tail;
  }

  ghost predicate AllBytes(ts: seq<string>) { forall i :: 0 <= i < |ts| ==> Bytes(ts[i]) }

  ghost function Reprs(ts: seq<string>): seq<string>
    requires AllBytes(ts)
  {
    seq(|ts|, i requires 0 <= i < |ts| => Repr(ts[i]))
  }

  lemma SkipSpace(s: string)
    ensures SplitArgs([' '] + s) == SplitArgs(s)
  {
    assert ([' '] + s)[1..] == s;
    assert SkipBlanks([' '] + s) == SkipBlanks(s);
  }

  /** Whatever bytes the strings hold, their quoted forms on a line are split into the strings. */
  lemma {:induction false} SplitOfReprs(ts: seq<string>)
    requires AllBytes(ts)
    ensures SplitArgs(Join(Reprs(ts))) == Some(ts)
    decreases |ts|
  {
    hide Repr, Bytes, ReadToken;
    if ts == [] {
      assert Reprs(ts) == [];
    } else {
      var x, rest := ts[0], ts[1..];
      assert Reprs(ts)[0] == Repr(x) && Reprs(ts)[1..] == Reprs(rest);
      var tail := if rest == [] then [] else [' '] + Join(Reprs(rest));
      assert Join(Reprs(ts)) == Repr(x) + tail;
      ReprStarts(x);
      ReadRepr(x, tail);
      SplitFirst(Repr(x) + tail, x, tail);
      SplitOfReprs(rest);
      if rest == [] { assert tail == []; } else { SkipSpace(Join(Reprs(rest))); }
      assert [x] + rest == ts;
    }
  }

  lemma ReprStarts(s: string)
    requires Bytes(s)
    ensures Repr(s) != [] && !Blank(Repr(s)[0])
  {
    hide ReprBody;
  }

  /** A quote that is not closed, or closed right before something, breaks the line. */
  lemma BrokenQuotes(s: string, tail: string)
    requires Bytes(s) && tail != [] && !Blank(tail[0])
    ensures SplitArgs(['"'] + ReprBody(s)) == None && SplitArgs(Repr(s) + tail) == None
  {
    hide ReprBody;
    var end := ['"'] + tail;
    assert (['"'] + ReprBody(s))[1..] == ReprBody(s) == ReprBody(s) + [];
    assert (Repr(s) + tail)[1..] == ReprBody(s) + end && end[1] == tail[0];
    ReadBody(s, [], []);
    ReadBody(s, end, []);
  }

  /** How strings are put on a line by callers that quote only what needs it. */
  ghost function Protected(s: string): string
    requires Bytes(s)
  {
    if Needs(s) then Repr(s) else s
  }

  /**
   A string that is quoted only if it needs it is read back exactly if it is not empty and, when it does not need
   it, holds no single quote: the test does not look for that one.
   */
  lemma ProtectedIff(s: string)
    requires Bytes(s)
    ensures SplitArgs(Protected(s)) == Some([s]) <==> s != [] && (Needs(s) || '\'' !in s)
  {
    hide Repr, ReadToken;
    if Needs(s) {
      SplitOfReprs([s]);
      assert Reprs([s]) == [Repr(s)];
    } else if s != [] {
      assert !NeedsIt(s[0]);
      if '\'' !in s {
        forall i | 0 <= i < |s| ensures !Separator(s[i]) && !Quote(s[i]) { assert !NeedsIt(s[i]); }
        SplitOfJoin([s]);
      } else if SplitArgs(s) == Some([s]) {
        SplitCost(s);
        assert false;
      }
    }
  }
}
