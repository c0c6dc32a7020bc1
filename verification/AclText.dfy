/**
 Text handling under the ACL rules: case folding, `sdssplitargs`, and the in-place
 removal of rules from the retained rule string (acl.c).
 */
module AclText {

  datatype Option<+T> = None | Some(value: T)

  // ----- case folding

  function LowerChar(c: char): char {
    if 'A' <= c <= 'Z' then ((c as int) + 32) as char else c
  }

  function Lower(s: string): (r: string)
    ensures |r| == |s|
    ensures forall i :: 0 <= i < |s| ==> r[i] == LowerChar(s[i])
  {
    seq(|s|, i requires 0 <= i < |s| => LowerChar(s[i]))
  }

  lemma LowerIdempotent(s: string)
    ensures Lower(Lower(s)) == Lower(s)
  {}

  // ----- the separator characters

  predicate Separator(c: char) { c == ' ' || c == '\n' || c == '\r' || c == '\t' }

  /** `isspace` in the C locale; 11 and 12 are the vertical tab and the form feed. */
  predicate Blank(c: char) { Separator(c) || c as int == 11 || c as int == 12 }

  predicate Quote(c: char) { c == '"' || c == '\'' }

  /** No character that `sdssplitargs` gives a meaning to. */
  predicate Clean(s: string) {
    forall i :: 0 <= i < |s| ==> !Separator(s[i]) && !Quote(s[i])
  }

  // ----- sdssplitargs

  predicate HexDigit(c: char) { '0' <= c <= '9' || 'a' <= c <= 'f' || 'A' <= c <= 'F' }

  function HexValue(c: char): (v: nat)
    requires HexDigit(c)
    ensures v < 16
  {
    if '0' <= c <= '9' then c as int - '0' as int
    else if 'a' <= c <= 'f' then c as int - 'a' as int + 10
    else c as int - 'A' as int + 10
  }

  function Escaped(c: char): char {
    if c == 'n' then '\n' else if c == 'r' then '\r' else if c == 't' then '\t'
    else if c == 'b' then 8 as char else if c == 'a' then 7 as char else c
  }

  datatype Mode = Plain | Double | Single

  /** A token and what follows it. */
  datatype Token = Token(text: string, rest: string)

  /** The tail of a token whose text so far is `done`, read in the given quoting mode. */
  function ReadToken(p: string, mode: Mode, done: string): (r: Option<Token>)
    ensures r.Some? ==> |r.value.rest| <= |p|
    decreases |p|
  {
    match mode
    case Plain =>
      if p == [] then Some(Token(done, []))
      else if Separator(p[0]) then Some(Token(done, p[1..]))
      else if p[0] == '"' then ReadToken(p[1..], Double, done)
      else if p[0] == '\'' then ReadToken(p[1..], Single, done)
      else ReadToken(p[1..], Plain, done + [p[0]])
    case Double =>
      if p == [] then None
      else if |p| >= 4 && p[0] == '\\' && p[1] == 'x' && HexDigit(p[2]) && HexDigit(p[3]) then
        ReadToken(p[4..], Double, done + [(HexValue(p[2]) * 16 + HexValue(p[3])) as char])
      else if |p| >= 2 && p[0] == '\\' then ReadToken(p[2..], Double, done + [Escaped(p[1])])
      else if p[0] == '"' then
        if |p| >= 2 && !Blank(p[1]) then None else Some(Token(done, p[1..]))
      else ReadToken(p[1..], Double, done + [p[0]])
    case Single =>
      if p == [] then None
      else if |p| >= 2 && p[0] == '\\' && p[1] == '\'' then ReadToken(p[2..], Single, done + ['\''])
      else if p[0] == '\'' then
        if |p| >= 2 && !Blank(p[1]) then None else Some(Token(done, p[1..]))
      else ReadToken(p[1..], Single, done + [p[0]])
  }

  /** Reading in plain mode from a non-blank character consumes it. */
  lemma ReadProgress(p: string, mode: Mode, done: string)
    requires p != [] && (mode == Plain ==> !Separator(p[0]))
    ensures var r := ReadToken(p, mode, done); r.Some? ==> |r.value.rest| < |p|
  {}

  function SkipBlanks(p: string): (r: string)
    ensures |r| <= |p| && (r != [] ==> !Blank(r[0]))
  {
    if p != [] && Blank(p[0]) then SkipBlanks(p[1..]) else p
  }

  /** `sdssplitargs`: the tokens of a line, or nothing when its quoting is broken. */
  function SplitArgs(line: string): Option<seq<string>>
    decreases |line|
  {
    var p := SkipBlanks(line);
    if p == [] then Some([])
    else
      ReadProgress(p, Plain, []);
      match ReadToken(p, Plain, [])
      case None => None
      case Some(Token(text, rest)) =>
        match SplitArgs(rest)
        case None => None
        case Some(more) => Some([text] + more)
  }

  // ----- joining and splitting

  /** Rules joined by single spaces, the form of `command_rules`. */
  function Join(rs: seq<string>): string {
    if rs == [] then []
    else if |rs| == 1 then rs[0]
    else rs[0] + [' '] + Join(rs[1..])
  }

  /** Non-empty tokens that start visibly and hold nothing special. */
  predicate Tokens(rs: seq<string>) {
    forall i :: 0 <= i < |rs| ==> rs[i] != [] && !Blank(rs[i][0]) && Clean(rs[i])
  }

  lemma {:induction false} ReadClean(x: string, tail: string, done: string)
    requires Clean(x) && (tail == [] || Separator(tail[0]))
    ensures ReadToken(x + tail, Plain, done) == Some(Token(done + x, if tail == [] then [] else tail[1..]))
    decreases |x|
  {
    if x == [] {
      assert x + tail == tail && done + x == done;
    } else {
      assert (x + tail)[1..] == x[1..] + tail;
      assert !Separator(x[0]) && !Quote(x[0]);
      ReadClean(x[1..], tail, done + [x[0]]);
      assert done + [x[0]] + x[1..] == done + x;
    }
  }

  lemma SplitFirst(line: string, text: string, rest: string)
    requires line != [] && !Blank(line[0])
    requires ReadToken(line, Plain, []) == Some(Token(text, rest))
    ensures SplitArgs(line) == match SplitArgs(rest) case None => None case Some(more) => Some([text] + more)
  {}

  /** Splitting a joined list of clean tokens gives the list back. */
  lemma {:induction false} SplitOfJoin(rs: seq<string>)
    requires Tokens(rs)
    ensures SplitArgs(Join(rs)) == Some(rs)
    decreases |rs|
  {
    if rs != [] {
      var x := rs[0];
      var tail := if |rs| == 1 then [] else [' '] + Join(rs[1..]);
      assert Join(rs) == x + tail;
      ReadClean(x, tail, []);
      assert [] + x == x;
      var rest := if tail == [] then [] else tail[1..];
      SplitFirst(Join(rs), x, rest);
      if |rs| == 1 {
        assert SplitArgs(rest) == Some([]);
        assert rs == [x] + [];
      } else {
        assert rest == Join(rs[1..]);
        SplitOfJoin(rs[1..]);
        assert rs == [x] + rs[1..];
      }
    }
  }

  /** What a token and the rest of the line take up, with the separator between them. */
  function Cost(t: Token): nat { |t.text| + if t.rest == [] then 0 else 1 + |t.rest| }

  /** Reading a token costs what is there, and more as soon as a quote is met. */
  lemma {:induction false} ReadCost(p: string, mode: Mode, done: string)
    ensures var r := ReadToken(p, mode, done);
            r.Some? ==> Cost(r.value) <= |done| + |p|
                        && (mode == Plain && Cost(r.value) == |done| + |p| ==>
                          done <= r.value.text && Clean(r.value.text[|done|..]))
    decreases |p|
  {
    if p != [] {
      match mode
      case Plain =>
        if Separator(p[0]) {
        } else if p[0] == '"' {
          ReadCost(p[1..], Double, done);
        } else if p[0] == '\'' {
          ReadCost(p[1..], Single, done);
        } else {
          ReadCost(p[1..], Plain, done + [p[0]]);
        }
      case Double =>
        if |p| >= 4 && p[0] == '\\' && p[1] == 'x' && HexDigit(p[2]) && HexDigit(p[3]) {
          ReadCost(p[4..], Double, done + [(HexValue(p[2]) * 16 + HexValue(p[3])) as char]);
        } else if |p| >= 2 && p[0] == '\\' {
          ReadCost(p[2..], Double, done + [Escaped(p[1])]);
        } else if p[0] != '"' {
          ReadCost(p[1..], Double, done + [p[0]]);
        }
      case Single =>
        if |p| >= 2 && p[0] == '\\' && p[1] == '\'' {
          ReadCost(p[2..], Single, done + ['\'']);
        } else if p[0] != '\'' {
          ReadCost(p[1..], Single, done + [p[0]]);
        }
    }
  }

  ghost predicate AllTokensClean(rs: seq<string>) { forall i :: 0 <= i < |rs| ==> Clean(rs[i]) }

  /** The tokens of a line never join to more than the line, and only clean ones join to as much. */
  lemma {:induction false} SplitCost(line: string)
    ensures var r := SplitArgs(line);
            r.Some? ==> |Join(r.value)| <= |line| && (|Join(r.value)| == |line| ==> AllTokensClean(r.value))
    decreases |line|
  {
    hide ReadToken, Clean;
    var p := SkipBlanks(line);
    if p != [] {
      ReadProgress(p, Plain, []);
      ReadCost(p, Plain, []);
      var r := ReadToken(p, Plain, []);
      if r.Some? && SplitArgs(r.value.rest).Some? {
        var text, more := r.value.text, SplitArgs(r.value.rest).value;
        SplitCost(r.value.rest);
        assert text[0..] == text;
        assert ([text] + more)[1..] == more;
        assert r.value.rest == [] ==> more == [];
      }
    }
  }

  /** Rules survive being joined to the rule string and split again exactly when all of them are clean. */
  lemma JoinSplitsIff(rs: seq<string>)
    requires forall i :: 0 <= i < |rs| ==> rs[i] != [] && !Blank(rs[i][0])
    ensures SplitArgs(Join(rs)) == Some(rs) <==> AllTokensClean(rs)
  {
    hide SplitArgs, Clean;
    SplitCost(Join(rs));
    if AllTokensClean(rs) { SplitOfJoin(rs); }
  }

  /** Clean tokens at the beginning of a line are its first tokens, whatever follows. */
  lemma {:induction false} SplitPrefix(ts: seq<string>, b: string)
    requires Tokens(ts) && b != []
    ensures SplitArgs(Join(ts + [b]))
         == match SplitArgs(b) case None => None case Some(more) => Some(ts + more)
    decreases |ts|
  {
    if ts == [] {
      assert ts + [b] == [b];
      if SplitArgs(b).Some? { assert [] + SplitArgs(b).value == SplitArgs(b).value; }
    } else {
      var x, rest := ts[0], ts[1..];
      assert (ts + [b])[1..] == rest + [b] && (ts + [b])[0] == x;
      SplitPrefix(rest, b);
      var tail := [' '] + Join(rest + [b]);
      assert Join(ts + [b]) == x + tail;
      ReadClean(x, tail, []);
      assert [] + x == x && tail[1..] == Join(rest + [b]);
      SplitFirst(x + tail, x, tail[1..]);
      if SplitArgs(b).Some? { assert [x] + (rest + SplitArgs(b).value) == ts + SplitArgs(b).value; }
    }
  }

  /** The text of a token extends what has been read of it. */
  lemma {:induction false} ReadExtends(p: string, mode: Mode, done: string)
    ensures var r := ReadToken(p, mode, done); r.Some? ==> done <= r.value.text
    decreases |p|
  {
    if p != [] {
      match mode
      case Plain =>
        if Separator(p[0]) {
        } else if p[0] == '"' {
          ReadExtends(p[1..], Double, done);
        } else if p[0] == '\'' {
          ReadExtends(p[1..], Single, done);
        } else {
          ReadExtends(p[1..], Plain, done + [p[0]]);
        }
      case Double =>
        if |p| >= 4 && p[0] == '\\' && p[1] == 'x' && HexDigit(p[2]) && HexDigit(p[3]) {
          ReadExtends(p[4..], Double, done + [(HexValue(p[2]) * 16 + HexValue(p[3])) as char]);
        } else if |p| >= 2 && p[0] == '\\' {
          ReadExtends(p[2..], Double, done + [Escaped(p[1])]);
        } else if p[0] != '"' {
          ReadExtends(p[1..], Double, done + [p[0]]);
        }
      case Single =>
        if |p| >= 2 && p[0] == '\\' && p[1] == '\'' {
          ReadExtends(p[2..], Single, done + ['\'']);
        } else if p[0] != '\'' {
          ReadExtends(p[1..], Single, done + [p[0]]);
        }
    }
  }

  lemma {:induction false} ReadFrom(x: string, tail: string, done: string)
    requires Clean(x)
    ensures ReadToken(x + tail, Plain, done) == ReadToken(tail, Plain, done + x)
    decreases |x|
  {
    if x == [] {
      assert x + tail == tail && done + x == done;
    } else {
      assert (x + tail)[1..] == x[1..] + tail;
      assert !Separator(x[0]) && !Quote(x[0]);
      ReadFrom(x[1..], tail, done + [x[0]]);
      assert done + [x[0]] + x[1..] == done + x;
    }
  }

  /** A clean beginning of a line is the beginning of its first token. */
  lemma SplitStarts(x: string, tail: string)
    requires x != [] && !Blank(x[0]) && Clean(x) && SplitArgs(x + tail).Some?
    ensures SplitArgs(x + tail).value != [] && x <= SplitArgs(x + tail).value[0]
  {
    hide ReadToken, Clean;
    ReadFrom(x, tail, []);
    assert [] + x == x;
    ReadExtends(tail, Plain, x);
    var r := ReadToken(x + tail, Plain, []);
    if r.Some? { SplitFirst(x + tail, r.value.text, r.value.rest); }
  }

  lemma {:induction false} JoinParts(rs: seq<string>, j: nat)
    requires j < |rs|
    ensures |Join(rs)| >= if j == 0 then |rs[0]| else |rs[0]| + 1 + |rs[j]|
    decreases |rs|
  {
    if j > 0 { JoinParts(rs[1..], j - 1); }
  }

  // ----- removing rules from the retained string

  /** Rule name `n` makes the retained rule name `e` redundant: the same name, or a subcommand of it. */
  predicate Covers(n: string, e: string) {
    e == n || (|n| < |e| && e[..|n|] == n && e[|n|] == '|')
  }

  /** The rules that stay when `n` is about to be appended; the first character of a rule is its sign. */
  function Kept(rs: seq<string>, n: string): (r: seq<string>)
    ensures forall x :: x in r ==> x in rs
  {
    if rs == [] then []
    else if rs[0] != [] && Covers(n, rs[0][1..]) then Kept(rs[1..], n)
    else [rs[0]] + Kept(rs[1..], n)
  }

  predicate Spaceless(rs: seq<string>) {
    forall i :: 0 <= i < |rs| ==> rs[i] != [] && ' ' !in rs[i]
  }

  /** The first space at or after a place, or the end. */
  function SpaceFrom(s: string, from: nat): (i: nat)
    requires from <= |s|
    ensures from <= i <= |s| && ' ' !in s[from..i] && (i < |s| ==> s[i] == ' ')
    decreases |s| - from
  {
    if from == |s| || s[from] == ' ' then from else SpaceFrom(s, from + 1)
  }

  /**
   The pieces the editing loop takes a string for: each begins with a character that is not looked at, and ends at
   the next space. A space at the end of the string leaves an empty last piece.
   */
  function Pieces(s: string): seq<string>
    decreases |s|
  {
    if s == [] then []
    else
      var e := SpaceFrom(s, 1);
      if e == |s| then [s] else [s[..e]] + (if e + 1 == |s| then [[]] else Pieces(s[e + 1..]))
  }

  predicate Piece(x: string) { x != [] && ' ' !in x[1..] }

  predicate Pieced(rs: seq<string>) {
    forall i :: 0 <= i < |rs| ==> Piece(rs[i]) || (rs[i] == [] && i == |rs| - 1)
  }

  /** Every string is the join of its pieces. */
  lemma {:induction false} PiecesJoin(s: string)
    ensures Join(Pieces(s)) == s && Pieced(Pieces(s))
    decreases |s|
  {
    if s != [] {
      var e := SpaceFrom(s, 1);
      if e < |s| {
        var rest := if e + 1 == |s| then [[]] else Pieces(s[e + 1..]);
        if e + 1 < |s| { PiecesJoin(s[e + 1..]); }
        assert ([s[..e]] + rest)[1..] == rest;
        assert s[..e] + [' '] + s[e + 1..] == s;
        assert s[..e][1..] == s[1..e];
      }
    }
  }

  /** Rules without spaces are the pieces of their join. */
  lemma {:induction false} PiecesOfJoin(rs: seq<string>)
    requires Spaceless(rs)
    ensures Pieces(Join(rs)) == rs
    decreases |rs|
  {
    hide Pieces;
    if rs == [] {
      NoPieces();
    } else {
      var x := rs[0];
      var tail := if |rs| == 1 then [] else [' '] + Join(rs[1..]);
      assert Join(rs) == x + tail;
      if |rs| > 1 { PiecesOfJoin(rs[1..]); JoinLength(rs[1..]); }
      FirstPiece(x, tail);
      assert rs == [x] + rs[1..];
    }
  }

  lemma NoPieces()
    ensures Pieces([]) == []
  {}

  lemma FirstPiece(x: string, tail: string)
    requires x != [] && ' ' !in x && (tail == [] || (tail[0] == ' ' && |tail| > 1))
    ensures Pieces(x + tail) == [x] + if tail == [] then [] else Pieces(tail[1..])
  {
    var s := x + tail;
    var e := SpaceFrom(s, 1);
    assert x[1..] == s[1..|x|];
    assert e == |x| by { FirstSpace(x, tail, e); }
    assert s[..e] == x;
    if tail == [] { assert s == x; } else { assert s[e + 1..] == tail[1..]; }
  }

  /** Where the rules `rest` start inside the joined `kept + rest`. */
  function Offset(kept: seq<string>, rest: seq<string>): nat {
    if kept == [] then 0 else |Join(kept)| + (if rest == [] then 0 else 1)
  }

  lemma {:induction false} JoinAppend(a: seq<string>, b: seq<string>)
    requires a != [] && b != []
    ensures Join(a + b) == Join(a) + [' '] + Join(b)
    decreases |a|
  {
    if |a| == 1 {
      assert (a + b)[1..] == b;
    } else {
      assert (a + b)[1..] == a[1..] + b;
      JoinAppend(a[1..], b);
    }
  }

  lemma JoinFrom(kept: seq<string>, rest: seq<string>)
    ensures |Join(kept + rest)| >= Offset(kept, rest)
    ensures Join(kept + rest)[Offset(kept, rest)..] == Join(rest)
    ensures Join(kept + rest)[..Offset(kept, rest)]
         == if kept == [] then [] else if rest == [] then Join(kept) else Join(kept) + [' ']
  {
    if kept == [] {
      assert kept + rest == rest;
    } else if rest == [] {
      assert kept + rest == kept;
    } else {
      JoinAppend(kept, rest);
    }
  }

  method FindSpace(s: string, from: nat) returns (i: nat)
    requires from <= |s|
    ensures from <= i <= |s| && ' ' !in s[from..i] && (i < |s| ==> s[i] == ' ')
  {
    i := from;
    while i < |s| && s[i] != ' '
      invariant from <= i <= |s| && ' ' !in s[from..i]
    {
      i := i + 1;
    }
  }

  lemma FirstSpace(x: string, tail: string, i: nat)
    requires Piece(x) && (tail == [] || tail[0] == ' ')
    requires 1 <= i <= |x + tail| && ' ' !in (x + tail)[1..i] && (i < |x + tail| ==> (x + tail)[i] == ' ')
    ensures i == |x|
  {
    var s := x + tail;
    assert forall k :: 1 <= k < |x| ==> s[k] == x[1..][k - 1];
    assert |x| < |s| ==> s[|x|] == ' ';
    forall k | 1 <= k < i ensures s[k] != ' ' { assert s[k] == s[1..i][k - 1]; }
  }

  lemma KeptStep(kept: seq<string>, rest: seq<string>, n: string)
    requires rest != [] && rest[0] != []
    ensures Covers(n, rest[0][1..]) ==> kept + Kept(rest, n) == kept + Kept(rest[1..], n)
    ensures !Covers(n, rest[0][1..]) ==> kept + Kept(rest, n) == (kept + [rest[0]]) + Kept(rest[1..], n)
  {}

  /** The comparison of the source: equal over the shorter length, then the length test. */
  predicate Matches(e: string, n: string) {
    var m := if |e| < |n| then |e| else |n|;
    e[..m] == n[..m] && (|e| == |n| || (|e| > |n| && e[|n|] == '|'))
  }

  lemma MatchesIsCovers(e: string, n: string)
    ensures Matches(e, n) <==> Covers(n, e)
  {
    if |e| == |n| { assert e[..|e|] == e && n[..|n|] == n; }
    else if |e| > |n| { assert n[..|n|] == n; }
  }

  lemma JoinHead(rs: seq<string>)
    requires rs != []
    ensures Join(rs) == rs[0] + (if |rs| == 1 then [] else [' '] + Join(rs[1..]))
  {}

  lemma JoinLength(rs: seq<string>)
    requires Spaceless(rs)
    ensures rs != [] ==> |Join(rs)| > 0
  {}

  lemma SliceFrom(s: string, at: nat, to: nat)
    requires at < to <= |s|
    ensures s[at + 1..to] == s[at..][1..to - at]
    ensures to < |s| ==> s[to] == s[at..][to - at]
  {}

  /** What the scan of one rule finds. */
  lemma ScanStep(s: string, kept: seq<string>, rest: seq<string>, ruleEnd: nat)
    requires s == Join(kept + rest) && Pieced(rest) && Offset(kept, rest) < |s|
    requires var at := Offset(kept, rest);
             at + 1 <= ruleEnd <= |s| && ' ' !in s[at + 1..ruleEnd] && (ruleEnd < |s| ==> s[ruleEnd] == ' ')
    ensures rest != [] && rest[0] != [] && ruleEnd == Offset(kept, rest) + |rest[0]|
    ensures s[Offset(kept, rest) + 1..ruleEnd] == rest[0][1..]
  {
    hide Offset, Join;
    var at := Offset(kept, rest);
    JoinFrom(kept, rest);
    NonEmptyJoin(rest);
    ScanAt(s, at, rest, ruleEnd);
  }

  lemma NonEmptyJoin(rs: seq<string>)
    ensures Join(rs) != [] ==> rs != []
    ensures rs != [] && rs[0] == [] && Pieced(rs) ==> rs == [[]] && Join(rs) == []
  {}

  lemma ScanAt(s: string, at: nat, rest: seq<string>, ruleEnd: nat)
    requires rest != [] && Piece(rest[0]) && at < ruleEnd <= |s| && s[at..] == Join(rest)
    requires ' ' !in s[at + 1..ruleEnd] && (ruleEnd < |s| ==> s[ruleEnd] == ' ')
    ensures ruleEnd == at + |rest[0]| && s[at + 1..ruleEnd] == rest[0][1..]
  {
    hide Join;
    var x := rest[0];
    var tail := if |rest| == 1 then [] else [' '] + Join(rest[1..]);
    JoinHead(rest);
    SliceFrom(s, at, ruleEnd);
    assert ruleEnd - at == |x| by { FirstSpace(x, tail, ruleEnd - at); }
    assert (x + tail)[1..|x|] == x[1..];
  }

  lemma ScanEnd(s: string, kept: seq<string>, rest: seq<string>, n: string)
    requires s == Join(kept + rest) && Pieced(rest) && Offset(kept, rest) >= |s|
    ensures s == Join(kept + Kept(rest, n))
  {
    JoinFrom(kept, rest);
    assert Join(rest) == [];
    if rest == [[]] { assert rest[1..] == []; }
    assert Kept(rest, n) == rest;
  }

  lemma ScanStart(rs: seq<string>, n: string)
    ensures [] + rs == rs && Offset([], rs) == 0 && [] + Kept(rs, n) == Kept(rs, n)
  {}

  /** `ACLSelectorRemoveCommandRule`: whatever the rule string is, the pieces that the new rule covers leave it. */
  method RemoveRule(rules: string, newRule: string) returns (s: string)
    ensures s == Join(Kept(Pieces(rules), newRule))
  {
    hide Join, Offset, Kept, Matches, Covers, Pieces;
    s := rules;
    var existing := 0;
    ghost var kept, rest := [], Pieces(rules);
    PiecesJoin(rules);
    ScanStart(rest, newRule);
    while existing < |s|
      invariant s == Join(kept + rest) && existing == Offset(kept, rest) <= |s| && Pieced(rest)
      invariant kept + Kept(rest, newRule) == Kept(Pieces(rules), newRule)
      decreases |rest|
    {
      var copyPosition := existing;
      var ruleEnd := FindSpace(s, existing + 1);
      RuleFound(s, kept, rest, ruleEnd, newRule);
      if ruleEnd == |s| && copyPosition != 0 { copyPosition := copyPosition - 1; }
      var copyEnd := if ruleEnd < |s| then ruleEnd + 1 else ruleEnd;
      if Matches(s[existing + 1..ruleEnd], newRule) {
        s := s[..copyPosition] + s[copyEnd..];
        existing := copyPosition;
        rest := rest[1..];
      } else {
        existing := copyEnd;
        kept, rest := kept + [rest[0]], rest[1..];
      }
    }
    ScanEnd(s, kept, rest, newRule);
  }

  /** All that one turn of the loop needs. */
  lemma RuleFound(s: string, kept: seq<string>, rest: seq<string>, ruleEnd: nat, n: string)
    requires s == Join(kept + rest) && Pieced(rest) && Offset(kept, rest) < |s|
    requires var at := Offset(kept, rest);
             at + 1 <= ruleEnd <= |s| && ' ' !in s[at + 1..ruleEnd] && (ruleEnd < |s| ==> s[ruleEnd] == ' ')
    ensures rest != [] && var at := Offset(kept, rest);
            var from := if ruleEnd == |s| && at != 0 then at - 1 else at;
            var to := if ruleEnd < |s| then ruleEnd + 1 else ruleEnd;
            && s[..from] + s[to..] == Join(kept + rest[1..]) && from == Offset(kept, rest[1..])
            && s == Join((kept + [rest[0]]) + rest[1..]) && to == Offset(kept + [rest[0]], rest[1..])
            && Pieced(rest[1..])
            && (if Matches(s[at + 1..ruleEnd], n) then kept + Kept(rest, n) == kept + Kept(rest[1..], n)
                else kept + Kept(rest, n) == (kept + [rest[0]]) + Kept(rest[1..], n))
  {
    hide Join, Offset, Kept, Matches, Covers;
    ScanStep(s, kept, rest, ruleEnd);
    RemoveStep(s, kept, rest);
    AdvanceStep(s, kept, rest);
    KeptStep(kept, rest, n);
    MatchesIsCovers(rest[0][1..], n);
  }

  /** Cutting the first of `rest`, with the space that goes with it, out of the string. */
  lemma RemoveStep(s: string, kept: seq<string>, rest: seq<string>)
    requires rest != [] && s == Join(kept + rest)
    ensures var at := Offset(kept, rest); var end := at + |rest[0]|;
            var from := if |rest| == 1 && at != 0 then at - 1 else at;
            var to := if |rest| == 1 then end else end + 1;
            (end < |s| <==> |rest| > 1) && to <= |s| && from <= to
            && s[..from] + s[to..] == Join(kept + rest[1..]) && from == Offset(kept, rest[1..])
  {
    if |rest| == 1 { RemoveLast(s, kept, rest); } else { RemoveInner(s, kept, rest); }
  }

  lemma RemoveLast(s: string, kept: seq<string>, rest: seq<string>)
    requires |rest| == 1 && s == Join(kept + rest)
    ensures var at := Offset(kept, rest);
            var from := if at != 0 then at - 1 else at;
            at + |rest[0]| == |s| && s[..from] == Join(kept + rest[1..]) && from == Offset(kept, rest[1..])
  {
    JoinFrom(kept, rest);
    assert kept + rest[1..] == kept;
    if kept != [] { assert s[..|Join(kept)|] == Join(kept); }
  }

  lemma RemoveInner(s: string, kept: seq<string>, rest: seq<string>)
    requires |rest| > 1 && s == Join(kept + rest)
    ensures var at := Offset(kept, rest); var to := at + |rest[0]| + 1;
            to <= |s| && s[..at] + s[to..] == Join(kept + rest[1..]) && at == Offset(kept, rest[1..])
  {
    hide Join;
    var at := Offset(kept, rest);
    JoinFrom(kept, rest);
    JoinFrom(kept, rest[1..]);
    JoinHead(rest);
    var t := Join(kept + rest[1..]);
    assert s[at..][|rest[0]| + 1..] == Join(rest[1..]);
    assert t == t[..at] + t[at..];
  }

  lemma AdvanceStep(s: string, kept: seq<string>, rest: seq<string>)
    requires rest != [] && s == Join(kept + rest)
    ensures var end := Offset(kept, rest) + |rest[0]|;
            (if |rest| == 1 then end else end + 1) == Offset(kept + [rest[0]], rest[1..])
    ensures s == Join((kept + [rest[0]]) + rest[1..])
  {
    assert (kept + [rest[0]]) + rest[1..] == kept + rest;
    if kept == [] {
      assert kept + [rest[0]] == [rest[0]];
    } else {
      JoinAppend(kept, [rest[0]]);
    }
  }
}
