/**
 Hash slots of keys and of glob patterns (cluster.h, cluster.c), and the glob matcher
 (util.c). The checksum is a parameter.
 */
module HashSlot {

  const SLOTS: nat := 16384

  /** The first place of `c` from `i` on; the length if there is none. */
  function IndexOf(s: string, c: char, i: nat): (r: nat)
    requires i <= |s|
    ensures i <= r <= |s| && (r < |s| ==> s[r] == c) && forall j :: i <= j < r ==> s[j] != c
    decreases |s| - i
  {
    if i == |s| || s[i] == c then i else IndexOf(s, c, i + 1)
  }

  /** The part of a key that is hashed: what is in the first braces, if there is something. */
  function HashPart(key: string): string {
    var s := IndexOf(key, '{', 0);
    if s == |key| then key
    else
      var e := IndexOf(key, '}', s + 1);
      if e == |key| || e == s + 1 then key else key[s + 1..e]
  }

  /** `keyHashSlot`. */
  method KeyHashSlot(key: string, crc16: string -> nat) returns (slot: nat)
    ensures slot == crc16(HashPart(key)) % SLOTS
  {
    var s := 0;
    while s < |key|
      invariant 0 <= s <= |key| && forall j :: 0 <= j < s ==> key[j] != '{'
    {
      if key[s] == '{' { break; }
      s := s + 1;
    }
    IndexIs(key, '{', 0, s);
    if s == |key| { return crc16(key) % SLOTS; }
    var e := s + 1;
    while e < |key|
      invariant s < e <= |key| && forall j :: s + 1 <= j < e ==> key[j] != '}'
    {
      if key[e] == '}' { break; }
      e := e + 1;
    }
    IndexIs(key, '}', s + 1, e);
    if e == |key| || e == s + 1 { return crc16(key) % SLOTS; }
    return crc16(key[s + 1..e]) % SLOTS;
  }

  /** A key with a tag is hashed by it, so keys with the same tag share a slot; a key without one is hashed as it is. */
  lemma TagIsHashed(a: string, tag: string, b: string)
    requires '{' !in a && '}' !in tag
    ensures tag != [] ==> HashPart(a + "{" + tag + "}" + b) == tag
    ensures HashPart(a + "{}" + b) == a + "{}" + b && HashPart(a) == a && HashPart(a + "{" + tag) == a + "{" + tag
  {
    var key, empty, open := a + "{" + tag + "}" + b, a + "{}" + b, a + "{" + tag;
    var s := |a|;
    IndexIs(key, '{', 0, s);
    assert forall j :: s + 1 <= j < s + 1 + |tag| ==> key[j] == tag[j - s - 1] && open[j] == tag[j - s - 1];
    IndexIs(key, '}', s + 1, s + 1 + |tag|);
    assert key[s + 1..s + 1 + |tag|] == tag;
    IndexIs(empty, '{', 0, s);
    IndexIs(empty, '}', s + 1, s + 1);
    IndexIs(open, '{', 0, s);
    IndexIs(open, '}', s + 1, |open|);
    IndexIs(a, '{', 0, |a|);
  }

  lemma IndexIs(s: string, c: char, i: nat, r: nat)
    requires i <= r <= |s| && (r < |s| ==> s[r] == c) && forall j :: i <= j < r ==> s[j] != c
    ensures IndexOf(s, c, i) == r
  {}

  // ----- patterns

  predicate Special(c: char) { c == '*' || c == '?' || c == '[' || c == '\\' }

  predicate Plain(s: string) { forall i :: 0 <= i < |s| ==> !Special(s[i]) }

  function FirstSpecial(p: string, i: nat): (r: nat)
    requires i <= |p|
    ensures i <= r <= |p| && (r < |p| ==> Special(p[r])) && forall j :: i <= j < r ==> !Special(p[j])
    decreases |p| - i
  {
    if i == |p| || Special(p[i]) then i else FirstSpecial(p, i + 1)
  }

  datatype Option = None | Some(part: string)

  /** The tag, if it is closed before anything special; the whole pattern, if nothing in it is special. */
  function PatternPart(p: string): Option {
    var x, s := FirstSpecial(p, 0), IndexOf(p, '{', 0);
    var e := if s < |p| then IndexOf(p, '}', s + 1) else |p|;
    if s + 1 < e < x then Some(p[s + 1..e])
    else if x == |p| then Some(p)
    else None
  }

  /** `patternHashSlot`: -1 exactly when something special comes before the end of a tag. */
  method PatternHashSlot(p: string, crc16: string -> nat) returns (slot: int)
    ensures slot == match PatternPart(p) case None => -1 case Some(part) => crc16(part) % SLOTS
  {
    var s := -1;
    for i := 0 to |p|
      invariant forall j :: 0 <= j < i ==> !Special(p[j])
      invariant s == -1 ==> forall j :: 0 <= j < i ==> p[j] != '{'
      invariant s >= 0 ==> s < i && IndexOf(p, '{', 0) == s && forall j :: s < j < i ==> p[j] != '}'
      invariant s < -1 ==> s == -2 && IndexOf(p, '{', 0) + 1 < i && p[IndexOf(p, '{', 0) + 1] == '}'
    {
      if Special(p[i]) {
        SpecialIs(p, i);
        return -1;
      } else if s == -1 && p[i] == '{' {
        IndexIs(p, '{', 0, i);
        s := i;
      } else if s >= 0 && p[i] == '}' && i == s + 1 {
        s := -2;
      } else if s >= 0 && p[i] == '}' {
        IndexIs(p, '}', s + 1, i);
        assert FirstSpecial(p, 0) > i;
        return crc16(p[s + 1..i]) % SLOTS;
      }
    }
    return crc16(p) % SLOTS;
  }

  /** A pattern has a slot if nothing in it is special, or if nothing is before the end of its tag; else it has none. */
  lemma PatternSlots(a: string, tag: string, b: string)
    requires '{' !in a && '}' !in tag && Plain(a)
    ensures Plain(b) && '{' !in b ==> PatternPart(a + b) == Some(a + b)
    ensures tag != [] && Plain(tag) ==> PatternPart(a + "{" + tag + "}" + b) == Some(tag)
    ensures !Plain(b) && '{' !in b ==> PatternPart(a + b) == None
    ensures !Plain(tag) ==> PatternPart(a + "{" + tag + "}" + b) == None
  {
    var p, q := a + b, a + "{" + tag + "}" + b;
    if '{' !in b {
      assert forall j :: 0 <= j < |p| ==> p[j] != '{';
      IndexIs(p, '{', 0, |p|);
      if Plain(b) { assert Plain(p); } else {
        var i :| 0 <= i < |b| && Special(b[i]);
        assert p[|a| + i] == b[i];
      }
    }
    IndexIs(q, '{', 0, |a|);
    assert forall j :: |a| + 1 <= j < |a| + 1 + |tag| ==> q[j] == tag[j - |a| - 1];
    IndexIs(q, '}', |a| + 1, |a| + 1 + |tag|);
    assert q[|a| + 1..|a| + 1 + |tag|] == tag;
    if !Plain(tag) {
      var i :| 0 <= i < |tag| && Special(tag[i]);
      assert q[|a| + 1 + i] == tag[i];
    }
  }

  lemma SpecialIs(p: string, r: nat)
    requires r < |p| && Special(p[r]) && forall j :: 0 <= j < r ==> !Special(p[j])
    ensures FirstSpecial(p, 0) == r
  {}

  // ----- the glob matcher

  const MAX_NESTING: nat := 1000

  function Lower(c: char): char { if 'A' <= c <= 'Z' then (c as int + 32) as char else c }

  predicate SameChar(a: char, b: char, nocase: bool) { a == b || (nocase && Lower(a) == Lower(b)) }

  /** A range in a character class, its ends in either order. */
  predicate InRange(a: char, b: char, c: char, nocase: bool) {
    var lo, hi := if a > b then b else a, if a > b then a else b;
    if nocase then Lower(lo) <= Lower(c) <= Lower(hi) else lo <= c <= hi
  }

  /** A character class, after `[` and `^`: does it hold `c`, and what is left of the pattern. */
  function Class(p: string, c: char, nocase: bool, found: bool): (bool, string)
    decreases |p|
  {
    if |p| >= 2 && p[0] == '\\' then Class(p[2..], c, nocase, found || p[1] == c)
    else if p == [] then (found, [])
    else if p[0] == ']' then (found, p[1..])
    else if |p| >= 3 && p[1] == '-' then Class(p[3..], c, nocase, found || InRange(p[0], p[2], c, nocase))
    else Class(p[1..], c, nocase, found || SameChar(p[0], c, nocase))
  }

  lemma {:induction false} ClassShrinks(p: string, c: char, nocase: bool, found: bool)
    ensures |Class(p, c, nocase, found).1| <= |p|
    decreases |p|
  {
    if |p| >= 2 && p[0] == '\\' { ClassShrinks(p[2..], c, nocase, found || p[1] == c); }
    else if p == [] || p[0] == ']' {}
    else if |p| >= 3 && p[1] == '-' { ClassShrinks(p[3..], c, nocase, found || InRange(p[0], p[2], c, nocase)); }
    else { ClassShrinks(p[1..], c, nocase, found || SameChar(p[0], c, nocase)); }
  }

  /** The pattern from the last of the stars it begins with. */
  function LastStar(p: string): (r: string)
    ensures |r| <= |p| && (p != [] ==> r != [])
    decreases |p|
  {
    if |p| > 1 && p[1] == '*' then LastStar(p[1..]) else p
  }

  function SkipStars(p: string): string
    decreases |p|
  {
    if p != [] && p[0] == '*' then SkipStars(p[1..]) else p
  }

  /** Whether it matched, and `skipLongerMatches`. */
  datatype Verdict = Verdict(ok: bool, skip: bool)

  /** `stringmatchlen_impl`. */
  function Match(p: string, s: string, nocase: bool, skip: bool, nesting: nat): Verdict
    decreases |p|, |s|, 1
  {
    if nesting > MAX_NESTING then Verdict(false, skip)
    else Loop(p, s, nocase, skip, nesting)
  }

  /** Its loop; a pattern or a string that has come to its end leaves it. */
  function Loop(p: string, s: string, nocase: bool, skip: bool, nesting: nat): Verdict
    decreases |p|, |s|, 0
  {
    if p == [] || s == [] then Verdict(p == [] && s == [], skip)
    else if p[0] == '*' then
      var q := LastStar(p);
      if |q| == 1 then Verdict(true, skip) else Star(q[1..], s, nocase, skip, nesting)
    else if p[0] == '?' then Next(p[1..], s[1..], nocase, skip, nesting)
    else if p[0] == '[' then
      var negated := |p| > 1 && p[1] == '^';
      var from := if negated then p[2..] else p[1..];
      ClassShrinks(from, s[0], nocase, false);
      var (found, rest) := Class(from, s[0], nocase, false);
      if found == negated then Verdict(false, skip) else Next(rest, s[1..], nocase, skip, nesting)
    else
      var q := if p[0] == '\\' && |p| >= 2 then p[1..] else p;
      if !SameChar(q[0], s[0], nocase) then Verdict(false, skip) else Next(q[1..], s[1..], nocase, skip, nesting)
  }

  /** The end of a turn of the loop. */
  function Next(p: string, s: string, nocase: bool, skip: bool, nesting: nat): Verdict
    decreases |p|, |s|, 1
  {
    if s == [] then Verdict(SkipStars(p) == [], skip) else Loop(p, s, nocase, skip, nesting)
  }

  /** The rest of the pattern after a star, tried at every place of the string. */
  function Star(p: string, s: string, nocase: bool, skip: bool, nesting: nat): Verdict
    decreases |p|, |s|, 2
  {
    if s == [] then Verdict(false, true)
    else
      var v := Match(p, s, nocase, skip, nesting + 1);
      if v.ok || v.skip then v else Star(p, s[1..], nocase, v.skip, nesting)
  }

  /** `stringmatchlen`. */
  predicate Matches(p: string, s: string, nocase: bool) { Match(p, s, nocase, false, 0).ok }

  // ----- what plain text in a pattern says

  lemma {:induction false} PlainStars(p: string)
    requires Plain(p)
    ensures SkipStars(p) == p
  {
    assert p != [] ==> !Special(p[0]);
  }

  lemma PlainStep(p: string, s: string, skip: bool, nesting: nat)
    requires p != [] && !Special(p[0]) && Loop(p, s, false, skip, nesting).ok
    ensures s != [] && s[0] == p[0] && Next(p[1..], s[1..], false, skip, nesting).ok
  {}

  /** A string that matches begins with the plain text the pattern begins with. */
  lemma {:induction false} PlainPrefix(lit: string, rest: string, s: string, skip: bool, nesting: nat)
    requires Plain(lit) && Loop(lit + rest, s, false, skip, nesting).ok
    ensures lit <= s
    decreases |lit|
  {
    hide Loop, Next;
    if lit != [] {
      var p := lit + rest;
      assert !Special(lit[0]) && p[0] == lit[0] && p[1..] == lit[1..] + rest;
      PlainStep(p, s, skip, nesting);
      NextMeans(p[1..], s[1..], skip, nesting);
      if s[1..] != [] {
        PlainPrefix(lit[1..], rest, s[1..], skip, nesting);
      } else {
        OnlyStars(lit[1..], rest);
      }
    }
  }

  lemma NextMeans(p: string, s: string, skip: bool, nesting: nat)
    requires Next(p, s, false, skip, nesting).ok
    ensures s == [] ==> SkipStars(p) == []
    ensures s != [] ==> Loop(p, s, false, skip, nesting).ok
  {}

  lemma OnlyStars(lit: string, rest: string)
    requires Plain(lit) && SkipStars(lit + rest) == []
    ensures lit == []
  {
    assert lit != [] ==> (lit + rest)[0] == lit[0] && !Special(lit[0]);
  }

  /** A plain pattern matches itself and nothing else. */
  lemma {:induction false} PlainMatches(p: string, s: string, skip: bool, nesting: nat)
    requires Plain(p)
    ensures Loop(p, s, false, skip, nesting).ok <==> s == p
    decreases |p|
  {
    if p != [] && s != [] {
      assert !Special(p[0]);
      PlainMatches(p[1..], s[1..], skip, nesting);
      PlainStars(p[1..]);
      assert s == [s[0]] + s[1..] && p == [p[0]] + p[1..];
    }
  }

  lemma PlainMatchesOnly(p: string, s: string)
    requires Plain(p)
    ensures Matches(p, s, false) <==> s == p
  {
    hide Loop;
    PlainMatches(p, s, false, 0);
  }

  // ----- one slot

  /** Braces that are in the common beginning are the first ones of both. */
  lemma SameTag(p: string, key: string, s: nat, e: nat)
    requires s < e < |p| && p[..e + 1] <= key
    requires IndexOf(p, '{', 0) == s && IndexOf(p, '}', s + 1) == e
    ensures IndexOf(key, '{', 0) == s && IndexOf(key, '}', s + 1) == e && key[s + 1..e] == p[s + 1..e]
  {
    var lit := p[..e + 1];
    assert forall j :: 0 <= j <= e ==> key[j] == lit[j] == p[j];
    IndexIs(key, '{', 0, s);
    IndexIs(key, '}', s + 1, e);
  }

  /** If a slot is inferred for a pattern, every key the pattern matches hashes to it. */
  lemma PatternSlotIsSound(p: string, key: string, crc16: string -> nat)
    requires PatternPart(p).Some? && Matches(p, key, false)
    ensures crc16(HashPart(key)) % SLOTS == crc16(PatternPart(p).part) % SLOTS
  {
    hide Loop;
    var x, s := FirstSpecial(p, 0), IndexOf(p, '{', 0);
    var e := if s < |p| then IndexOf(p, '}', s + 1) else |p|;
    if s + 1 < e < x {
      var lit := p[..e + 1];
      assert p == lit + p[e + 1..];
      assert Plain(lit);
      PlainPrefix(lit, p[e + 1..], key, false, 0);
      SameTag(p, key, s, e);
    } else {
      assert Plain(p);
      PlainMatchesOnly(p, key);
    }
  }
}
