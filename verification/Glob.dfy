/**
 The glob matcher gives up early (util.c): once the pattern after a star has failed at every
 place, no star before it is tried at another place. This file compares it with a matcher
 that tries everything.
 */
module Glob {
  import opened HashSlot

  // ----- a pattern that does not begin with a star begins with something for one character

  function ClassFrom(p: string): string
    requires p != []
  {
    if |p| > 1 && p[1] == '^' then p[2..] else p[1..]
  }

  /** The pattern after its first element. */
  function Rest(p: string): string
    requires p != []
  {
    if p[0] == '[' then Class(ClassFrom(p), 'x', false, false).1
    else if p[0] == '\\' && |p| >= 2 then p[2..]
    else p[1..]
  }

  /** Does the first element match the character? */
  predicate Takes(p: string, c: char, nocase: bool)
    requires p != []
  {
    if p[0] == '?' then true
    else if p[0] == '[' then Class(ClassFrom(p), c, nocase, false).0 != (|p| > 1 && p[1] == '^')
    else if p[0] == '\\' && |p| >= 2 then SameChar(p[1], c, nocase)
    else SameChar(p[0], c, nocase)
  }

  /** Where a character class ends does not depend on the character. */
  lemma {:induction false} ClassEnds(p: string, c: char, nocase: bool, found: bool, d: char, nocase': bool,
      found': bool)
    ensures Class(p, c, nocase, found).1 == Class(p, d, nocase', found').1
    decreases |p|
  {
    hide SameChar, InRange;
    if |p| >= 2 && p[0] == '\\' { ClassEnds(p[2..], c, nocase, found || p[1] == c, d, nocase', found' || p[1] == d); }
    else if p == [] || p[0] == ']' {}
    else if |p| >= 3 && p[1] == '-' {
      ClassEnds(p[3..], c, nocase, found || InRange(p[0], p[2], c, nocase), d, nocase', found'
        || InRange(p[0], p[2], d, nocase'));
    } else {
      ClassEnds(p[1..], c, nocase, found || SameChar(p[0], c, nocase), d, nocase', found'
        || SameChar(p[0], d, nocase'));
    }
  }

  lemma RestShrinks(p: string)
    requires p != []
    ensures |Rest(p)| < |p|
  {
    if p[0] == '[' { ClassShrinks(ClassFrom(p), 'x', false, false); }
  }

  lemma LoopOne(p: string, s: string, nocase: bool, skip: bool, nesting: nat)
    requires p != [] && p[0] != '*' && s != []
    ensures Loop(p, s, nocase, skip, nesting)
         == if Takes(p, s[0], nocase) then HashSlot.Next(Rest(p), s[1..], nocase, skip, nesting)
           else Verdict(false, skip)
  {
    hide Class, SameChar, HashSlot.Next;
    if p[0] == '[' { ClassEnds(ClassFrom(p), s[0], nocase, false, 'x', false, false); }
  }

  // ----- trying everything

  predicate Full(p: string, s: string, nocase: bool)
    decreases |p|, |s|, 0
  {
    if p == [] || s == [] then p == [] && s == []
    else if p[0] == '*' then
      var q := LastStar(p);
      |q| == 1 || Somewhere(q[1..], s, nocase)
    else
      RestShrinks(p);
      Takes(p, s[0], nocase) && FullNext(Rest(p), s[1..], nocase)
  }

  /** The end of the string also ends stars. */
  predicate FullNext(p: string, s: string, nocase: bool)
    decreases |p|, |s|, 1
  {
    if s == [] then SkipStars(p) == [] else Full(p, s, nocase)
  }

  predicate Somewhere(p: string, s: string, nocase: bool)
    decreases |p|, |s|, 2
  {
    s != [] && (Full(p, s, nocase) || Somewhere(p, s[1..], nocase))
  }

  /** Stars with something after them: how deep the matcher nests. */
  function Depth(p: string): nat
    decreases |p|
  {
    if p == [] then 0
    else if p[0] == '*' then (var q := LastStar(p); if |q| == 1 then 0 else 1 + Depth(q[1..]))
    else RestShrinks(p); Depth(Rest(p))
  }

  // ----- giving up is right

  /** No place of the string from here on matches. */
  ghost predicate Nowhere(p: string, s: string, nocase: bool) { forall k :: 0 <= k <= |s| ==> !Full(p, s[k..], nocase) }

  lemma {:induction false} SomewhereMeans(p: string, s: string, nocase: bool, k: nat)
    requires !Somewhere(p, s, nocase) && k < |s|
    ensures !Full(p, s[k..], nocase) && !Somewhere(p, s[k..], nocase)
    decreases k
  {
    if k == 0 {
      assert s[0..] == s;
    } else {
      SomewhereMeans(p, s[1..], nocase, k - 1);
      assert s[1..][k - 1..] == s[k..];
    }
  }

  lemma {:induction false} NowhereMeans(p: string, s: string, nocase: bool)
    requires Nowhere(p, s, nocase)
    ensures !Somewhere(p, s, nocase)
    decreases |s|
  {
    if s != [] {
      assert s[0..] == s;
      forall k | 0 <= k <= |s[1..]| ensures !Full(p, s[1..][k..], nocase) { assert s[1..][k..] == s[k + 1..]; }
      NowhereMeans(p, s[1..], nocase);
    }
  }

  /** What the matcher and the flag say of one call. */
  ghost predicate Right(p: string, s: string, nocase: bool, v: Verdict) {
    && v.ok == Full(p, s, nocase)
    && (!v.ok && v.skip ==> Nowhere(p, s, nocase))
  }

  lemma {:induction false} AllStars(r: string)
    requires SkipStars(r) == [] && r != []
    ensures r[0] == '*' && |LastStar(r)| == 1
    decreases |r|
  {
    if |r| > 1 { AllStars(r[1..]); }
  }

  lemma StarsMatch(r: string, s: string, nocase: bool, nesting: nat)
    requires s != [] && !Loop(r, s, nocase, false, nesting).ok && Loop(r, s, nocase, false, nesting).skip
    ensures SkipStars(r) != []
  {
    hide Star, HashSlot.Next, Class;
    if SkipStars(r) == [] && r != [] { AllStars(r); }
  }

  lemma {:induction false} LastStarShape(p: string)
    requires p != [] && p[0] == '*'
    ensures LastStar(p)[0] == '*' && (|LastStar(p)| > 1 ==> LastStar(p)[1] != '*')
    decreases |p|
  {
    if |p| > 1 && p[1] == '*' { LastStarShape(p[1..]); }
  }

  /** A failed element-by-element match that says so fails at every later place. */
  lemma GiveUpElement(p: string, s: string, nocase: bool, nesting: nat)
    requires p != [] && p[0] != '*' && |s| > 1
    requires Nowhere(Rest(p), s[1..], nocase) && SkipStars(Rest(p)) != []
    ensures Nowhere(p, s, nocase)
  {
    hide Rest, Takes;
    forall k | 0 <= k <= |s| ensures !Full(p, s[k..], nocase) {
      if k < |s| {
        assert s[k..][1..] == s[1..][k..];
        FullElement(p, s[k..], nocase);
      }
    }
  }

  lemma FullElement(p: string, s: string, nocase: bool)
    requires p != [] && p[0] != '*' && s != []
    ensures Full(p, s, nocase) == (Takes(p, s[0], nocase) && FullNext(Rest(p), s[1..], nocase))
  {
    hide Rest, Takes, FullNext;
  }

  lemma GiveUpStar(p: string, s: string, nocase: bool)
    requires p != [] && p[0] == '*' && |LastStar(p)| > 1 && !Somewhere(LastStar(p)[1..], s, nocase)
    ensures Nowhere(p, s, nocase)
  {
    forall k | 0 <= k <= |s| ensures !Full(p, s[k..], nocase) {
      if k < |s| { SomewhereMeans(LastStar(p)[1..], s, nocase, k); }
    }
  }

  lemma DepthElement(p: string)
    requires p != [] && p[0] != '*'
    ensures Depth(Rest(p)) == Depth(p)
  {
    hide Rest;
  }

  lemma DepthStar(p: string)
    requires p != [] && p[0] == '*' && |LastStar(p)| > 1
    ensures Depth(p) == 1 + Depth(LastStar(p)[1..])
  {
    hide Rest;
  }

  lemma {:induction false} LoopRight(p: string, s: string, nocase: bool, nesting: nat)
    requires nesting + Depth(p) <= MAX_NESTING
    ensures Right(p, s, nocase, Loop(p, s, nocase, false, nesting))
    decreases |p|, |s|, 1
  {
    hide Class, Depth, Nowhere, Rest, Takes, Star, Somewhere;
    if p == [] || s == [] {
    } else if p[0] == '*' {
      if |LastStar(p)| > 1 {
        DepthStar(p);
        LastStarShape(p);
        StarRight(LastStar(p)[1..], s, nocase, nesting);
        if !Somewhere(LastStar(p)[1..], s, nocase) { GiveUpStar(p, s, nocase); }
      }
    } else {
      ElementRight(p, s, nocase, nesting);
    }
  }

  lemma {:induction false} ElementRight(p: string, s: string, nocase: bool, nesting: nat)
    requires nesting + Depth(p) <= MAX_NESTING && p != [] && p[0] != '*' && s != []
    ensures Right(p, s, nocase, Loop(p, s, nocase, false, nesting))
    decreases |p|, |s|, 0
  {
    hide Class, Depth, Nowhere, Rest, Takes, Loop, Full;
    LoopOne(p, s, nocase, false, nesting);
    FullElement(p, s, nocase);
    RestShrinks(p);
    DepthElement(p);
    if Takes(p, s[0], nocase) && |s| > 1 {
      LoopRight(Rest(p), s[1..], nocase, nesting);
      var v := Loop(Rest(p), s[1..], nocase, false, nesting);
      if !v.ok && v.skip {
        StarsMatch(Rest(p), s[1..], nocase, nesting);
        GiveUpElement(p, s, nocase, nesting);
      }
    }
  }

  lemma {:induction false} StarRight(p: string, s: string, nocase: bool, nesting: nat)
    requires nesting + 1 + Depth(p) <= MAX_NESTING
    ensures var v := Star(p, s, nocase, false, nesting); v.ok == Somewhere(p, s, nocase) && (!v.ok ==> v.skip)
    decreases |p|, |s|, 2
  {
    hide Loop, Full, Depth;
    if s != [] {
      LoopRight(p, s, nocase, nesting + 1);
      var v := Match(p, s, nocase, false, nesting + 1);
      if !v.ok {
        if v.skip { NowhereMeans(p, s, nocase); } else { StarRight(p, s[1..], nocase, nesting); }
      }
    }
  }

  // ----- a match is always right, and has been through every star

  /** What a match says of a pattern tried at some nesting. */
  ghost predicate Sound(p: string, s: string, nocase: bool, nesting: nat) {
    Full(p, s, nocase) && nesting + Depth(p) <= MAX_NESTING
  }

  lemma {:induction false} LoopSound(p: string, s: string, nocase: bool, skip: bool, nesting: nat)
    requires nesting <= MAX_NESTING && Loop(p, s, nocase, skip, nesting).ok
    ensures Sound(p, s, nocase, nesting)
    decreases |p|, |s|, 1
  {
    hide Class, Rest, Takes, Star, Somewhere;
    if p != [] && s != [] {
      if p[0] != '*' {
        ElementSound(p, s, nocase, skip, nesting);
      } else if |LastStar(p)| > 1 {
        DepthStar(p);
        StarSound(LastStar(p)[1..], s, nocase, skip, nesting);
      }
    }
  }

  lemma {:induction false} ElementSound(p: string, s: string, nocase: bool, skip: bool, nesting: nat)
    requires nesting <= MAX_NESTING && Loop(p, s, nocase, skip, nesting).ok && p != [] && p[0] != '*' && s != []
    ensures Sound(p, s, nocase, nesting)
    decreases |p|, |s|, 0
  {
    hide Class, Rest, Takes, Loop, Full, Depth;
    LoopOne(p, s, nocase, skip, nesting);
    FullElement(p, s, nocase);
    RestShrinks(p);
    DepthElement(p);
    if |s| > 1 { LoopSound(Rest(p), s[1..], nocase, skip, nesting); } else { StarsAreShallow(Rest(p)); }
  }

  lemma {:induction false} StarSound(p: string, s: string, nocase: bool, skip: bool, nesting: nat)
    requires Star(p, s, nocase, skip, nesting).ok
    ensures Somewhere(p, s, nocase) && nesting + 1 + Depth(p) <= MAX_NESTING
    decreases |p|, |s|, 2
  {
    hide Loop, Full, Depth;
    var v := Match(p, s, nocase, skip, nesting + 1);
    if v.ok { LoopSound(p, s, nocase, skip, nesting + 1); } else { StarSound(p, s[1..], nocase, v.skip, nesting); }
  }

  lemma StarsAreShallow(p: string)
    requires SkipStars(p) == []
    ensures Depth(p) == 0
  {
    if p != [] { AllStars(p); }
  }

  /**
   The matcher that gives up early matches what trying everything matches, if the pattern nests no deeper than
   allowed.
   */
  lemma GivingUpIsRight(p: string, s: string, nocase: bool)
    ensures Matches(p, s, nocase) <==> Full(p, s, nocase) && Depth(p) <= MAX_NESTING
  {
    hide Loop, Full, Depth;
    if Depth(p) <= MAX_NESTING { LoopRight(p, s, nocase, 0); }
    if Matches(p, s, nocase) { LoopSound(p, s, nocase, false, 0); }
  }

  // ----- what patterns match

  lemma ClassOne(x: char, c: char, nocase: bool, found: bool)
    requires x != '\\' && x != ']'
    ensures Class([x, ']'], c, nocase, found) == (found || SameChar(x, c, nocase), [])
  {
    hide SameChar, InRange;
    assert [x, ']'][1..] == [']'] && [']'][1..] == [];
  }

  lemma ClassRange(a: char, b: char, c: char, nocase: bool)
    requires a != '\\' && a != ']'
    ensures Class([a, '-', b, ']'], c, nocase, false) == (InRange(a, b, c, nocase), [])
  {
    hide SameChar, InRange;
    assert [a, '-', b, ']'][3..] == [']'] && [']'][1..] == [];
  }

  lemma ClassEscaped(x: char, c: char, nocase: bool)
    ensures Class(['\\', x, ']'], c, nocase, false) == (x == c, [])
  {
    hide SameChar, InRange;
    assert ['\\', x, ']'][2..] == [']'] && [']'][1..] == [];
  }

  /** One element against one character. */
  lemma OneElement(p: string, c: char, nocase: bool)
    requires p != [] && p[0] != '*' && Rest(p) == []
    ensures Matches(p, [c], nocase) <==> Takes(p, c, nocase)
  {
    hide Rest, Takes, Class, SameChar, Loop;
    LoopOne(p, [c], nocase, false, 0);
    assert [c][1..] == [];
  }

  /** [a-b] matches the characters between, in either order; [^a-b] the others; with letter case folded if asked for. */
  lemma RangeMatches(a: char, b: char, c: char)
    requires a != '\\' && a != ']' && a <= b
    ensures a != '^' ==> (Matches(['[', a, '-', b, ']'], [c], false) <==> a <= c <= b)
    ensures a != '^' && b != '\\' && b != ']' && b != '^' ==>
      (Matches(['[', b, '-', a, ']'], [c], false) <==> a <= c <= b)
    ensures Matches(['[', '^', a, '-', b, ']'], [c], false) <==> !(a <= c <= b)
    ensures a != '^' ==> (Matches(['[', a, '-', b, ']'], [c], true) <==> Lower(a) <= Lower(c) <= Lower(b))
  {
    hide Class, Matches;
    var p, r, n := ['[', a, '-', b, ']'], ['[', b, '-', a, ']'], ['[', '^', a, '-', b, ']'];
    assert p[1..] == [a, '-', b, ']'] && r[1..] == [b, '-', a, ']'] && n[2..] == [a, '-', b, ']'];
    ClassRange(a, b, c, false); ClassRange(a, b, c, true); ClassRange(a, b, 'x', false);
    if b != '\\' && b != ']' { ClassRange(b, a, c, false); ClassRange(b, a, 'x', false); }
    if a != '^' { OneElement(p, c, false); OneElement(p, c, true); }
    if b != '\\' && b != ']' && b != '^' { OneElement(r, c, false); }
    OneElement(n, c, false);
  }

  /** A member of a class, plain or escaped, an escaped character, and the question mark. */
  lemma MemberMatches(x: char, c: char)
    ensures x != '\\' && x != ']' && x != '^' ==> (Matches(['[', x, ']'], [c], false) <==> c == x)
    ensures Matches(['[', '\\', x, ']'], [c], false) <==> c == x
    ensures Matches(['\\', x], [c], false) <==> c == x
    ensures Matches(['\\', x], [c], true) <==> c == x || Lower(c) == Lower(x)
    ensures Matches("?", [c], false) && !Matches("?", [], false)
  {
    hide Class, Matches;
    var p, e, q := ['[', x, ']'], ['[', '\\', x, ']'], ['\\', x];
    assert p[1..] == [x, ']'] && e[1..] == ['\\', x, ']'] && q[2..] == [];
    if x != '\\' && x != ']' && x != '^' {
      ClassOne(x, c, false, false); ClassOne(x, 'x', false, false);
      OneElement(p, c, false);
    }
    ClassEscaped(x, c, false); ClassEscaped(x, 'x', false);
    OneElement(e, c, false);
    OneElement(q, c, false); OneElement(q, c, true);
    OneElement("?", c, false);
    assert !Matches("?", [], false) by { NothingLeft("?"); }
  }

  lemma NothingLeft(p: string)
    requires p != []
    ensures !Matches(p, [], false)
  {
    var s: string := [];
    assert Loop(p, s, false, false, 0) == Verdict(false, false);
  }

  /** A star followed by something matches whatever ends in a match of the rest; a last star matches anything. */
  lemma StarMatches(p: string, s: string, nocase: bool)
    requires p != [] && p[0] != '*' && s != []
    ensures Full("*" + p, s, nocase) <==> exists k :: 0 <= k < |s| && Full(p, s[k..], nocase)
    ensures Full("*", s, nocase)
  {
    hide Full;
    assert ("*" + p)[1..] == p;
    StarIs(p, s, nocase);
    if Somewhere(p, s, nocase) { var k := SomewhereAt(p, s, nocase); }
    if !Somewhere(p, s, nocase) {
      forall k | 0 <= k < |s| ensures !Full(p, s[k..], nocase) { SomewhereMeans(p, s, nocase, k); }
    }
  }

  lemma StarIs(p: string, s: string, nocase: bool)
    requires p != [] && p[0] != '*' && s != []
    ensures Full("*" + p, s, nocase) == Somewhere(p, s, nocase) && Full("*", s, nocase)
  {
    assert ("*" + p)[1..] == p && ("*" + p)[1] == p[0];
    assert LastStar("*" + p) == "*" + p;
  }

  lemma {:induction false} SomewhereAt(p: string, s: string, nocase: bool) returns (k: nat)
    requires Somewhere(p, s, nocase)
    ensures k < |s| && Full(p, s[k..], nocase)
    decreases |s|
  {
    if Full(p, s, nocase) {
      k := 0;
      assert s[0..] == s;
    } else {
      k := SomewhereAt(p, s[1..], nocase);
      k := k + 1;
      assert s[k..] == s[1..][k - 1..];
    }
  }
}
