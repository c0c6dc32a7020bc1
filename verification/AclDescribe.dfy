/**
 Describing a selector (acl.c): `ACLDescribeSelectorCommandRules` splits the rule string, applies
 what it finds to a second selector, and gives up if an operation is refused or the bitmaps differ.
 This file says when the string rebuilds the permissions, for every run of operations.
 */
module AclDescribe {
  import opened AclText
  import opened AclRules
  import opened AclSelector

  // ----- what a description does

  ghost predicate Accepted(t: Table, ops: seq<string>) { forall i :: 0 <= i < |ops| ==> !Parse(t, ops[i]).Reject? }

  /** The selector that is rebuilt from some operations on the base the reserved bit chooses. */
  function Rebuilt(t: Table, s: Live, ops: seq<string>): Live { Run(t, Fresh(StartsAll(s.view)), ops) }

  /** A failed assertion, or the panic over bitmaps that differ. First arguments are not compared. */
  ghost predicate Panics(t: Table, s: Live) {
    match SplitArgs(s.rules)
    case None => true
    case Some(ops) => !Accepted(t, ops) || Rebuilt(t, s, ops).view.bits != s.view.bits
  }

  /** The rule string rebuilds the permissions, first arguments included. */
  ghost predicate Describes(t: Table, s: Live) {
    match SplitArgs(s.rules)
    case None => false
    case Some(ops) => Accepted(t, ops) && Rebuilt(t, s, ops).view == s.view
  }

  lemma DescribesNoPanic(t: Table, s: Live)
    requires Describes(t, s)
    ensures !Panics(t, s)
  {
    hide SplitArgs, Rebuilt;
  }

  // ----- clean rules

  ghost predicate AllClean(rs: seq<Rule>) { forall i :: 0 <= i < |rs| ==> Clean(rs[i].target) }

  /** The string spells out the retained rules, and all of them are clean. */
  ghost predicate Tidy(s: Live) { AllClean(s.retained) && s.rules == Join(Texts(s.retained)) }

  lemma LowerCleanIff(s: string)
    ensures Clean(Lower(s)) <==> Clean(s)
  {
    forall i | 0 <= i < |s| ensures Separator(Lower(s)[i]) == Separator(s[i]) && Quote(Lower(s)[i]) == Quote(s[i]) {}
  }

  lemma CleanTarget(t: Table, op: string)
    requires Parse(t, op).Apply?
    ensures Clean(Parse(t, op).rule.target) <==> Clean(op)
  {
    hide Parse;
    ParsedRule(t, op);
    LowerCleanIff(op[1..]);
    assert forall i :: 0 < i < |op| ==> op[i] == op[1..][i - 1];
    if Clean(op) { assert Clean(op[1..]); }
  }

  lemma TextsTokens(rs: seq<Rule>)
    requires AllClean(rs)
    ensures Tokens(Texts(rs)) && Spaceless(Texts(rs)) && AllTokensClean(Texts(rs))
  {
    var ts := Texts(rs);
    forall i | 0 <= i < |ts| ensures ts[i] != [] && !Blank(ts[i][0]) && Clean(ts[i]) && ' ' !in ts[i] {
      assert Clean(rs[i].target);
      assert ts[i] == Text(rs[i]);
      assert forall k :: 0 < k < |ts[i]| ==> ts[i][k] == rs[i].target[k - 1];
    }
  }

  lemma KeptClean(rs: seq<Rule>, n: string)
    requires AllClean(rs)
    ensures AllClean(KeptRules(rs, n))
  {
    hide Clean;
    KeptSubset(rs, n);
  }

  lemma {:induction false} KeptAppend(a: seq<string>, b: seq<string>, n: string)
    ensures Kept(a + b, n) == Kept(a, n) + Kept(b, n)
    decreases |a|
  {
    hide Covers;
    if a == [] {
      assert a + b == b;
    } else {
      assert (a + b)[1..] == a[1..] + b;
      KeptAppend(a[1..], b, n);
    }
  }

  lemma KeptOne(x: string, n: string)
    requires x != []
    ensures Kept([x], n) == if Covers(n, x[1..]) then [] else [x]
  {
    hide Covers;
    assert [x][1..] == [];
  }

  lemma TextsAppend(rs: seq<Rule>, r: Rule)
    ensures Texts(rs + [r]) == Texts(rs) + [Text(r)]
  {}

  lemma NoTexts(n: string)
    ensures Kept(Texts([]), n) == Texts([]) == []
  {}

  /** Editing the rule texts is editing the rules. */
  lemma {:induction false} KeptTexts(rs: seq<Rule>, n: string)
    ensures Kept(Texts(rs), n) == Texts(KeptRules(rs, n))
    decreases |rs|
  {
    hide Covers, Kept, Texts;
    if rs == [] {
      NoTexts(n);
    } else {
      var init, last := rs[..|rs| - 1], rs[|rs| - 1];
      KeptTexts(init, n);
      assert init + [last] == rs;
      TextsAppend(init, last);
      KeptAppend(Texts(init), [Text(last)], n);
      KeptOne(Text(last), n);
      TextsAppend(KeptRules(init, n), last);
      assert Text(last)[1..] == last.target;
    }
  }

  lemma JoinLast(ts: seq<string>, x: string)
    requires Spaceless(ts)
    ensures Join(ts + [x]) == Join(ts) + (if Join(ts) == [] then [] else [' ']) + x
  {
    JoinLength(ts);
    if ts == [] { assert ts + [x] == [x]; } else { JoinAppend(ts, [x]); }
  }

  /** On a tidy string the edit is the edit of the rules, whatever the new rule is. */
  lemma RecordRules(s: Live, r: Rule)
    requires Tidy(s)
    ensures Record(s, r).rules == Join(Texts(KeptRules(s.retained, r.target)) + [Text(r)])
    ensures Record(s, r).rules == Join(Texts(Record(s, r).retained))
    ensures AllClean(KeptRules(s.retained, r.target))
  {
    hide Join, Texts, Pieces, Kept, KeptRules, Clean, AllClean, Spaceless, ApplyRule;
    var kept := KeptRules(s.retained, r.target);
    TextsTokens(s.retained);
    PiecesOfJoin(Texts(s.retained));
    KeptTexts(s.retained, r.target);
    KeptClean(s.retained, r.target);
    TextsTokens(kept);
    JoinLast(Texts(kept), Text(r));
    TextsAppend(kept, r);
  }

  /** A clean operation keeps the string tidy, and a reset makes it so. */
  lemma ExecTidy(t: Table, s: Live, op: string)
    requires Tidy(s) || Parse(t, op).AllCommands? || Parse(t, op).NoCommands?
    requires Parse(t, op).Apply? ==> Clean(op)
    ensures Tidy(Exec(t, s, op))
  {
    hide Parse, Clean, Join, Updated, ApplyRule, KeptRules;
    if Parse(t, op).Apply? {
      CleanTarget(t, op);
      RecordRules(s, Parse(t, op).rule);
    } else {
      FreshTidy(true);
      FreshTidy(false);
    }
  }

  lemma FreshTidy(all: bool)
    ensures Tidy(Fresh(all))
  {
    assert Texts([]) == [];
  }

  /** A tidy string splits back into the retained rules and describes the selector. */
  lemma TidyDescribes(t: Table, s: Live)
    requires Inv(t, s) && Tidy(s)
    ensures SplitArgs(s.rules) == Some(Texts(s.retained)) && Describes(t, s)
    ensures Rebuilt(t, s, Texts(s.retained)).rules == s.rules
  {
    hide Parse, Join, SplitArgs, Replay, CommandArgs, Run, Clean;
    var ts := Texts(s.retained);
    TextsTokens(s.retained);
    SplitOfJoin(ts);
    forall i | 0 <= i < |ts| ensures Parse(t, ts[i]).Apply? { assert Good(t, s.retained[i]); }
    RunOfTexts(t, StartsAll(s.view), s.retained);
    FreshTidy(StartsAll(s.view));
    RunTidy(t, Fresh(StartsAll(s.view)), ts);
  }

  // ----- runs

  /** No operation accepted since the last +@all or -@all holds a separator or a quote. */
  ghost predicate CleanSince(t: Table, ops: seq<string>)
    decreases |ops|
  {
    ops != [] ==>
      var op := ops[|ops| - 1];
      || Parse(t, op).AllCommands? || Parse(t, op).NoCommands?
      || ((Parse(t, op).Apply? ==> Clean(op)) && CleanSince(t, ops[..|ops| - 1]))
  }

  lemma {:induction false} CleanSinceTidy(t: Table, s: Live, ops: seq<string>)
    requires Tidy(s) && CleanSince(t, ops)
    ensures Tidy(Run(t, s, ops))
    decreases |ops|
  {
    hide Parse, Clean, Tidy, Exec;
    if ops != [] {
      var op, u := ops[|ops| - 1], Run(t, s, ops[..|ops| - 1]);
      if !Parse(t, op).AllCommands? && !Parse(t, op).NoCommands? { CleanSinceTidy(t, s, ops[..|ops| - 1]); }
      ExecTidy(t, u, op);
    }
  }

  ghost predicate CleanAccepted(t: Table, ops: seq<string>) {
    forall i :: 0 <= i < |ops| && Parse(t, ops[i]).Apply? ==> Clean(ops[i])
  }

  lemma {:induction false} AcceptedSince(t: Table, ops: seq<string>)
    requires CleanAccepted(t, ops)
    ensures CleanSince(t, ops)
    decreases |ops|
  {
    hide Parse, Clean;
    if ops != [] {
      var init := ops[..|ops| - 1];
      assert forall i :: 0 <= i < |init| ==> init[i] == ops[i];
      AcceptedSince(t, init);
    }
  }

  lemma RunTidy(t: Table, s: Live, ops: seq<string>)
    requires Tidy(s) && AllTokensClean(ops)
    ensures Tidy(Run(t, s, ops))
  {
    hide Parse, Clean, Tidy, Run, CleanSince;
    AcceptedSince(t, ops);
    CleanSinceTidy(t, s, ops);
  }

  /**
   In every run in which no operation accepted since the last reset holds a separator or a quote, the string that the
   edits have left splits back into the retained rules and rebuilds the permissions, and nothing panics.
   */
  lemma CleanRunsDescribe(t: Table, ops: seq<string>)
    requires t.WellFormed() && CleanSince(t, ops)
    ensures var s := Run(t, Fresh(false), ops);
      SplitArgs(s.rules) == Some(Texts(s.retained)) && Describes(t, s) && !Panics(t, s)
  {
    hide SplitArgs, Run, Inv, Tidy, Describes, Panics, CleanSince;
    FreshInv(t, false);
    RunInv(t, Fresh(false), ops);
    FreshTidy(false);
    CleanSinceTidy(t, Fresh(false), ops);
    var s := Run(t, Fresh(false), ops);
    TidyDescribes(t, s);
    DescribesNoPanic(t, s);
  }

  // ----- an operation that is not clean

  lemma PipeAt(s: string, i: nat)
    requires i < |s| && s[i] == '|' && forall k :: i < k < |s| ==> s[k] != '|'
    ensures LastPipe(s) == i
  {}

  lemma NoPipe(s: string)
    requires '|' !in s
    ensures LastPipe(s) == -1
  {}

  /** Any text without '|' is accepted as a first argument of a command without subcommands. */
  lemma FirstArgAccepted(t: Table, n: string, a: string)
    requires t.WellFormed() && n in t.commands && t.commands[n].subs == map[] && a != [] && '|' !in a
    ensures Parse(t, "+" + n + "|" + a)
         == Apply(Rule(true, Lower(n + "|" + a), FirstArg(t.commands[n].id, Lower(a))))
  {
    hide ParseAllow, Table.WellFormed;
    var op := "+" + n + "|" + a;
    CommandIsFormed(t, n);
    assert op[1..] == n + "|" + a;
    PlusIsAllow(t, op);
    AllowsFirstArg(t, n, a);
  }

  lemma PlusIsAllow(t: Table, op: string)
    requires |op| > 1 && op[0] == '+' && op[1] != '@'
    ensures Parse(t, op) == ParseAllow(t, op[1..])
  {
    hide ParseAllow, ParseDeny, ParseCategory;
    assert Lower(op)[0] == '+' && Lower(op)[1] != '@';
  }

  lemma AllowsFirstArg(t: Table, n: string, a: string)
    requires t.Name(n) && n in t.commands && t.commands[n].subs == map[] && a != [] && '|' !in a
    ensures ParseAllow(t, n + "|" + a) == Apply(Rule(true, Lower(n + "|" + a), FirstArg(t.commands[n].id, Lower(a))))
  {
    hide LastPipe;
    var name := n + "|" + a;
    PipeAt(name, |n|);
    assert name[..|n|] == n && name[|n| + 1..] == a;
    NoPipe(n);
  }

  lemma CommandIsFormed(t: Table, n: string)
    requires t.WellFormed() && n in t.commands
    ensures t.Name(n) && n[0] != '@'
  {
    assert t.CommandFormed(n);
  }

  /** Where a first argument comes from. */
  ghost predicate Gives(t: Table, op: string, x: string) {
    Parse(t, op).Apply? && Parse(t, op).rule.effect.FirstArg? && Parse(t, op).rule.effect.arg == x
  }

  lemma {:induction false} ArgFrom(t: Table, all: bool, ops: seq<string>, id: nat, x: string) returns (i: nat)
    requires x in ArgsOf(Run(t, Fresh(all), ops).view, id)
    ensures i < |ops| && Gives(t, ops[i], x)
    decreases |ops|
  {
    hide Parse, Updated, KeptRules;
    if ops == [] {
      assert false;
    } else {
      var init, op := ops[..|ops| - 1], ops[|ops| - 1];
      if Gives(t, op, x) {
        i := |ops| - 1;
      } else {
        i := ArgFrom(t, all, init, id, x);
      }
    }
  }

  /** An operation that gives a first argument: a sign, the name of a command, a bar, and the argument. */
  lemma GivesShape(t: Table, op: string, x: string) returns (n: string)
    requires t.WellFormed() && Gives(t, op, x)
    ensures Lower(op) == "+" + n + "|" + x && '|' !in x && n in t.commands && t.Name(n)
    ensures Parse(t, op).rule.target == n + "|" + x
  {
    hide Table.WellFormed, Lower, LastPipe, Parse, ParseAllow, ParseDeny, ParseCategory;
    ParsedRule(t, op);
    ParseSigned(t, op);
    var name := op[1..];
    OnlyAllowGives(t, name);
    ArgShape(t, name, x);
    n := Lower(name[..LastPipe(name)]);
    CommandIsFormed(t, n);
    assert "+" + (n + "|" + x) == "+" + n + "|" + x;
  }

  lemma OnlyAllowGives(t: Table, name: string)
    ensures ParseDeny(t, name).Apply? ==> ParseDeny(t, name).rule.effect.Perm?
    ensures name != [] ==> forall allow :: ParseCategory(t, name, allow).Apply? ==>
      ParseCategory(t, name, allow).rule.effect.Perm?
  {
    hide Lookup, Lower;
  }

  lemma ArgShape(t: Table, name: string, x: string)
    requires ParseAllow(t, name).Apply? && ParseAllow(t, name).rule.effect.FirstArg?
    requires ParseAllow(t, name).rule.effect.arg == x
    ensures LastPipe(name) >= 0 && Lower(name[..LastPipe(name)]) in t.commands
    ensures Lower(name) == Lower(name[..LastPipe(name)]) + "|" + x && '|' !in x
  {
    hide Lower, LastPipe, Lookup;
    LookupTop(t, name[..LastPipe(name)]);
    AroundPipe(name);
  }

  lemma LookupTop(t: Table, s: string)
    ensures Lookup(t, s).Top? ==> Lookup(t, s).name == Lower(s)
  {
    hide Lower, LastPipe;
  }

  /** A name is what its last bar separates. */
  lemma AroundPipe(s: string)
    requires LastPipe(s) >= 0
    ensures Lower(s) == Lower(s[..LastPipe(s)]) + "|" + Lower(s[LastPipe(s) + 1..])
    ensures '|' !in Lower(s[LastPipe(s) + 1..])
  {
    hide LastPipe;
    var i := LastPipe(s);
    LowerPipes(s);
    PartsLower(s);
    assert Lower(s) == Lower(s)[..i] + [Lower(s)[i]] + Lower(s)[i + 1..];
  }

  lemma NameIsClean(t: Table, n: string)
    requires t.WellFormed()
    ensures n in t.commands ==> Clean(n)
    ensures n in t.categories ==> Clean(n)
    ensures n in t.commands ==> forall s :: s in t.commands[n].subs ==> Clean(s)
  {
    if n in t.commands {
      assert t.CommandFormed(n);
      forall s | s in t.commands[n].subs ensures Clean(s) { assert t.SubFormed(n, s); }
    }
  }

  lemma FoundIsClean(t: Table, name: string)
    requires t.WellFormed() && !Lookup(t, name).NotFound?
    ensures Clean(Lower(name))
  {
    hide Table.WellFormed;
    PartsLower(name);
    var i := LastPipe(name);
    if i == -1 {
      NameIsClean(t, Lower(name));
    } else {
      NameIsClean(t, Lower(name[..i]));
      AroundPipe(name);
    }
  }

  /** Only a first argument can bring a separator or a quote into an accepted operation. */
  lemma UncleanGives(t: Table, op: string)
    requires t.WellFormed() && Parse(t, op).Apply? && !Clean(op)
    ensures Parse(t, op).rule.effect.FirstArg?
  {
    hide Table.WellFormed, Lookup, Clean, Lower, LastPipe, PermOf, ParseAllow, ParseDeny, ParseCategory, Parse;
    ParsedRule(t, op);
    CleanTarget(t, op);
    ParseSigned(t, op);
    var name := op[1..];
    if |op| > 1 && op[1] == '@' { CategoryClean(t, name, op[0] == '+'); }
    else if op[0] == '+' { if !Parse(t, op).rule.effect.FirstArg? { AllowClean(t, name); } }
    else { DenyClean(t, name); }
  }

  lemma CategoryClean(t: Table, name: string, allow: bool)
    requires t.WellFormed() && name != [] && name[0] == '@' && ParseCategory(t, name, allow).Apply?
    ensures Clean(Lower(name))
  {
    hide Table.WellFormed;
    var low := Lower(name);
    NameIsClean(t, low[1..]);
    assert low[0] == '@' && forall i :: 0 < i < |low| ==> low[i] == low[1..][i - 1];
  }

  lemma AllowClean(t: Table, name: string)
    requires t.WellFormed() && ParseAllow(t, name).Apply? && !ParseAllow(t, name).rule.effect.FirstArg?
    ensures Clean(Lower(name))
  {
    hide Table.WellFormed, Lookup, LastPipe, Lower, Clean;
    FoundIsClean(t, name);
  }

  lemma DenyClean(t: Table, name: string)
    requires t.WellFormed() && ParseDeny(t, name).Apply?
    ensures Clean(Lower(name))
  {
    hide Table.WellFormed, Lookup, Lower, Clean;
    FoundIsClean(t, name);
  }

  /** The text of an operation that gives `x` is at least as long as its parts. */
  lemma GivesLength(t: Table, op: string, x: string, n: string)
    requires t.WellFormed() && Gives(t, op, x) && '|' !in n
    ensures |op| > |x| && (!Clean(x) ==> !Clean(op))
    ensures "+" + n + "|" <= op ==> |op| >= |n| + 2 + |x|
  {
    hide Table.WellFormed, Gives;
    var m := GivesShape(t, op, x);
    var low := "+" + m + "|" + x;
    assert |op| == |low| && low[|m| + 2..] == x;
    LowerCleanIff(op);
    if !Clean(x) {
      var i :| 0 <= i < |x| && (Separator(x[i]) || Quote(x[i]));
      assert low[|m| + 2 + i] == x[i];
    }
    if "+" + n + "|" <= op {
      assert op[|n| + 1] == '|' && low[|n| + 1] == '|';
    }
  }

  /** No token of the text of a rule gives the first argument of the rule if that is not clean. */
  lemma NoToken(t: Table, n: string, x: string, toks: seq<string>, j: nat)
    requires t.WellFormed() && t.Name(n) && !Clean(x)
    requires SplitArgs("+" + n + "|" + x) == Some(toks) && j < |toks|
    ensures !Gives(t, toks[j], x)
  {
    hide Table.WellFormed, Gives, SplitArgs, Join;
    if Gives(t, toks[j], x) {
      var head := "+" + n + "|";
      GivesLength(t, toks[j], x, n);
      SplitCost(head + x);
      assert Clean(head);
      SplitStarts(head, x);
      JoinParts(toks, j);
      assert false;
    }
  }

  /** After an operation that is not clean the string of a tidy selector no longer describes it. */
  lemma UncleanBreaks(t: Table, s: Live, op: string)
    requires t.WellFormed() && Tidy(s) && Parse(t, op).Apply? && !Clean(op)
    ensures !Describes(t, Exec(t, s, op))
  {
    hide Table.WellFormed, Clean, Tidy, SplitArgs, Join, Updated, Texts, KeptRules, Parse, Run, Accepted;
    var r := Parse(t, op).rule;
    UncleanGives(t, op);
    var x, id, u := r.effect.arg, r.effect.id, Exec(t, s, op);
    var n := GivesShape(t, op, x);
    UncleanArg(t, op, n, x);
    RecordRules(s, r);
    var kept := Texts(KeptRules(s.retained, r.target));
    TextsTokens(KeptRules(s.retained, r.target));
    assert Text(r) == "+" + n + "|" + x by { ParsedRule(t, op); }
    SplitPrefix(kept, Text(r));
    if Describes(t, u) {
      var ops := SplitArgs(u.rules).value;
      var toks := SplitArgs(Text(r)).value;
      assert x in ArgsOf(u.view, id);
      var i := ArgFrom(t, StartsAll(u.view), ops, id, x);
      if i < |kept| {
        assert ops[i] == kept[i] && Clean(kept[i]);
        GivesLength(t, ops[i], x, n);
      } else {
        assert ops[i] == toks[i - |kept|];
        NoToken(t, n, x, toks, i - |kept|);
      }
    }
  }

  lemma UncleanArg(t: Table, op: string, n: string, x: string)
    requires !Clean(op) && Lower(op) == "+" + n + "|" + x && t.Name(n)
    ensures !Clean(x) && '|' !in n
  {
    LowerCleanIff(op);
    var low := "+" + n + "|" + x;
    if Clean(x) {
      forall i | 0 <= i < |low| ensures !Separator(low[i]) && !Quote(low[i]) {
        if 1 <= i < |n| + 1 { assert low[i] == n[i - 1]; } else if i > |n| + 1 { assert low[i] == x[i - |n| - 2]; }
      }
    }
  }

  /**
   One more accepted operation on a tidy selector: the string splits back into the rules, and it rebuilds the
   permissions, exactly if the operation is clean.
   */
  lemma OneMoreIff(t: Table, s: Live, op: string)
    requires t.WellFormed() && Inv(t, s) && Tidy(s) && Parse(t, op).Apply?
    ensures var u := Exec(t, s, op);
      && (Describes(t, u) <==> Clean(op))
      && (SplitArgs(u.rules) == Some(Texts(u.retained)) <==> Clean(op))
  {
    hide Table.WellFormed, Inv, Tidy, Parse, Exec, Describes, SplitArgs, Clean, Texts;
    ExecInv(t, s, op);
    if Clean(op) {
      ExecTidy(t, s, op);
      TidyDescribes(t, Exec(t, s, op));
    } else {
      UncleanBreaks(t, s, op);
      UncleanSplits(t, s, op);
    }
  }

  lemma UncleanSplits(t: Table, s: Live, op: string)
    requires Tidy(s) && Parse(t, op).Apply? && !Clean(op)
    ensures SplitArgs(Exec(t, s, op).rules) != Some(Texts(Exec(t, s, op).retained))
  {
    hide Parse, SplitArgs, Join, Tidy, Updated, KeptRules;
    var u := Exec(t, s, op);
    RecordRules(s, Parse(t, op).rule);
    CleanTarget(t, op);
    TextsVisible(u.retained);
    JoinSplitsIff(Texts(u.retained));
    assert u.retained[|u.retained| - 1] == Parse(t, op).rule;
  }

  lemma TextsVisible(rs: seq<Rule>)
    ensures forall i :: 0 <= i < |rs| ==> Texts(rs)[i] != [] && !Blank(Texts(rs)[i][0])
    ensures AllTokensClean(Texts(rs)) <==> AllClean(rs)
  {
    forall i | 0 <= i < |rs| ensures Clean(Texts(rs)[i]) <==> Clean(rs[i].target) {
      var x := Texts(rs)[i];
      assert x == Text(rs[i]) && x[1..] == rs[i].target;
      if Clean(rs[i].target) { assert forall k :: 0 < k < |x| ==> x[k] == rs[i].target[k - 1]; }
      if Clean(x) { assert forall k :: 0 <= k < |x| - 1 ==> x[1..][k] == x[k + 1]; }
    }
  }

  /** The selector is described after each of the operations. */
  ghost predicate AlwaysDescribed(t: Table, ops: seq<string>) {
    forall i :: 0 <= i <= |ops| ==> Describes(t, Run(t, Fresh(false), ops[..i]))
  }

  /**
   For every run from a new selector, whatever the operations: the string that the edits leave rebuilds the
   permissions at every point of the run exactly if every accepted operation is clean.
   */
  lemma EveryRunRebuilds(t: Table, ops: seq<string>)
    requires t.WellFormed()
    ensures AlwaysDescribed(t, ops) <==> CleanAccepted(t, ops)
  {
    hide Table.WellFormed, Describes, Clean, Parse, Run;
    if CleanAccepted(t, ops) {
      forall i | 0 <= i <= |ops| ensures Describes(t, Run(t, Fresh(false), ops[..i])) {
        PrefixDescribed(t, ops, i);
      }
    } else {
      var i :| 0 <= i < |ops| && Parse(t, ops[i]).Apply? && !Clean(ops[i]);
      UncleanShows(t, ops, i);
    }
  }

  lemma PrefixDescribed(t: Table, ops: seq<string>, i: nat)
    requires t.WellFormed() && CleanAccepted(t, ops) && i <= |ops|
    ensures Describes(t, Run(t, Fresh(false), ops[..i]))
  {
    hide Table.WellFormed, Describes, Clean, Parse, Run, CleanSince;
    assert forall k :: 0 <= k < i ==> ops[..i][k] == ops[k];
    AcceptedSince(t, ops[..i]);
    CleanRunsDescribe(t, ops[..i]);
  }

  /** The first accepted operation that is not clean shows. */
  lemma {:induction false} UncleanShows(t: Table, ops: seq<string>, i: nat)
    requires t.WellFormed() && i < |ops| && Parse(t, ops[i]).Apply? && !Clean(ops[i])
    ensures !AlwaysDescribed(t, ops)
    decreases i
  {
    hide Table.WellFormed, Describes, Clean, Parse, Run, CleanSince, Tidy, Exec;
    var init := ops[..i];
    if CleanAccepted(t, init) {
      AcceptedSince(t, init);
      FreshTidy(false);
      CleanSinceTidy(t, Fresh(false), init);
      UncleanBreaks(t, Run(t, Fresh(false), init), ops[i]);
      RunStep(t, ops, i);
      assert !Describes(t, Run(t, Fresh(false), ops[..i + 1]));
    } else {
      var j :| 0 <= j < |init| && Parse(t, init[j]).Apply? && !Clean(init[j]);
      UncleanShows(t, ops, j);
    }
  }

  lemma RunStep(t: Table, ops: seq<string>, i: nat)
    requires i < |ops|
    ensures Run(t, Fresh(false), ops[..i + 1]) == Exec(t, Run(t, Fresh(false), ops[..i]), ops[i])
  {
    hide Exec;
    assert ops[..i + 1][..i] == ops[..i];
  }

  // ----- what a described selector decides

  /** A selector rebuilt from a string that describes it allows the same commands with the same arguments. */
  lemma DescribedDecidesTheSame(t: Table, s: Live, id: nat, firstArg: Option<string>)
    requires t.WellFormed() && Inv(t, s) && Describes(t, s) && id < COMMAND_BITS
    ensures MayRun(Rebuilt(t, s, SplitArgs(s.rules).value), id, firstArg) <==> MayRun(s, id, firstArg)
  {
    hide SplitArgs, Run, Replay, CommandArgs;
    FreshInv(t, StartsAll(s.view));
    RunInv(t, Fresh(StartsAll(s.view)), SplitArgs(s.rules).value);
    assert InRange(id);
  }

  // ----- strings that do not describe their selector

  /** A table with SELECT, which has no subcommands, and GET. */
  ghost predicate Usual(t: Table) {
    && t.WellFormed() && "select" in t.commands && t.commands["select"].subs == map[] && "get" in t.commands
    && t.commands["select"].id != t.commands["get"].id
  }

  /** There is such a table. */
  lemma UsualTable() returns (t: Table)
    ensures Usual(t)
  {
    var select, get := Command(0, {}, map[]), Command(1, {}, map[]);
    t := Table(map["select" := select, "get" := get], {});
    assert "select" != "get";
    assert Lower("select") == "select" && Lower("get") == "get";
    assert t.Name("select") && t.Name("get");
    assert t.CommandFormed("select") && t.CommandFormed("get");
  }

  lemma RunOne(t: Table, s: Live, a: string)
    ensures Run(t, s, [a]) == Exec(t, s, a)
  {
    hide Exec;
    assert [a][..0] == [];
  }

  lemma RunTwo(t: Table, s: Live, a: string, b: string)
    ensures Run(t, s, [a, b]) == Exec(t, Exec(t, s, a), b)
  {
    hide Exec;
    assert [a, b][..1] == [a];
    RunOne(t, s, a);
  }

  lemma JoinTwo(a: string, b: string)
    ensures Join([a, b]) == a + [' '] + b
  {
    assert [a, b][1..] == [b];
  }

  lemma SplitTwo(a: string, b: string)
    requires Tokens([a, b])
    ensures SplitArgs(a + [' '] + b) == Some([a, b]) && Pieces(a + [' '] + b) == [a, b]
  {
    hide SplitArgs, Pieces, Join;
    JoinTwo(a, b);
    SplitOfJoin([a, b]);
    forall i | 0 <= i < 2 ensures ' ' !in [a, b][i] { assert Clean([a, b][i]); }
    PiecesOfJoin([a, b]);
  }

  /** SELECT with a first argument. */
  lemma SelectArg(t: Table, a: string)
    requires Usual(t) && a != [] && '|' !in a && Lower(a) == a
    ensures Parse(t, "+select|" + a) == Apply(Rule(true, "select|" + a, FirstArg(t.commands["select"].id, a)))
  {
    hide Parse;
    FirstArgAccepted(t, "select", a);
    assert "+" + "select" + "|" + a == "+select|" + a && "select" + "|" + a == "select|" + a;
    assert Lower("select|" + a) == "select|" + a;
  }

  lemma PlainCommand(t: Table, n: string)
    requires t.WellFormed() && n in t.commands
    ensures Parse(t, "+" + n) == Apply(Rule(true, n, Perm(t.Covered(n), {t.commands[n].id})))
  {
    hide Table.WellFormed;
    CommandIsFormed(t, n);
    NoPipe(n);
    assert ("+" + n)[1..] == n && n != [];
    PlusIsAllow(t, "+" + n);
  }

  lemma BareLetter(t: Table)
    ensures Parse(t, "b") == Reject(EINVAL)
  {
    assert Lower("b") == "b";
  }

  lemma RejectedPanics(t: Table, s: Live, ops: seq<string>, i: nat)
    requires SplitArgs(s.rules) == Some(ops) && i < |ops| && Parse(t, ops[i]).Reject?
    ensures Panics(t, s)
  {
    hide SplitArgs, Parse, Rebuilt;
  }

  const SPACED := "+select|a b"

  lemma SpacedRules(t: Table)
    requires Usual(t)
    ensures var s := Exec(t, Fresh(false), SPACED);
      s.rules == SPACED && s.retained == [Rule(true, "select|a b", FirstArg(t.commands["select"].id, "a b"))]
  {
    hide Parse;
    assert Lower("a b") == "a b";
    SelectArg(t, "a b");
    assert "+select|" + "a b" == SPACED && "select|" + "a b" == "select|a b";
    NoPieces();
    assert "+" + "select|a b" == SPACED;
  }

  /** A first argument with a space is accepted. Described, it splits in two, and the second half is refused. */
  lemma SpacedFails(t: Table)
    requires Usual(t)
    ensures var s := Run(t, Fresh(false), [SPACED]);
      s.rules == SPACED && SplitArgs(SPACED) == Some(["+select|a", "b"]) && Parse(t, "b").Reject? && Panics(t, s)
  {
    hide Parse, SplitArgs, Panics, Run, Exec, Pieces;
    RunOne(t, Fresh(false), SPACED);
    SpacedRules(t);
    assert Tokens(["+select|a", "b"]);
    SplitTwo("+select|a", "b");
    assert "+select|a" + [' '] + "b" == SPACED;
    BareLetter(t);
    RejectedPanics(t, Run(t, Fresh(false), [SPACED]), ["+select|a", "b"], 1);
  }

  /** Editing a string of two tokens. */
  lemma EditTwo(a: string, b: string, n: string)
    requires a != [] && b != [] && Tokens([a, b])
    ensures Covers(n, a[1..]) && !Covers(n, b[1..]) ==> Join(Kept(Pieces(a + [' '] + b), n)) == b
    ensures !Covers(n, a[1..]) && Covers(n, b[1..]) ==> Join(Kept(Pieces(a + [' '] + b), n)) == a
  {
    hide Pieces, Covers, Tokens, Kept;
    SplitTwo(a, b);
    KeptAppend([a], [b], n);
    assert [a] + [b] == [a, b];
    KeptOne(a, n);
    KeptOne(b, n);
    assert [] + [b] == [b] && [a] + [] == [a];
  }

  lemma OneCovered(r: Rule, n: string)
    ensures KeptRules([r], n) == if Covers(n, r.target) then [] else [r]
  {
    hide Covers;
    assert [r][..0] == [];
  }

  lemma SpacedEdit()
    ensures Join(Kept(Pieces(SPACED), "select")) == "b" && Tokens(["b", "+select"]) && Covers("select", "select|a b")
  {
    hide Pieces, Kept, Join;
    assert Tokens(["+select|a", "b"]);
    assert "+select|a"[1..] == "select|a" && "b"[1..] == [];
    EditTwo("+select|a", "b", "select");
    assert "+select|a" + [' '] + "b" == SPACED;
  }

  /** The edit that follows leaves half of it behind: every retained rule is clean, and the description still fails. */
  lemma EditedSpacedFails(t: Table)
    requires Usual(t)
    ensures var s := Run(t, Fresh(false), [SPACED, "+select"]);
      AllClean(s.retained) && s.rules == "b +select" && SplitArgs(s.rules) == Some(["b", "+select"]) && Panics(t, s)
  {
    hide Parse, SplitArgs, Panics, Run, Exec, Covers;
    var s := Run(t, Fresh(false), [SPACED, "+select"]);
    RunTwo(t, Fresh(false), SPACED, "+select");
    SpacedRules(t);
    SpacedThenSelect(t, Exec(t, Fresh(false), SPACED));
    SplitTwo("b", "+select");
    assert "b" + [' '] + "+select" == "b +select";
    BareLetter(t);
    RejectedPanics(t, s, ["b", "+select"], 0);
  }

  lemma SpacedThenSelect(t: Table, u: Live)
    requires Usual(t) && u.rules == SPACED && |u.retained| == 1 && u.retained[0].target == "select|a b"
    ensures Tokens(["b", "+select"])
    ensures var s := Exec(t, u, "+select"); AllClean(s.retained) && s.rules == "b +select"
  {
    hide Parse, Pieces, Kept, Join, Covers, KeptRules, ApplyRule, Tokens;
    PlainCommand(t, "select");
    assert "+" + "select" == "+select";
    SpacedEdit();
    assert u.retained == [u.retained[0]];
    OneCovered(u.retained[0], "select");
    assert "b" + [' '] + "+select" == "b +select";
  }

  const QUIET := "+select|a xget"

  lemma QuietEdit()
    ensures Join(Kept(Pieces(QUIET), "get")) == "+select|a" && Tokens(["+select|a", "+get"])
  {
    hide Pieces, Kept, Join;
    assert Tokens(["+select|a", "xget"]);
    assert "+select|a"[1..] == "select|a" && "xget"[1..] == "get";
    EditTwo("+select|a", "xget", "get");
    assert "+select|a" + [' '] + "xget" == QUIET;
  }

  /** SELECT with a first argument on a new selector. */
  lemma SelectOnly(t: Table, a: string)
    requires Usual(t) && a != [] && '|' !in a && Lower(a) == a
    ensures var s := Exec(t, Fresh(false), "+select|" + a);
      s.rules == "+select|" + a && s.view == View({}, map[t.commands["select"].id := {a}])
  {
    hide Parse;
    SelectArg(t, a);
    var id := t.commands["select"].id;
    var r := Rule(true, "select|" + a, FirstArg(id, a));
    NoPieces();
    assert Text(r) == "+select|" + a;
    assert ArgsOf(Start(false), id) + {a} == {a};
  }

  lemma ThenGet(t: Table, u: Live)
    requires Usual(t)
    ensures Exec(t, u, "+get").view
         == View(u.view.bits + t.Covered("get"), u.view.args - {t.commands["get"].id})
    ensures Parse(t, "+get").Apply?
    ensures u.rules == QUIET ==> Exec(t, u, "+get").rules == "+select|a +get"
  {
    hide Parse, Pieces, Kept, Join, KeptRules, Tokens;
    PlainCommand(t, "get");
    assert "+" + "get" == "+get";
    QuietEdit();
    assert "+select|a" + [' '] + "+get" == "+select|a +get";
  }

  /** SELECT with a first argument, and GET. */
  lemma SelectAndGet(t: Table, a: string)
    requires Usual(t) && a != [] && '|' !in a && Lower(a) == a
    ensures Run(t, Fresh(false), ["+select|" + a, "+get"]).view
         == View(t.Covered("get"), map[t.commands["select"].id := {a}])
    ensures Accepted(t, ["+select|" + a, "+get"])
  {
    hide Parse, Run, Exec;
    SelectArg(t, a);
    SelectOnly(t, a);
    var u := Exec(t, Fresh(false), "+select|" + a);
    RunTwo(t, Fresh(false), "+select|" + a, "+get");
    ThenGet(t, u);
    assert {} + t.Covered("get") == t.Covered("get");
    assert u.view.args - {t.commands["get"].id} == u.view.args;
  }

  lemma NotReserved(t: Table)
    requires Usual(t)
    ensures RESERVED_BIT !in t.Covered("get")
  {
    if RESERVED_BIT in t.Covered("get") { CommandOwned(t, "get", RESERVED_BIT); }
  }

  /** Nor does a panic always tell: here a first argument is lost without one. */
  lemma QuietLoss(t: Table)
    requires Usual(t)
    ensures var s := Run(t, Fresh(false), [QUIET, "+get"]);
      s.rules == "+select|a +get" && !Panics(t, s) && !Describes(t, s)
  {
    hide Parse, SplitArgs, Run, Exec, Panics, Describes, Accepted, Table.WellFormed;
    var s := Run(t, Fresh(false), [QUIET, "+get"]);
    QuietState(t);
    QuietSplit();
    assert Lower("a") == "a";
    SelectAndGet(t, "a");
    assert "+select|" + "a" == "+select|a";
    NotReserved(t);
    LostArg(t, s, ["+select|a", "+get"], t.commands["select"].id, "a xget", "a");
  }

  lemma QuietState(t: Table)
    requires Usual(t)
    ensures var s := Run(t, Fresh(false), [QUIET, "+get"]);
      s.rules == "+select|a +get" && s.view == View(t.Covered("get"), map[t.commands["select"].id := {"a xget"}])
  {
    hide Parse, Run, Exec, Usual;
    assert Lower("a xget") == "a xget";
    assert "+select|" + "a xget" == QUIET;
    SelectAndGet(t, "a xget");
    SelectOnly(t, "a xget");
    RunTwo(t, Fresh(false), QUIET, "+get");
    ThenGet(t, Exec(t, Fresh(false), QUIET));
  }

  lemma QuietSplit()
    ensures SplitArgs("+select|a +get") == Some(["+select|a", "+get"])
  {
    hide SplitArgs, Tokens, Pieces, Kept, Join;
    QuietEdit();
    SplitTwo("+select|a", "+get");
    assert "+select|a" + [' '] + "+get" == "+select|a +get";
  }

  /** Only the first arguments differ. */
  lemma LostArg(t: Table, s: Live, ops: seq<string>, id: nat, x: string, y: string)
    requires SplitArgs(s.rules) == Some(ops) && Accepted(t, ops) && !StartsAll(s.view) && x != y
    requires s.view.args == map[id := {x}]
    requires Run(t, Fresh(false), ops).view == View(s.view.bits, map[id := {y}])
    ensures !Panics(t, s) && !Describes(t, s)
  {
    hide SplitArgs, Run, Accepted;
    assert x in s.view.args[id] && x !in {y};
  }
}
