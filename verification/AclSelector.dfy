/**
 A selector through any run of operations (acl.c): its permissions, its rule string, and
 the rules that the string is meant to spell out, which always rebuild the permissions.
 */
module AclSelector {
  import opened AclText
  import opened AclRules

  /**
   `all` is the ALLCOMMANDS flag and `rules` the string `command_rules`. `retained` is not in the source: it lists the
   accepted rules that no later one covers.
   */
  datatype Live = Live(view: View, all: bool, retained: seq<Rule>, rules: string)

  function Texts(rs: seq<Rule>): (ts: seq<string>)
    ensures |ts| == |rs| && forall i :: 0 <= i < |rs| ==> ts[i] == Text(rs[i])
  {
    seq(|rs|, i requires 0 <= i < |rs| => Text(rs[i]))
  }

  /** A rule that clears at least one bit takes the ALLCOMMANDS flag away. */
  predicate Clears(r: Rule) { !r.allow && r.effect.Perm? && r.effect.ids != {} }

  /** What +@all and -@all leave behind. */
  function Fresh(all: bool): Live { Live(Start(all), all, [], []) }

  /** `ACLUpdateCommandRules`: the pieces that the rule covers leave the string, and its text is appended. */
  function Updated(rules: string, r: Rule): string {
    var kept := Join(Kept(Pieces(rules), r.target));
    kept + (if kept == [] then [] else [' ']) + Text(r)
  }

  function Record(s: Live, r: Rule): Live {
    Live(ApplyRule(r, s.view), s.all && !Clears(r), KeptRules(s.retained, r.target) + [r], Updated(s.rules, r))
  }

  /** One operation; rejected and unrelated ones change nothing here. */
  function Exec(t: Table, s: Live, op: string): Live {
    match Parse(t, op)
    case AllCommands => Fresh(true)
    case NoCommands => Fresh(false)
    case Apply(r) => Record(s, r)
    case Unrelated => s
    case Reject(_) => s
  }

  function Run(t: Table, s: Live, ops: seq<string>): Live {
    if ops == [] then s else Exec(t, Run(t, s, ops[..|ops| - 1]), ops[|ops| - 1])
  }

  // ----- the invariant

  /** No rule of the list covers an earlier one. */
  ghost predicate Irredundant(rs: seq<Rule>) {
    forall i, j :: 0 <= i < j < |rs| ==> !Covers(rs[j].target, rs[i].target)
  }

  function StartsAll(v: View): bool { RESERVED_BIT in v.bits }

  ghost predicate Inv(t: Table, s: Live) {
    && AllGood(t, s.retained) && Irredundant(s.retained)
    && CommandArgs(t, s.view)
    && s.view == Replay(Start(StartsAll(s.view)), s.retained)
    && (s.all ==> s.view.bits == AllBits() && NothingCleared(s.retained))
  }

  lemma {:induction false} KeptIrredundant(rs: seq<Rule>, n: string)
    requires Irredundant(rs)
    ensures Irredundant(KeptRules(rs, n))
    decreases |rs|
  {
    hide Covers;
    if rs != [] { KeptIrredundant(rs[..|rs| - 1], n); KeptSubset(rs[..|rs| - 1], n); }
  }

  lemma KeptSubset(rs: seq<Rule>, n: string)
    ensures forall i :: 0 <= i < |KeptRules(rs, n)| ==>
              (exists j :: 0 <= j < |rs| && rs[j] == KeptRules(rs, n)[i]) && !Covers(n, KeptRules(rs, n)[i].target)
  {
    var k := KeptRules(rs, n);
    forall i | 0 <= i < |k| ensures (exists j :: 0 <= j < |rs| && rs[j] == k[i]) && !Covers(n, k[i].target) {
      assert k[i] in k;
    }
  }

  /** Rules only touch bits that commands own. */
  lemma OwnedBits(t: Table, r: Rule)
    requires t.WellFormed() && Good(t, r) && r.effect.Perm?
    ensures forall i :: i in r.effect.ids ==> i < RESERVED_BIT
  {
    hide Good;
    if Category(r) { CategoryRule(t, r); CategoryOwned(t, r.target[1..]); }
    else if '|' in r.target { PipedRule(t, r); }
    else {
      PlainRule(t, r);
      forall i | i in r.effect.ids ensures i < RESERVED_BIT { CommandOwned(t, r.target, i); }
    }
  }

  lemma CategoryOwned(t: Table, c: string)
    requires t.WellFormed()
    ensures forall i :: i in t.CategoryIds(c) ==> i < RESERVED_BIT
  {
    forall i | i in t.CategoryIds(c) ensures i < RESERVED_BIT {
      var n :| n in t.commands && i in t.IdsIn(n, c);
      if i in t.SubsIn(n, c) {
        var s :| s in t.commands[n].subs && t.commands[n].subs[s].id == i;
        assert t.CommandFormed(n) && t.SubFormed(n, s);
      } else {
        CommandOwned(t, n, i);
      }
    }
  }

  lemma CommandOwned(t: Table, n: string, i: nat)
    requires t.WellFormed() && n in t.commands && i in t.Covered(n)
    ensures i < RESERVED_BIT
  {
    if i != t.commands[n].id {
      var s :| s in t.commands[n].subs && t.commands[n].subs[s].id == i;
    }
  }

  lemma ReservedKept(t: Table, r: Rule, v: View)
    requires t.WellFormed() && Good(t, r)
    ensures StartsAll(ApplyRule(r, v)) == StartsAll(v)
    ensures v.bits == AllBits() && !Clears(r) ==> ApplyRule(r, v).bits == AllBits()
  {
    hide Good;
    if r.effect.Perm? {
      OwnedBits(t, r);
      assert forall i :: i in r.effect.ids ==> InRange(i);
      if !Clears(r) && v.bits == AllBits() {
        if r.allow { assert v.bits + r.effect.ids == v.bits; } else { assert v.bits - {} == v.bits; }
      }
    }
  }

  lemma FreshInv(t: Table, all: bool)
    ensures Inv(t, Fresh(all))
  {
    assert InRange(RESERVED_BIT);
  }

  lemma RecordInv(t: Table, s: Live, r: Rule)
    requires t.WellFormed() && Inv(t, s) && Good(t, r)
    ensures Inv(t, Record(s, r))
  {
    hide Good, ApplyRule, CommandArgs, Covers, KeptRules, Replay;
    var v := Start(StartsAll(s.view));
    assert CommandArgs(t, v) by { NoArgs(t, v); }
    EditRebuilds(t, r, v, s.retained);
    CommandArgsKept(t, r, s.view);
    ReservedKept(t, r, s.view);
    KeptIrredundant(s.retained, r.target);
    KeptSubset(s.retained, r.target);
  }

  lemma NoArgs(t: Table, v: View)
    requires v.args == map[]
    ensures CommandArgs(t, v)
  {}

  /** Every operation keeps the invariant, accepted or not. */
  lemma ExecInv(t: Table, s: Live, op: string)
    requires t.WellFormed() && Inv(t, s)
    ensures Inv(t, Exec(t, s, op))
  {
    hide Inv, Parse, Record;
    match Parse(t, op)
    case AllCommands => FreshInv(t, true);
    case NoCommands => FreshInv(t, false);
    case Apply(r) =>
      RetainedParses(t, op);
      RecordInv(t, s, r);
    case Unrelated =>
    case Reject(_) =>
  }

  lemma {:induction false} RunInv(t: Table, s: Live, ops: seq<string>)
    requires t.WellFormed() && Inv(t, s)
    ensures Inv(t, Run(t, s, ops))
    decreases |ops|
  {
    hide Inv, Exec;
    if ops != [] {
      RunInv(t, s, ops[..|ops| - 1]);
      ExecInv(t, Run(t, s, ops[..|ops| - 1]), ops[|ops| - 1]);
    }
  }

  // ----- replaying the retained rules

  lemma {:induction false} KeepsAll(rs: seq<Rule>, n: string)
    requires forall i :: 0 <= i < |rs| ==> !Covers(n, rs[i].target)
    ensures KeptRules(rs, n) == rs
    decreases |rs|
  {
    hide Covers, KeptRules;
    if rs == [] {
      KeptNothing(n);
    } else {
      KeepsAll(rs[..|rs| - 1], n);
      KeptLast(rs, n);
      assert rs == rs[..|rs| - 1] + [rs[|rs| - 1]];
    }
  }

  lemma KeptNothing(n: string)
    ensures KeptRules([], n) == []
  {}

  lemma KeptLast(rs: seq<Rule>, n: string)
    requires rs != [] && !Covers(n, rs[|rs| - 1].target)
    ensures KeptRules(rs, n) == KeptRules(rs[..|rs| - 1], n) + [rs[|rs| - 1]]
  {
    hide Covers;
  }

  lemma ExecText(t: Table, s: Live, r: Rule)
    requires Good(t, r)
    ensures Exec(t, s, Text(r)) == Record(s, r)
  {
    hide Parse, Record;
  }

  lemma RunLast(t: Table, s: Live, rs: seq<Rule>)
    requires rs != []
    ensures Run(t, s, Texts(rs)) == Exec(t, Run(t, s, Texts(rs[..|rs| - 1])), Text(rs[|rs| - 1]))
  {
    hide Exec, Text;
    assert Texts(rs)[..|rs| - 1] == Texts(rs[..|rs| - 1]);
  }

  ghost predicate NothingCleared(rs: seq<Rule>) { forall i :: 0 <= i < |rs| ==> !Clears(rs[i]) }

  /** Running the retained texts on a fresh selector replays the rules and retains the same list. */
  lemma {:induction false} RunOfTexts(t: Table, all: bool, rs: seq<Rule>)
    requires AllGood(t, rs) && Irredundant(rs)
    ensures var s := Run(t, Fresh(all), Texts(rs));
      s.view == Replay(Start(all), rs) && s.all == (all && NothingCleared(rs)) && s.retained == rs
    decreases |rs|
  {
    hide ApplyRule, Covers, KeptRules, Clears, Texts, Text, Exec, Good, Start, Updated;
    if rs == [] {
      assert Texts(rs) == [];
    } else {
      var init, last := rs[..|rs| - 1], rs[|rs| - 1];
      RunOfTexts(t, all, init);
      RunLast(t, Fresh(all), rs);
      ExecText(t, Run(t, Fresh(all), Texts(init)), last);
      KeepsAll(init, last.target);
      assert init + [last] == rs;
    }
  }

  /** In every run, whatever the operations, replaying the retained rules rebuilds the live permissions. */
  lemma RetainedRebuild(t: Table, ops: seq<string>)
    requires t.WellFormed()
    ensures var s := Run(t, Fresh(false), ops);
      var rebuilt := Run(t, Fresh(StartsAll(s.view)), Texts(s.retained));
      rebuilt.view == s.view && rebuilt.retained == s.retained
  {
    hide Run, Texts, Replay, CommandArgs, NothingCleared;
    FreshInv(t, false);
    RunInv(t, Fresh(false), ops);
    var s := Run(t, Fresh(false), ops);
    RunOfTexts(t, StartsAll(s.view), s.retained);
  }

  // ----- the permission check

  /** The command part of `ACLSelectorCheckCmd`: a flag, a bit or a listed first argument. */
  predicate MayRun(s: Live, id: nat, firstArg: Option<string>) {
    s.all || id in s.view.bits || (firstArg.Some? && Lower(firstArg.value) in ArgsOf(s.view, id))
  }

  /**
   A rebuilt selector may carry ALLCOMMANDS where the live one lost it (+@all, -get,
   +get), yet it decides every command the same way.
   */
  lemma RebuiltDecidesTheSame(t: Table, s: Live, id: nat, firstArg: Option<string>)
    requires t.WellFormed() && Inv(t, s) && id < COMMAND_BITS
    ensures MayRun(Run(t, Fresh(StartsAll(s.view)), Texts(s.retained)), id, firstArg) <==> MayRun(s, id, firstArg)
  {
    hide Parse, Replay, CommandArgs, Run;
    RunOfTexts(t, StartsAll(s.view), s.retained);
    var rebuilt := Run(t, Fresh(StartsAll(s.view)), Texts(s.retained));
    if rebuilt.all {
      FullBits(t, s.retained);
      assert InRange(id);
    }
  }

  /**
   The flag comes back as it was exactly when it was set, or the selector started without
   all commands, or a retained rule still clears a bit.
   */
  lemma FlagRebuiltIff(t: Table, s: Live)
    requires Inv(t, s)
    ensures Run(t, Fresh(StartsAll(s.view)), Texts(s.retained)).all == s.all
            <==> s.all || !StartsAll(s.view) || !NothingCleared(s.retained)
  {
    hide Parse, Replay, CommandArgs, Run, Clears;
    RunOfTexts(t, StartsAll(s.view), s.retained);
    assert s.all ==> StartsAll(s.view) by { assert InRange(RESERVED_BIT); }
  }

  lemma ReservedAtStart()
    ensures StartsAll(Start(true))
  {
    assert InRange(RESERVED_BIT);
  }

  /** Taking a command away and giving it back loses the flag, which the rules left behind set again. */
  lemma FlagLost(t: Table, minus: Rule, plus: Rule)
    requires t.WellFormed() && Good(t, minus) && Good(t, plus) && minus.target == plus.target
    requires Clears(minus) && plus.allow
    ensures var s := Run(t, Fresh(true), Texts([minus, plus]));
            !s.all && Run(t, Fresh(StartsAll(s.view)), Texts(s.retained)).all
  {
    hide Parse, Replay, CommandArgs, Inv, Good, ApplyRule, Start, Text, Exec, Texts, StartsAll;
    assert Texts([minus, plus])[..1] == Texts([minus]) && Texts([minus])[..0] == [];
    RunLast(t, Fresh(true), [minus]);
    RunLast(t, Fresh(true), [minus, plus]);
    ExecText(t, Fresh(true), minus);
    ExecText(t, Record(Fresh(true), minus), plus);
    ReservedKept(t, minus, Start(true));
    ReservedKept(t, plus, ApplyRule(minus, Start(true)));
    ReservedAtStart();
    assert KeptRules([minus], plus.target) == [] && KeptRules([], minus.target) == [];
    RunOfTexts(t, true, [plus]);
  }

  lemma {:induction false} FullBits(t: Table, rs: seq<Rule>)
    requires t.WellFormed() && AllGood(t, rs) && NothingCleared(rs)
    ensures Replay(Start(true), rs).bits == AllBits()
    decreases |rs|
  {
    hide Good, ApplyRule, Clears;
    if rs != [] {
      FullBits(t, rs[..|rs| - 1]);
      ReservedKept(t, rs[|rs| - 1], Replay(Start(true), rs[..|rs| - 1]));
    }
  }
}
