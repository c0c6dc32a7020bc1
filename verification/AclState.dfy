/**
 The selector as acl.c edits it: a bitmap, a flag, lists of first arguments and one
 rule string, all updated in place. `State` is what the selector stands for, and
 every operation is the pure `Exec` on it.
 */
module AclState {
  import opened AclText
  import opened AclRules
  import opened AclSelector
  import opened AclDescribe

  class Selector {
    var allowed: seq<bool>
    var allCommands: bool
    var firstArgs: map<nat, seq<string>>
    var commandRules: string
    ghost var retained: seq<Rule>

    ghost predicate Valid()
      reads this
    {
      |allowed| == COMMAND_BITS
    }

    ghost function Bits(): set<nat>
      requires |allowed| == COMMAND_BITS
      reads this
    {
      set i: nat | i < COMMAND_BITS && InRange(i) && allowed[i]
    }

    ghost function Args(): map<nat, set<string>>
      reads this
    {
      map id | id in firstArgs :: Folded(firstArgs[id])
    }

    ghost function State(): Live
      requires Valid()
      reads this
    {
      Live(View(Bits(), Args()), allCommands, retained, commandRules)
    }

    /** `ACLCreateSelector`: no permissions at all. */
    constructor ()
      ensures Valid() && State() == Fresh(false)
    {
      allowed := seq(COMMAND_BITS, i => false);
      allCommands := false;
      firstArgs := map[];
      commandRules := [];
      retained := [];
    }

    /** `ACLSetSelectorCommandBit`. */
    method SetBit(id: nat, value: bool)
      requires |allowed| == COMMAND_BITS
      modifies this`allowed, this`allCommands
      ensures |allowed| == COMMAND_BITS
      ensures id < COMMAND_BITS ==> Bits() == if value then old(Bits()) + {id} else old(Bits()) - {id}
      ensures id < COMMAND_BITS ==> allCommands == (old(allCommands) && value)
      ensures id >= COMMAND_BITS ==> allowed == old(allowed) && allCommands == old(allCommands)
    {
      if id >= COMMAND_BITS { return; }
      allowed := allowed[id := value];
      if !value { allCommands := false; }
      assert InRange(id);
    }

    /** `ACLChangeSelectorPerm` on a command: its bit, its first arguments, then the bits of its subcommands. */
    method ChangePerm(t: Table, n: string, allow: bool)
      requires |allowed| == COMMAND_BITS && t.WellFormed() && n in t.commands
      modifies this`allowed, this`allCommands, this`firstArgs
      ensures |allowed| == COMMAND_BITS
      ensures Bits() == if allow then old(Bits()) + t.Covered(n) else old(Bits()) - t.Covered(n)
      ensures allCommands == (old(allCommands) && allow)
      ensures firstArgs == old(firstArgs) - {t.commands[n].id}
    {
      hide Table.WellFormed;
      var cmd := t.commands[n];
      FormedIds(t, n);
      SetBit(cmd.id, allow);
      firstArgs := firstArgs - {cmd.id};
      var todo := cmd.subs.Keys;
      ghost var done: set<nat> := {cmd.id};
      while todo != {}
        invariant todo <= cmd.subs.Keys
        invariant |allowed| == COMMAND_BITS
        invariant done == {cmd.id} + set s | s in cmd.subs.Keys - todo :: cmd.subs[s].id
        invariant Bits() == if allow then old(Bits()) + done else old(Bits()) - done
        invariant allCommands == (old(allCommands) && allow)
        invariant firstArgs == old(firstArgs) - {cmd.id}
      {
        var s :| s in todo;
        SetBit(cmd.subs[s].id, allow);
        assert cmd.subs.Keys - (todo - {s}) == (cmd.subs.Keys - todo) + {s};
        todo := todo - {s};
        done := done + {cmd.subs[s].id};
      }
      assert cmd.subs.Keys - todo == cmd.subs.Keys;
      assert done == t.Covered(n);
    }

    /** The subcommands of one command that carry the category. */
    method CategorySubs(t: Table, n: string, c: string, allow: bool)
      requires |allowed| == COMMAND_BITS && t.WellFormed() && n in t.commands
      modifies this`allowed, this`allCommands, this`firstArgs
      ensures |allowed| == COMMAND_BITS
      ensures Bits() == if allow then old(Bits()) + t.SubsIn(n, c) else old(Bits()) - t.SubsIn(n, c)
      ensures allCommands == (old(allCommands) && (allow || t.SubsIn(n, c) == {}))
      ensures firstArgs == old(firstArgs) - t.SubsIn(n, c)
    {
      hide Table.WellFormed;
      var cmd := t.commands[n];
      FormedIds(t, n);
      var todo := set s | s in cmd.subs && c in cmd.subs[s].categories;
      ghost var all, done: set<nat> := todo, {};
      while todo != {}
        invariant todo <= all
        invariant |allowed| == COMMAND_BITS
        invariant done == set s | s in all - todo :: cmd.subs[s].id
        invariant Bits() == if allow then old(Bits()) + done else old(Bits()) - done
        invariant allCommands == (old(allCommands) && (allow || done == {}))
        invariant firstArgs == old(firstArgs) - done
      {
        var s :| s in todo;
        SetBit(cmd.subs[s].id, allow);
        firstArgs := firstArgs - {cmd.subs[s].id};
        assert all - (todo - {s}) == (all - todo) + {s};
        todo := todo - {s};
        done := done + {cmd.subs[s].id};
      }
      assert all - todo == all;
      assert done == t.SubsIn(n, c);
    }

    /** `ACLSetSelectorCommandBitsForCategory`: commands in any order, each followed by its subcommands. */
    method SetCategoryBits(t: Table, c: string, allow: bool)
      requires |allowed| == COMMAND_BITS && t.WellFormed()
      modifies this`allowed, this`allCommands, this`firstArgs
      ensures |allowed| == COMMAND_BITS
      ensures Bits() == if allow then old(Bits()) + t.CategoryIds(c) else old(Bits()) - t.CategoryIds(c)
      ensures allCommands == (old(allCommands) && (allow || t.CategoryIds(c) == {}))
      ensures firstArgs == old(firstArgs) - t.CategoryResets(c)
    {
      hide Table.WellFormed, Table.IdsOver, Table.ResetsOver;
      var todo := t.commands.Keys;
      ghost var seen: set<string> := {};
      CategoryNone(t, c);
      while todo != {}
        invariant todo <= t.commands.Keys && seen == t.commands.Keys - todo
        invariant |allowed| == COMMAND_BITS
        invariant Bits() == if allow then old(Bits()) + t.IdsOver(seen, c) else old(Bits()) - t.IdsOver(seen, c)
        invariant allCommands == (old(allCommands) && (allow || t.IdsOver(seen, c) == {}))
        invariant firstArgs == old(firstArgs) - t.ResetsOver(seen, c)
      {
        var n :| n in todo;
        if c in t.commands[n].categories { ChangePerm(t, n, allow); }
        CategorySubs(t, n, c, allow);
        CategoryStep(t, seen, n, c);
        assert t.commands.Keys - (todo - {n}) == seen + {n};
        todo := todo - {n};
        seen := seen + {n};
      }
      assert seen == t.commands.Keys;
    }

    /** `ACLAddAllowedFirstArg`: append unless it is there already in some case. */
    method AddFirstArg(id: nat, sub: string)
      modifies this`firstArgs
      ensures Args() == old(Args())[id := (if id in old(Args()) then old(Args())[id] else {}) + {Lower(sub)}]
    {
      var items := if id in firstArgs then firstArgs[id] else [];
      var i := 0;
      while i < |items|
        invariant 0 <= i <= |items| && firstArgs == old(firstArgs)
        invariant forall k :: 0 <= k < i ==> Lower(items[k]) != Lower(sub)
      {
        if Lower(items[i]) == Lower(sub) {
          assert Lower(sub) in Folded(items);
          assert id in firstArgs && Args()[id] == Folded(items);
          assert Args()[id] + {Lower(sub)} == Args()[id];
          return;
        }
        i := i + 1;
      }
      FoldedAppend(items, sub);
      assert id !in firstArgs ==> Folded(items) == {};
      firstArgs := firstArgs[id := items + [sub]];
      assert Args() == old(Args())[id := Folded(items) + {Lower(sub)}];
    }

    /** `ACLUpdateCommandRules`: drop what the new rule covers, then append it. */
    method UpdateCommandRules(rule: string, allow: bool, ghost r: Rule)
      requires r.allow == allow && r.target == Lower(rule)
      modifies this`commandRules, this`retained
      ensures commandRules == Updated(old(commandRules), r) && retained == KeptRules(old(retained), r.target) + [r]
    {
      hide Join, KeptRules, Kept, Lower, Pieces;
      var newRule := Lower(rule);
      commandRules := RemoveRule(commandRules, newRule);
      if commandRules != [] { commandRules := commandRules + [' ']; }
      commandRules := commandRules + ([if allow then '+' else '-'] + newRule);
      retained := KeptRules(retained, newRule) + [r];
    }

    /** A permission change, then its rule, is `Record`. */
    method ApplyPerm(t: Table, f: Found, name: string, allow: bool, ghost r: Rule)
      requires Valid() && t.WellFormed()
      requires !f.NotFound? && f.name in t.commands && (f.SubOf? ==> f.sub in t.commands[f.name].subs)
      requires r == Rule(allow, Lower(name), PermOf(t, f))
      modifies this
      ensures Valid() && State() == Record(old(State()), r)
    {
      hide Table.WellFormed, KeptRules, Updated, Lower;
      match f {
        case Top(n) => ChangePerm(t, n, allow);
        case SubOf(n, sub) =>
          FormedIds(t, n);
          SetBit(t.commands[n].subs[sub].id, allow);
          firstArgs := firstArgs - {t.commands[n].subs[sub].id};
        case NotFound =>
      }
      assert Args() == old(Args()) - r.effect.resets;
      UpdateCommandRules(name, allow, r);
    }

    method AllowOp(t: Table, name: string) returns (ok: bool)
      requires Valid() && t.WellFormed()
      modifies this
      ensures Valid() && (ok <==> !ParseAllow(t, name).Reject?)
      ensures State() == if ok then Record(old(State()), ParseAllow(t, name).rule) else old(State())
    {
      hide Table.WellFormed, Record, Lower, PermOf, Lookup, LastPipe, Updated;
      var i := LastPipe(name);
      if i == -1 {
        var cmd := Lookup(t, name);
        if cmd.NotFound? { return false; }
        ApplyPerm(t, cmd, name, true, ParseAllow(t, name).rule);
        return true;
      }
      var cmd := Lookup(t, name[..i]);
      var sub := name[i + 1..];
      if cmd.NotFound? { return false; }
      if cmd.SubOf? { return false; }
      if sub == [] { return false; }
      if t.commands[cmd.name].subs != map[] {
        var full := Lookup(t, name);
        if full.NotFound? { return false; }
        ApplyPerm(t, full, name, true, ParseAllow(t, name).rule);
      } else {
        ApplyFirstArg(t.commands[cmd.name].id, sub, name, ParseAllow(t, name).rule);
      }
      return true;
    }

    method ApplyFirstArg(id: nat, sub: string, name: string, ghost r: Rule)
      requires Valid() && r == Rule(true, Lower(name), FirstArg(id, Lower(sub)))
      modifies this
      ensures Valid() && State() == Record(old(State()), r)
    {
      hide KeptRules, Updated, Lower;
      AddFirstArg(id, sub);
      UpdateCommandRules(name, true, r);
    }

    method DenyOp(t: Table, name: string) returns (ok: bool)
      requires Valid() && t.WellFormed()
      modifies this
      ensures Valid() && (ok <==> !ParseDeny(t, name).Reject?)
      ensures State() == if ok then Record(old(State()), ParseDeny(t, name).rule) else old(State())
    {
      hide Table.WellFormed, Record, Lower, PermOf, Lookup, Updated;
      var cmd := Lookup(t, name);
      if cmd.NotFound? { return false; }
      ApplyPerm(t, cmd, name, false, ParseDeny(t, name).rule);
      return true;
    }

    /** `ACLSetSelectorCategory`: the rule is recorded before the bits change. */
    method CategoryOp(t: Table, category: string, allow: bool) returns (ok: bool)
      requires Valid() && t.WellFormed() && category != []
      modifies this
      ensures Valid() && (ok <==> !ParseCategory(t, category, allow).Reject?)
      ensures State() == if ok then Record(old(State()), ParseCategory(t, category, allow).rule) else old(State())
    {
      hide Table.WellFormed, Lower, Updated, KeptRules;
      var c := Lower(category)[1..];
      if c !in t.categories { return false; }
      ghost var r := ParseCategory(t, category, allow).rule;
      UpdateCommandRules(category, allow, r);
      SetCategoryBits(t, c, allow);
      assert Args() == old(Args()) - r.effect.resets;
      return true;
    }

    /** `ACLSetSelector`. Operations on keys and channels are accepted here without effect. */
    method SetSelector(t: Table, op: string) returns (ok: bool)
      requires Valid() && t.WellFormed()
      modifies this
      ensures Valid() && (ok <==> !Parse(t, op).Reject?)
      ensures State() == Exec(t, old(State()), op)
    {
      hide Table.WellFormed, Record, Lower, ParseAllow, ParseDeny, ParseCategory, Updated;
      var low := Lower(op);
      if low in {"allkeys", "~*", "resetkeys", "allchannels", "&*", "resetchannels"} {
        return true;
      } else if low == "allcommands" || low == "+@all" {
        Reset(true);
        return true;
      } else if low == "nocommands" || low == "-@all" {
        Reset(false);
        return true;
      } else if op == [] {
        return false;
      } else if op[0] in {'~', '%', '&'} {
        return true;
      } else if op[0] == '+' && !(|op| > 1 && op[1] == '@') {
        ok := AllowOp(t, op[1..]);
      } else if op[0] == '-' && !(|op| > 1 && op[1] == '@') {
        ok := DenyOp(t, op[1..]);
      } else if op[0] == '+' || op[0] == '-' {
        ok := CategoryOp(t, op[1..], op[0] == '+');
      } else {
        return false;
      }
      ActionKinds(t, op[1..]);
    }

    /** +@all and -@all: every bit, the flag, an empty rule string and no first arguments. */
    method Reset(all: bool)
      modifies this
      ensures Valid() && State() == Fresh(all)
    {
      allowed := seq(COMMAND_BITS, i => all);
      allCommands := all;
      commandRules := [];
      retained := [];
      firstArgs := map[];
    }
  }

  /**
   `ACLDescribeSelectorCommandRules`: rebuild a second selector from the description
   and compare. `panic` stands for a failed assertion or the bitmap mismatch panic.
   */
  method Describe(t: Table, s: Selector) returns (rules: string, panic: bool)
    requires s.Valid() && t.WellFormed()
    ensures panic <==> Panics(t, s.State())
    ensures rules == (if s.allowed[RESERVED_BIT] then "+@all" else "-@all")
                     + (if s.commandRules == [] then [] else [' '] + s.commandRules)
  {
    hide Run, Exec, Table.WellFormed, SplitArgs, Parse, Lower;
    var all := s.allowed[RESERVED_BIT];
    StartsAllBit(s);
    var fake := new Selector();
    var base := if all then "+@all" else "-@all";
    AllOps(t);
    var ok := fake.SetSelector(t, base);
    assert fake.State() == Fresh(all) by { ExecAll(t, all); }
    panic := !ok;
    var argv := SplitArgs(s.commandRules);
    RunNone(t, Fresh(all));
    if argv.None? {
      panic := true;
    } else {
      for i := 0 to |argv.value|
        invariant panic <==> !Accepted(t, argv.value[..i])
        invariant fake.Valid() && fresh(fake)
        invariant fake.State() == Run(t, Fresh(all), argv.value[..i])
      {
        RunNext(t, Fresh(all), argv.value, i);
        AcceptedNext(t, argv.value, i);
        ok := fake.SetSelector(t, argv.value[i]);
        panic := panic || !ok;
      }
      assert argv.value[..|argv.value|] == argv.value;
      SameBitmap(fake, s);
      if fake.allowed != s.allowed { panic := true; }
    }
    rules := base + (if s.commandRules == [] then [] else [' '] + s.commandRules);
  }

  lemma AcceptedNext(t: Table, ops: seq<string>, i: nat)
    requires i < |ops|
    ensures Accepted(t, ops[..i + 1]) <==> Accepted(t, ops[..i]) && !Parse(t, ops[i]).Reject?
  {
    hide Parse;
    assert forall k :: 0 <= k < i ==> ops[..i + 1][k] == ops[..i][k];
    assert ops[..i + 1][i] == ops[i];
  }

  lemma StartsAllBit(s: Selector)
    requires s.Valid()
    ensures StartsAll(s.State().view) == s.allowed[RESERVED_BIT]
  {
    assert InRange(RESERVED_BIT);
  }

  lemma AllOps(t: Table)
    ensures Parse(t, "+@all") == AllCommands && Parse(t, "-@all") == NoCommands
  {
    assert Lower("+@all") == "+@all" && Lower("-@all") == "-@all";
  }

  lemma ExecAll(t: Table, all: bool)
    ensures Exec(t, Fresh(false), if all then "+@all" else "-@all") == Fresh(all)
  {
    hide Parse;
    AllOps(t);
  }

  lemma RunNone(t: Table, s: Live)
    ensures Run(t, s, []) == s
  {}

  lemma RunNext(t: Table, s: Live, ops: seq<string>, i: nat)
    requires i < |ops|
    ensures Run(t, s, ops[..i + 1]) == Exec(t, Run(t, s, ops[..i]), ops[i])
  {
    assert ops[..i + 1][..i] == ops[..i];
  }

  lemma SameBitmap(a: Selector, b: Selector)
    requires a.Valid() && b.Valid()
    ensures a.State().view.bits == b.State().view.bits <==> a.allowed == b.allowed
  {
    if a.Bits() == b.Bits() {
      forall i: nat | i < COMMAND_BITS ensures a.allowed[i] == b.allowed[i] {
        assert InRange(i);
        assert i in a.Bits() <==> a.allowed[i];
        assert i in b.Bits() <==> b.allowed[i];
      }
    }
  }

  lemma ActionKinds(t: Table, name: string)
    ensures ParseAllow(t, name).Apply? || ParseAllow(t, name).Reject?
    ensures ParseDeny(t, name).Apply? || ParseDeny(t, name).Reject?
    ensures forall b, c :: c != [] ==> ParseCategory(t, c, b).Apply? || ParseCategory(t, c, b).Reject?
  {
    hide Lookup, LastPipe, Lower, PermOf;
  }

  lemma FoldedAppend(items: seq<string>, sub: string)
    ensures Folded(items + [sub]) == Folded(items) + {Lower(sub)}
  {
    var xs := items + [sub];
    forall x | x in Folded(items) ensures x in Folded(xs) {
      var i :| 0 <= i < |items| && Lower(items[i]) == x;
      assert xs[i] == items[i];
    }
    assert xs[|items|] == sub;
  }

  lemma CategoryNone(t: Table, c: string)
    ensures t.IdsOver({}, c) == {} && t.ResetsOver({}, c) == {}
  {}

  lemma CategoryStep(t: Table, seen: set<string>, n: string, c: string)
    requires seen <= t.commands.Keys && n in t.commands
    ensures t.IdsOver(seen + {n}, c) == t.IdsOver(seen, c) + t.IdsIn(n, c)
    ensures t.ResetsOver(seen + {n}, c) == t.ResetsOver(seen, c) + t.ResetsIn(n, c)
  {
    hide Table.IdsIn, Table.ResetsIn;
    assert forall i :: i in t.IdsIn(n, c) ==> n in seen + {n};
    forall i | i in t.IdsIn(n, c) ensures i in t.IdsOver(seen + {n}, c) {}
    forall i | i in t.ResetsIn(n, c) ensures i in t.ResetsOver(seen + {n}, c) {}
  }

  function Folded(xs: seq<string>): set<string> { set i | 0 <= i < |xs| :: Lower(xs[i]) }

  lemma FormedIds(t: Table, n: string)
    requires t.WellFormed() && n in t.commands
    ensures t.commands[n].id < COMMAND_BITS
    ensures forall s :: s in t.commands[n].subs ==> t.commands[n].subs[s].id < COMMAND_BITS
  {
    assert t.CommandFormed(n);
    forall s | s in t.commands[n].subs ensures t.commands[n].subs[s].id < COMMAND_BITS { assert t.SubFormed(n, s); }
  }
}
