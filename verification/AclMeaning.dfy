/**
 What the operations of an ACL selector mean (acl.c): which commands, with which first
 arguments, a selector allows after an operation, said of names and categories only.
 */
module AclMeaning {
  import opened AclText
  import opened AclRules
  import opened AclSelector
  import opened AclDescribe

  /** Some command of this id carries the category, or some subcommand of this id, itself or through its command. */
  ghost predicate InCategory(t: Table, id: nat, c: string) {
    exists n :: n in t.commands && CarriedBy(t, n, id, c)
  }

  ghost predicate CarriedBy(t: Table, n: string, id: nat, c: string)
    requires n in t.commands
  {
    || (t.commands[n].id == id && c in t.commands[n].categories)
    || (exists s :: s in t.commands[n].subs && t.commands[n].subs[s].id == id
          && (c in t.commands[n].subs[s].categories || c in t.commands[n].categories))
  }

  /** The command of this name and its subcommands. */
  ghost predicate OfCommand(t: Table, n: string, id: nat)
    requires n in t.commands
  {
    t.commands[n].id == id || exists s :: s in t.commands[n].subs && t.commands[n].subs[s].id == id
  }

  function Signed(allow: bool, name: string): string { [if allow then '+' else '-'] + name }

  // ----- categories

  lemma CategoryIdsAre(t: Table, c: string, id: nat)
    ensures id in t.CategoryIds(c) <==> InCategory(t, id, c)
  {
    if id in t.CategoryIds(c) {
      var n :| n in t.commands && id in t.IdsIn(n, c);
      assert CarriedBy(t, n, id, c);
    }
    if InCategory(t, id, c) {
      var n :| n in t.commands && CarriedBy(t, n, id, c);
      assert id in t.IdsIn(n, c);
    }
  }

  /** First arguments are dropped only where bits change. */
  lemma ResetsAreIds(t: Table, c: string)
    ensures t.CategoryResets(c) <= t.CategoryIds(c)
  {
    forall id | id in t.CategoryResets(c) ensures id in t.CategoryIds(c) {
      var n :| n in t.commands && id in t.ResetsIn(n, c);
      assert id in t.IdsIn(n, c);
    }
  }

  /** What keeps its first arguments after a category has changed is a subcommand, and those have none. */
  lemma ResetOrSub(t: Table, s: Live, c: string, id: nat)
    requires CommandArgs(t, s.view) && InCategory(t, id, c)
    ensures ArgsOf(View(s.view.bits, s.view.args - t.CategoryResets(c)), id) == {}
  {
    var n :| n in t.commands && CarriedBy(t, n, id, c);
    if t.commands[n].id == id && c in t.commands[n].categories {
      assert id in t.ResetsIn(n, c);
      assert id in t.CategoryResets(c);
    } else {
      var sub :| sub in t.commands[n].subs && t.commands[n].subs[sub].id == id;
    }
  }

  lemma CategoryParses(t: Table, c: string, allow: bool)
    requires t.WellFormed() && c in t.categories
    ensures Parse(t, Signed(allow, "@" + c))
         == Apply(Rule(allow, "@" + c, Perm(t.CategoryIds(c), t.CategoryResets(c))))
  {
    hide Parse, Table.CategoryIds, Table.CategoryResets, Lower, Signed;
    CategorySigned(t, c, allow);
  }

  lemma CategorySigned(t: Table, c: string, allow: bool)
    requires Lower(c) == c && c != "all"
    ensures Parse(t, Signed(allow, "@" + c)) == ParseCategory(t, "@" + c, allow)
    ensures Lower("@" + c) == "@" + c && ("@" + c)[1..] == c
  {
    hide Parse, ParseAllow, ParseDeny, ParseCategory, Reserved;
    var op, name := Signed(allow, "@" + c), "@" + c;
    assert op[1..] == name && op[0] == (if allow then '+' else '-') && op[1] == '@';
    LowerCategory(c, op);
    NotReserved(c, op);
    ParseSigned(t, op);
  }

  lemma LowerCategory(c: string, op: string)
    requires Lower(c) == c && |op| > 0 && Sign(op[0]) && op[1..] == "@" + c
    ensures Lower("@" + c) == "@" + c && ("@" + c)[1..] == c && Lower(op) == op
  {
    assert forall i :: 1 < i < |op| ==> op[i] == op[1..][i - 1] == c[i - 2];
    assert forall i :: 0 <= i < |c| ==> LowerChar(c[i]) == c[i];
  }

  lemma NotReserved(c: string, op: string)
    requires c != "all" && op != [] && Sign(op[0]) && op[1..] == "@" + c
    ensures !Reserved(op)
  {
    assert |op| == 2 + |c| && op[1] == op[1..][0] == '@' && op[1..][1..] == c;
    assert "+@all"[1..][1..] == "all" && "-@all"[1..][1..] == "all";
  }

  /** A category operation changes the bits of its commands and subcommands, and no others. */
  lemma CategoryBits(t: Table, s: Live, c: string, allow: bool, id: nat)
    requires t.WellFormed() && c in t.categories
    ensures id in Exec(t, s, Signed(allow, "@" + c)).view.bits
       <==> if InCategory(t, id, c) then allow else id in s.view.bits
  {
    hide Parse, InCategory, Table.CategoryIds, Table.CategoryResets, Updated, KeptRules, Table.WellFormed;
    CategoryParses(t, c, allow);
    CategoryIdsAre(t, c, id);
  }

  /** Exactly the commands and subcommands of the category are allowed, or denied; all others are as before. */
  lemma CategoryDecides(t: Table, s: Live, c: string, allow: bool, id: nat, firstArg: Option<string>)
    requires t.WellFormed() && Inv(t, s) && c in t.categories && id < COMMAND_BITS
    ensures MayRun(Exec(t, s, Signed(allow, "@" + c)), id, firstArg)
       <==> if InCategory(t, id, c) then allow else MayRun(s, id, firstArg)
  {
    hide Parse, InCategory, Table.CategoryIds, Table.CategoryResets, Updated, KeptRules, Table.WellFormed, Replay,
      CommandArgs;
    CategoryParses(t, c, allow);
    CategoryIdsAre(t, c, id);
    ResetsAreIds(t, c);
    assert InRange(id);
    if InCategory(t, id, c) { ResetOrSub(t, s, c, id); }
  }

  lemma UnknownCategory(t: Table, s: Live, c: string, allow: bool)
    requires c !in t.categories && Lower(c) == c && c != "all"
    ensures Parse(t, Signed(allow, "@" + c)) == Reject(ENOENT) && Exec(t, s, Signed(allow, "@" + c)) == s
  {
    hide Parse, Lower, Signed;
    CategorySigned(t, c, allow);
  }

  // ----- commands and subcommands

  lemma SignedParses(t: Table, name: string, allow: bool)
    requires name != [] && name[0] != '@'
    ensures Parse(t, Signed(allow, name)) == if allow then ParseAllow(t, name) else ParseDeny(t, name)
  {
    hide ParseAllow, ParseDeny, ParseCategory;
    var op := Signed(allow, name);
    assert op[1..] == name;
    assert Lower(op)[0] == op[0] && Lower(op)[1] == LowerChar(name[0]) != '@';
  }

  lemma LookupTopIs(t: Table, n: string)
    requires '|' !in n
    ensures Lookup(t, n) == if Lower(n) in t.commands then Top(Lower(n)) else NotFound
    ensures LastPipe(n) == -1
  {
    NoPipe(n);
  }

  lemma LookupSubIs(t: Table, n: string, sub: string)
    requires t.Name(n) && t.Name(sub) && n in t.commands && sub in t.commands[n].subs
    ensures Lookup(t, n + "|" + sub) == SubOf(n, sub) && LastPipe(n + "|" + sub) == |n|
    ensures (n + "|" + sub)[..|n|] == n && (n + "|" + sub)[|n| + 1..] == sub && Lower(n + "|" + sub) == n + "|" + sub
  {
    hide LastPipe, Lower;
    var name := n + "|" + sub;
    LowerJoined(n, sub);
    PipeAt(name, |n|);
    assert name[..|n|] == n && name[|n| + 1..] == sub;
  }

  lemma LowerJoined(n: string, sub: string)
    requires Lower(n) == n && Lower(sub) == sub
    ensures Lower(n + "|" + sub) == n + "|" + sub
  {
    var name := n + "|" + sub;
    forall i | 0 <= i < |name| ensures LowerChar(name[i]) == name[i] {
      if i < |n| { assert name[i] == n[i]; } else if i > |n| { assert name[i] == sub[i - |n| - 1]; }
    }
  }

  lemma CommandParses(t: Table, n: string, allow: bool)
    requires t.WellFormed() && n in t.commands
    ensures Parse(t, Signed(allow, n)) == Apply(Rule(allow, n, Perm(t.Covered(n), {t.commands[n].id})))
  {
    hide Table.WellFormed, Parse, Lookup, LastPipe, Signed;
    CommandIsFormed(t, n);
    LookupTopIs(t, n);
    SignedParses(t, n, allow);
  }

  lemma CoveredIs(t: Table, n: string, id: nat)
    requires n in t.commands
    ensures id in t.Covered(n) <==> OfCommand(t, n, id)
  {}

  /** +command and -command decide the command and all its subcommands, with any arguments, and nothing else. */
  lemma CommandDecides(t: Table, s: Live, n: string, allow: bool, id: nat, firstArg: Option<string>)
    requires t.WellFormed() && Inv(t, s) && n in t.commands && id < COMMAND_BITS
    ensures MayRun(Exec(t, s, Signed(allow, n)), id, firstArg)
       <==> if OfCommand(t, n, id) then allow else MayRun(s, id, firstArg)
  {
    hide Parse, OfCommand, Table.Covered, Updated, KeptRules, Table.WellFormed, Replay, CommandArgs;
    CommandParses(t, n, allow);
    CoveredIs(t, n, id);
    CoveredIs(t, n, t.commands[n].id);
    assert OfCommand(t, n, t.commands[n].id) by { OwnId(t, n); }
    assert InRange(id);
    if OfCommand(t, n, id) && id != t.commands[n].id { OnlyCommandArgs(t, s.view, n, id); }
  }

  lemma OwnId(t: Table, n: string)
    requires n in t.commands
    ensures OfCommand(t, n, t.commands[n].id)
  {}

  lemma OnlyCommandArgs(t: Table, v: View, n: string, id: nat)
    requires CommandArgs(t, v) && n in t.commands && OfCommand(t, n, id) && id != t.commands[n].id
    ensures id !in v.args
  {}

  lemma SubParses(t: Table, n: string, sub: string, allow: bool)
    requires t.WellFormed() && n in t.commands && sub in t.commands[n].subs
    ensures var id := t.commands[n].subs[sub].id;
      Parse(t, Signed(allow, n + "|" + sub)) == Apply(Rule(allow, n + "|" + sub, Perm({id}, {id})))
  {
    hide LastPipe, Table.WellFormed, Parse, Lookup, Signed, Lower;
    SubIsFormed(t, n, sub);
    LookupTopIs(t, n);
    LookupSubIs(t, n, sub);
    var name := n + "|" + sub;
    assert name[0] == n[0];
    SignedParses(t, name, allow);
  }

  lemma SubIsFormed(t: Table, n: string, sub: string)
    requires t.WellFormed() && n in t.commands && sub in t.commands[n].subs
    ensures t.Name(n) && n[0] != '@' && t.Name(sub)
  {
    assert t.CommandFormed(n) && t.SubFormed(n, sub);
  }

  /** +command|subcommand and -command|subcommand decide that subcommand and nothing else. */
  lemma SubDecides(t: Table, s: Live, n: string, sub: string, allow: bool, id: nat, firstArg: Option<string>)
    requires t.WellFormed() && Inv(t, s) && n in t.commands && sub in t.commands[n].subs && id < COMMAND_BITS
    ensures MayRun(Exec(t, s, Signed(allow, n + "|" + sub)), id, firstArg)
       <==> if id == t.commands[n].subs[sub].id then allow else MayRun(s, id, firstArg)
  {
    hide Parse, Updated, KeptRules, Table.WellFormed, Replay, CommandArgs;
    SubParses(t, n, sub, allow);
    assert InRange(id);
  }

  /** +command|argument allows the command with that first argument, in any letter case, and nothing else. */
  lemma ArgDecides(t: Table, s: Live, n: string, a: string, id: nat, firstArg: Option<string>)
    requires t.WellFormed() && n in t.commands && t.commands[n].subs == map[] && a != [] && '|' !in a
    ensures MayRun(Exec(t, s, "+" + n + "|" + a), id, firstArg)
       <==> MayRun(s, id, firstArg) || (id == t.commands[n].id && firstArg.Some? && Lower(firstArg.value) == Lower(a))
  {
    hide Parse, Updated, KeptRules, Table.WellFormed;
    FirstArgAccepted(t, n, a);
  }

  /** +@all and -@all decide everything. */
  lemma ResetDecides(t: Table, s: Live, allow: bool, id: nat, firstArg: Option<string>)
    requires id < COMMAND_BITS
    ensures MayRun(Exec(t, s, Signed(allow, "@all")), id, firstArg) <==> allow
  {
    hide ParseAllow, ParseDeny;
    assert Lower("+@all") == "+@all" && Lower("-@all") == "-@all";
    assert Signed(true, "@all") == "+@all" && Signed(false, "@all") == "-@all";
  }

  /** A name that is no command is refused, and a refused operation changes nothing. */
  lemma UnknownCommand(t: Table, s: Live, n: string, allow: bool)
    requires n != [] && n[0] != '@' && '|' !in n && Lower(n) !in t.commands
    ensures Parse(t, Signed(allow, n)) == Reject(ENOENT) && Exec(t, s, Signed(allow, n)) == s
  {
    hide Parse, Lookup, LastPipe, Signed, Lower;
    LookupTopIs(t, n);
    SignedParses(t, n, allow);
  }

  // ----- the retained rules

  /** No two retained rules name the same thing, and no later one names the command of an earlier subcommand. */
  lemma NoRuleTwice(t: Table, s: Live, i: nat, j: nat)
    requires Inv(t, s) && i < j < |s.retained|
    ensures s.retained[i].target != s.retained[j].target
    ensures !(s.retained[j].target + "|" <= s.retained[i].target)
  {
    hide Replay, CommandArgs;
    var a, b := s.retained[i].target, s.retained[j].target;
    assert !Covers(b, a);
  }
}
