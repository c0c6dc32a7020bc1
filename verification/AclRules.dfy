/**
 ACL command rules (acl.c): the permission bitmap, the allowed first arguments and
 the retained rule list that must rebuild both.

 The command table is fixed during a run; names and categories are lower case, and
 a lookup folds the case of what it is given.
 */
module AclRules {
  import opened AclText

  const COMMAND_BITS: nat := 1024

  /** The bit no command is ever given; it remembers whether the list started from +@all. */
  const RESERVED_BIT: nat := 1023

  datatype Sub = Sub(id: nat, categories: set<string>)

  /** `subs` is empty for a command without a subcommand dictionary. */
  datatype Command = Command(id: nat, categories: set<string>, subs: map<string, Sub>)

  datatype Table = Table(commands: map<string, Command>, categories: set<string>) {

    predicate Name(n: string) {
      n != [] && Lower(n) == n && '|' !in n && Clean(n)
    }

    ghost predicate SubFormed(n: string, s: string)
      requires n in commands && s in commands[n].subs
    {
      Name(s) && commands[n].subs[s].id < RESERVED_BIT
      && forall m :: m in commands ==> commands[m].id != commands[n].subs[s].id
    }

    ghost predicate CommandFormed(n: string)
      requires n in commands
    {
      Name(n) && n[0] != '@' && commands[n].id < RESERVED_BIT
      && forall s :: s in commands[n].subs ==> SubFormed(n, s)
    }

    /** Plain lower-case names, ids below the reserved bit, no id shared by a command and a subcommand. */
    ghost predicate WellFormed() {
      && (forall n :: n in commands ==> CommandFormed(n))
      && (forall c :: c in categories ==> Name(c) && c != "all")
    }

    /** `ACLChangeSelectorPerm` touches the command and all its subcommands. */
    function Covered(n: string): set<nat>
      requires n in commands
    {
      {commands[n].id} + set s | s in commands[n].subs :: commands[n].subs[s].id
    }

    /** The subcommands of one command that carry a category. */
    function SubsIn(n: string, c: string): set<nat>
      requires n in commands
    {
      set s | s in commands[n].subs && c in commands[n].subs[s].categories :: commands[n].subs[s].id
    }

    /** The bits a category rule changes on account of one command. */
    function IdsIn(n: string, c: string): set<nat>
      requires n in commands
    {
      (if c in commands[n].categories then Covered(n) else {}) + SubsIn(n, c)
    }

    /** The first-argument lists it drops. */
    function ResetsIn(n: string, c: string): set<nat>
      requires n in commands
    {
      (if c in commands[n].categories then {commands[n].id} else {}) + SubsIn(n, c)
    }

    function IdsOver(names: set<string>, c: string): set<nat>
      requires names <= commands.Keys
    {
      set n, i | n in names && i in IdsIn(n, c) :: i
    }

    function ResetsOver(names: set<string>, c: string): set<nat>
      requires names <= commands.Keys
    {
      set n, i | n in names && i in ResetsIn(n, c) :: i
    }

    function CategoryIds(c: string): set<nat> { IdsOver(commands.Keys, c) }

    function CategoryResets(c: string): set<nat> { ResetsOver(commands.Keys, c) }
  }

  // ----- looking up names

  /** `strrchr(s, '|')`, or -1. */
  function LastPipe(s: string): (i: int)
    ensures -1 <= i < |s|
    ensures i >= 0 ==> s[i] == '|'
    ensures forall k :: i < k < |s| ==> s[k] != '|'
  {
    if s == [] then -1
    else if s[|s| - 1] == '|' then |s| - 1
    else LastPipe(s[..|s| - 1])
  }

  datatype Found = NotFound | Top(name: string) | SubOf(name: string, sub: string)

  /** `ACLLookupCommand`: one name, or a name and a subcommand around a single '|'. */
  function Lookup(t: Table, s: string): (f: Found)
    ensures !f.NotFound? ==> f.name in t.commands
    ensures f.SubOf? ==> f.sub in t.commands[f.name].subs
  {
    var i := LastPipe(s);
    if i == -1 then
      if Lower(s) in t.commands then Top(Lower(s)) else NotFound
    else
      var base, sub := Lower(s[..i]), Lower(s[i + 1..]);
      if '|' in base || base !in t.commands || sub !in t.commands[base].subs then NotFound
      else SubOf(base, sub)
  }

  // ----- what one operation means

  datatype Effect = Perm(ids: set<nat>, resets: set<nat>) | FirstArg(id: nat, arg: string)

  datatype Rule = Rule(allow: bool, target: string, effect: Effect)

  datatype Error = ENOENT | ECHILD | EINVAL

  datatype Action = AllCommands | NoCommands | Apply(rule: Rule) | Unrelated | Reject(error: Error)

  function PermOf(t: Table, f: Found): Effect
    requires !f.NotFound? ==> f.name in t.commands
    requires f.SubOf? ==> f.sub in t.commands[f.name].subs
  {
    match f
    case Top(n) => Perm(t.Covered(n), {t.commands[n].id})
    case SubOf(n, s) => Perm({t.commands[n].subs[s].id}, {t.commands[n].subs[s].id})
    case NotFound => Perm({}, {})
  }

  /** The '+' branch: a command, a subcommand, or a first argument of a plain command. */
  function ParseAllow(t: Table, name: string): Action {
    var i := LastPipe(name);
    if i == -1 then
      var f := Lookup(t, name);
      if f.NotFound? then Reject(ENOENT) else Apply(Rule(true, Lower(name), PermOf(t, f)))
    else
      var f := Lookup(t, name[..i]);
      var sub := name[i + 1..];
      if f.NotFound? then Reject(ENOENT)
      else if f.SubOf? then Reject(ECHILD)
      else if sub == [] then Reject(EINVAL)
      else if t.commands[f.name].subs != map[] then
        var g := Lookup(t, name);
        if g.NotFound? then Reject(ENOENT) else Apply(Rule(true, Lower(name), PermOf(t, g)))
      else Apply(Rule(true, Lower(name), FirstArg(t.commands[f.name].id, Lower(sub))))
  }

  /** The '-' branch. */
  function ParseDeny(t: Table, name: string): Action {
    var f := Lookup(t, name);
    if f.NotFound? then Reject(ENOENT) else Apply(Rule(false, Lower(name), PermOf(t, f)))
  }

  function ParseCategory(t: Table, category: string, allow: bool): Action
    requires category != []
  {
    var c := Lower(category)[1..];
    if c in t.categories then
      Apply(Rule(allow, Lower(category), Perm(t.CategoryIds(c), t.CategoryResets(c))))
    else Reject(ENOENT)
  }

  /** `ACLSetSelector`, as far as commands are concerned. Key and channel operations are `Unrelated`. */
  function Parse(t: Table, op: string): Action {
    var low := Lower(op);
    if low in {"allkeys", "~*", "resetkeys", "allchannels", "&*", "resetchannels"} then Unrelated
    else if low == "allcommands" || low == "+@all" then AllCommands
    else if low == "nocommands" || low == "-@all" then NoCommands
    else if op == [] then Reject(EINVAL)
    else if op[0] in {'~', '%', '&'} then Unrelated
    else if op[0] == '+' && !(|op| > 1 && op[1] == '@') then ParseAllow(t, op[1..])
    else if op[0] == '-' && !(|op| > 1 && op[1] == '@') then ParseDeny(t, op[1..])
    else if op[0] == '+' || op[0] == '-' then ParseCategory(t, op[1..], op[0] == '+')
    else Reject(EINVAL)
  }

  /** The text a rule is retained as. */
  function Text(r: Rule): string { [if r.allow then '+' else '-'] + r.target }

  // ----- parsing a retained rule gives the rule back

  lemma LowerPipes(s: string)
    ensures forall i :: 0 <= i < |s| ==> (Lower(s)[i] == '|' <==> s[i] == '|')
  {}

  lemma LowerParts(s: string, i: nat)
    requires i <= |s|
    ensures Lower(s[..i]) == Lower(s)[..i] && Lower(s[i..]) == Lower(s)[i..]
  {}

  lemma LastPipeLower(s: string)
    ensures LastPipe(Lower(s)) == LastPipe(s)
  {
    hide LastPipe, Lower;
    LowerPipes(s);
  }

  /** The three pieces of a name around its last '|' after folding the case first. */
  lemma PartsLower(s: string)
    ensures LastPipe(Lower(s)) == LastPipe(s) && Lower(Lower(s)) == Lower(s)
    ensures var i := LastPipe(s);
            i >= 0 ==> (Lower(s)[..i] == Lower(s[..i]) && Lower(s)[i + 1..] == Lower(s[i + 1..])
                        && Lower(Lower(s[..i])) == Lower(s[..i]) && Lower(Lower(s[i + 1..])) == Lower(s[i + 1..]))
  {
    hide LastPipe, Lower;
    LastPipeLower(s);
    LowerIdempotent(s);
    var i := LastPipe(s);
    if i >= 0 {
      LowerParts(s, i); LowerParts(s, i + 1);
      LowerIdempotent(s[..i]); LowerIdempotent(s[i + 1..]);
    }
  }

  lemma LookupLower(t: Table, s: string)
    ensures Lookup(t, Lower(s)) == Lookup(t, s)
  {
    hide LastPipe, Lower;
    PartsLower(s);
  }

  lemma ParseAllowLower(t: Table, name: string)
    requires ParseAllow(t, name).Apply?
    ensures ParseAllow(t, Lower(name)) == ParseAllow(t, name)
  {
    hide LastPipe, Lower, Lookup, PermOf;
    PartsLower(name);
    LookupLower(t, name);
    var i := LastPipe(name);
    if i >= 0 { LookupLower(t, name[..i]); }
  }

  lemma ParseDenyLower(t: Table, name: string)
    ensures ParseDeny(t, Lower(name)) == ParseDeny(t, name)
  {
    hide Lower, Lookup, PermOf;
    LookupLower(t, name);
    LowerIdempotent(name);
  }

  lemma ParseCategoryLower(t: Table, category: string, allow: bool)
    requires category != []
    ensures ParseCategory(t, Lower(category), allow) == ParseCategory(t, category, allow)
  {
    hide Lower;
    LowerIdempotent(category);
  }

  predicate Sign(c: char) { c == '+' || c == '-' }

  lemma LowerTail(op: string)
    requires op != []
    ensures Lower(op) == [LowerChar(op[0])] + Lower(op[1..])
    ensures Lower(op)[1..] == Lower(op[1..])
    ensures |op| > 1 ==> (Lower(op)[1] == '@' <==> op[1] == '@')
    ensures Sign(op[0]) ==> Lower(op)[0] == op[0]
  {}

  predicate Reserved(low: string) {
    low in {"allkeys", "~*", "resetkeys", "allchannels", "&*", "resetchannels", "allcommands", "+@all", "nocommands",
      "-@all"}
  }

  lemma ParseSigned(t: Table, op: string)
    ensures Parse(t, op).Apply? ==> op != [] && Sign(op[0]) && !Reserved(Lower(op))
    ensures op != [] && Sign(op[0]) && !Reserved(Lower(op)) ==>
              (Parse(t, op) == if |op| > 1 && op[1] == '@' then ParseCategory(t, op[1..], op[0] == '+')
                               else if op[0] == '+' then ParseAllow(t, op[1..]) else ParseDeny(t, op[1..]))
  {
    hide ParseAllow, ParseDeny, ParseCategory, Lower;
  }

  lemma ParsedRule(t: Table, op: string)
    requires Parse(t, op).Apply?
    ensures op != [] && Sign(op[0])
    ensures var r := Parse(t, op).rule; r.allow == (op[0] == '+') && r.target == Lower(op[1..])
    ensures Text(Parse(t, op).rule) == Lower(op)
  {
    hide Lower, Lookup, PermOf, LastPipe, Parse;
    ParseSigned(t, op);
    LowerTail(op);
  }

  /** What is retained for an accepted operation is its folded text, and parsing that text gives the same rule. */
  lemma RetainedParses(t: Table, op: string)
    requires Parse(t, op).Apply?
    ensures Parse(t, Text(Parse(t, op).rule)) == Parse(t, op)
  {
    hide Lower, ParseAllow, ParseDeny, ParseCategory, Parse;
    ParsedRule(t, op);
    ParseSigned(t, op);
    ParseSigned(t, Lower(op));
    LowerTail(op);
    LowerIdempotent(op);
    if |op| > 1 && op[1] == '@' { ParseCategoryLower(t, op[1..], op[0] == '+'); }
    else if op[0] == '+' { ParseAllowLower(t, op[1..]); }
    else { ParseDenyLower(t, op[1..]); }
  }

  // ----- effects on the bitmap and the first arguments

  /** The state that rules act on; first arguments are compared with their case folded. */
  datatype View = View(bits: set<nat>, args: map<nat, set<string>>)

  predicate InRange(i: nat) { i < COMMAND_BITS }

  function AllBits(): set<nat> { set i: nat | i < COMMAND_BITS && InRange(i) }

  /** After +@all or -@all. */
  function Start(all: bool): View { View(if all then AllBits() else {}, map[]) }

  function ArgsOf(v: View, id: nat): set<string> { if id in v.args then v.args[id] else {} }

  function ApplyRule(r: Rule, v: View): View {
    match r.effect
    case Perm(ids, resets) => View(if r.allow then v.bits + ids else v.bits - ids, v.args - resets)
    case FirstArg(id, arg) => View(v.bits, v.args[id := ArgsOf(v, id) + {arg}])
  }

  function Replay(v: View, rs: seq<Rule>): View {
    if rs == [] then v else ApplyRule(rs[|rs| - 1], Replay(v, rs[..|rs| - 1]))
  }

  function KeptRules(rs: seq<Rule>, n: string): (r: seq<Rule>)
    ensures forall x :: x in r ==> x in rs && !Covers(n, x.target)
  {
    if rs == [] then []
    else
      var k := KeptRules(rs[..|rs| - 1], n);
      if Covers(n, rs[|rs| - 1].target) then k else k + [rs[|rs| - 1]]
  }

  predicate SameBit(v: View, w: View, i: nat) { i in v.bits <==> i in w.bits }

  predicate SameArgs(v: View, w: View, i: nat) {
    (i in v.args <==> i in w.args) && ArgsOf(v, i) == ArgsOf(w, i)
  }

  /** `v` and `w` look the same once rule `r` has been applied. */
  ghost predicate Agree(r: Rule, v: View, w: View) {
    match r.effect
    case Perm(ids, resets) =>
      (forall i :: i !in ids ==> SameBit(v, w, i)) && (forall i :: i !in resets ==> SameArgs(v, w, i))
    case FirstArg(id, arg) =>
      (forall i :: SameBit(v, w, i)) && (forall i :: i != id ==> SameArgs(v, w, i))
      && ArgsOf(v, id) + {arg} == ArgsOf(w, id) + {arg}
  }

  lemma SameView(v: View, w: View)
    requires forall i :: SameBit(v, w, i) && SameArgs(v, w, i)
    ensures v == w
  {
    assert forall i :: i in v.bits ==> SameBit(v, w, i);
    assert forall i :: i in w.bits ==> SameBit(v, w, i);
    assert v.bits == w.bits;
    forall i | i in v.args || i in w.args ensures i in v.args && i in w.args && v.args[i] == w.args[i] {
      assert SameArgs(v, w, i);
    }
    assert v.args == w.args;
  }

  lemma AgreeApplied(r: Rule, v: View, w: View)
    requires Agree(r, v, w)
    ensures ApplyRule(r, v) == ApplyRule(r, w)
  {
    var v', w' := ApplyRule(r, v), ApplyRule(r, w);
    forall i ensures SameBit(v', w', i) && SameArgs(v', w', i) {
      assert SameBit(v, w, i) || !SameBit(v, w, i);
      assert SameArgs(v, w, i) || !SameArgs(v, w, i);
    }
    SameView(v', w');
  }

  /** Applying any rule to both sides keeps the agreement. */
  lemma AgreeStep(r: Rule, x: Rule, v: View, w: View)
    requires Agree(r, v, w)
    ensures Agree(r, ApplyRule(x, v), ApplyRule(x, w))
  {
    var v', w' := ApplyRule(x, v), ApplyRule(x, w);
    forall i | SameBit(v, w, i) ensures SameBit(v', w', i) {}
    forall i | SameArgs(v, w, i) ensures SameArgs(v', w', i) {}
    if r.effect.FirstArg? {
      var id, arg := r.effect.id, r.effect.arg;
      if x.effect.FirstArg? && x.effect.id == id {
        var a, b := ArgsOf(v, id), ArgsOf(w, id);
        assert (a + {x.effect.arg}) + {arg} == (a + {arg}) + {x.effect.arg};
        assert (b + {x.effect.arg}) + {arg} == (b + {arg}) + {x.effect.arg};
      }
    }
  }

  // ----- a rule absorbs every retained rule it covers

  /** A rule in the form it is retained in. */
  predicate Good(t: Table, r: Rule) { Parse(t, Text(r)) == Apply(r) }

  /** First arguments are only ever recorded for commands, not for subcommands. */
  ghost predicate CommandArgs(t: Table, v: View) {
    forall n, s :: n in t.commands && s in t.commands[n].subs ==> t.commands[n].subs[s].id !in v.args
  }

  predicate Category(r: Rule) { r.target != [] && r.target[0] == '@' }

  lemma GoodForm(t: Table, r: Rule)
    requires Good(t, r)
    ensures Lower(r.target) == r.target
    ensures Category(r) ==> ParseCategory(t, r.target, r.allow) == Apply(r)
    ensures !Category(r) ==> (if r.allow then ParseAllow(t, r.target) else ParseDeny(t, r.target)) == Apply(r)
  {
    hide ParseAllow, ParseDeny, ParseCategory, Parse, Lower;
    ParsedRule(t, Text(r));
    ParseSigned(t, Text(r));
    assert Text(r)[1..] == r.target;
  }

  lemma PlainRule(t: Table, r: Rule)
    requires Good(t, r) && !Category(r) && '|' !in r.target
    ensures r.target in t.commands
    ensures r.effect == Perm(t.Covered(r.target), {t.commands[r.target].id})
  {
    hide Parse, Lower;
    GoodForm(t, r);
    assert LastPipe(r.target) == -1;
  }

  /** A retained name with a '|' is a subcommand or a first argument of the command before it. */
  lemma PipedRule(t: Table, r: Rule)
    requires Good(t, r) && !Category(r) && '|' in r.target
    ensures var i := LastPipe(r.target);
            i >= 0 && '|' !in r.target[..i] && r.target[..i] in t.commands
            && var c := t.commands[r.target[..i]];
               (c.subs != map[] ==> r.target[i + 1..] in c.subs
                                    && r.effect == Perm({c.subs[r.target[i + 1..]].id}, {c.subs[r.target[i + 1..]].id}))
               && (c.subs == map[] ==> r.allow && r.effect == FirstArg(c.id, r.target[i + 1..]))
  {
    hide Parse, Lower;
    GoodForm(t, r);
    PartsLower(r.target);
    var i := LastPipe(r.target);
    assert i >= 0;
    var base := r.target[..i];
    assert Lower(base) == base;
    if r.allow { BaseLookup(t, base); }
  }

  lemma BaseLookup(t: Table, base: string)
    requires Lookup(t, base).Top? && Lower(base) == base
    ensures '|' !in base && Lookup(t, base) == Top(base)
  {
    hide Lower;
  }

  lemma CategoryRule(t: Table, r: Rule)
    requires Good(t, r) && Category(r)
    ensures r.target[1..] in t.categories
    ensures var c := r.target[1..]; r.effect == Perm(t.CategoryIds(c), t.CategoryResets(c))
  {
    hide Parse, Lower;
    GoodForm(t, r);
  }

  lemma SameEffectAgrees(r: Rule, x: Rule, v: View)
    requires x.effect == r.effect
    ensures Agree(r, v, ApplyRule(x, v))
  {}

  /** The effect of a retained rule depends on its name only. */
  lemma EffectByName(t: Table, r: Rule, x: Rule)
    requires Good(t, r) && Good(t, x) && r.target == x.target
    ensures r.effect == x.effect
  {
    hide Good;
    if Category(r) { CategoryRule(t, r); CategoryRule(t, x); }
    else if '|' in r.target { PipedRule(t, r); PipedRule(t, x); }
    else { PlainRule(t, r); PlainRule(t, x); }
  }

  /** Covering by prefix: the covered rule sits below the covering command. */
  lemma CoveredBelow(t: Table, r: Rule, x: Rule, v: View)
    requires t.WellFormed() && Good(t, r) && Good(t, x) && CommandArgs(t, v)
    requires Covers(r.target, x.target) && r.target != x.target
    ensures Agree(r, v, ApplyRule(x, v))
  {
    hide Good;
    var k := |r.target|;
    assert x.target[k] == '|';
    assert r.target != [] by { NamedRule(t, r); }
    assert x.target[0] == r.target[0];
    assert x.target[1..][k - 1] == '|';
    if Category(x) {
      CategoryRule(t, x);
      assert false;
    } else {
      PipedRule(t, x);
      var i := LastPipe(x.target);
      assert forall j :: 0 <= j < i ==> x.target[..i][j] == x.target[j];
      assert x.target[..i] == r.target;
      PlainRule(t, r);
    }
  }

  lemma NamedRule(t: Table, r: Rule)
    requires t.WellFormed() && Good(t, r)
    ensures r.target != []
  {
    hide Good;
    if !Category(r) && '|' !in r.target { PlainRule(t, r); }
  }

  /** After a covering rule, a covered one has left no trace. */
  lemma Absorbed(t: Table, r: Rule, x: Rule, v: View)
    requires t.WellFormed() && Good(t, r) && Good(t, x) && CommandArgs(t, v)
    requires Covers(r.target, x.target)
    ensures Agree(r, v, ApplyRule(x, v))
  {
    hide Good, Agree, ApplyRule;
    if r.target == x.target {
      EffectByName(t, r, x);
      SameEffectAgrees(r, x, v);
    } else {
      CoveredBelow(t, r, x, v);
    }
  }

  lemma CommandArgsKept(t: Table, x: Rule, v: View)
    requires t.WellFormed() && Good(t, x) && CommandArgs(t, v)
    ensures CommandArgs(t, ApplyRule(x, v))
  {
    hide Good;
    if x.effect.FirstArg? {
      if Category(x) { CategoryRule(t, x); }
      else if '|' in x.target { PipedRule(t, x); }
      else { PlainRule(t, x); }
    }
  }

  ghost predicate AllGood(t: Table, rs: seq<Rule>) { forall i :: 0 <= i < |rs| ==> Good(t, rs[i]) }

  lemma {:induction false} ReplayArgs(t: Table, v: View, rs: seq<Rule>)
    requires t.WellFormed() && AllGood(t, rs) && CommandArgs(t, v)
    ensures CommandArgs(t, Replay(v, rs))
  {
    hide Good, ApplyRule, CommandArgs;
    if rs != [] {
      ReplayArgs(t, v, rs[..|rs| - 1]);
      CommandArgsKept(t, rs[|rs| - 1], Replay(v, rs[..|rs| - 1]));
    }
  }

  /** Dropping the covered rules from anywhere in the list is invisible after the covering rule. */
  lemma {:induction false} KeptAgrees(t: Table, r: Rule, v: View, rs: seq<Rule>)
    requires t.WellFormed() && Good(t, r) && AllGood(t, rs) && CommandArgs(t, v)
    ensures Agree(r, Replay(v, KeptRules(rs, r.target)), Replay(v, rs))
    decreases |rs|
  {
    hide Good, ApplyRule, CommandArgs, Covers;
    if rs == [] {
      AgreeSelf(r, v);
    } else {
      var init, last := rs[..|rs| - 1], rs[|rs| - 1];
      KeptAgrees(t, r, v, init);
      var a, b := Replay(v, KeptRules(init, r.target)), Replay(v, init);
      ReplayArgs(t, v, init);
      if Covers(r.target, last.target) {
        Absorbed(t, r, last, b);
        AgreeTrans(r, a, b, ApplyRule(last, b));
      } else {
        AgreeStep(r, last, a, b);
        ReplayLast(v, KeptRules(init, r.target), last);
      }
    }
  }

  lemma ReplayLast(v: View, rs: seq<Rule>, r: Rule)
    ensures Replay(v, rs + [r]) == ApplyRule(r, Replay(v, rs))
  {
    hide ApplyRule;
    assert (rs + [r])[..|rs|] == rs;
  }

  lemma AgreeSelf(r: Rule, v: View)
    ensures Agree(r, v, v)
  {}

  lemma AgreeTrans(r: Rule, u: View, v: View, w: View)
    requires Agree(r, u, v) && Agree(r, v, w)
    ensures Agree(r, u, w)
  {
    forall i | SameBit(u, v, i) && SameBit(v, w, i) ensures SameBit(u, w, i) {}
    forall i | SameArgs(u, v, i) && SameArgs(v, w, i) ensures SameArgs(u, w, i) {}
  }

  /** The retained list rebuilds the state after an operation if it did before. */
  lemma EditRebuilds(t: Table, r: Rule, v: View, rs: seq<Rule>)
    requires t.WellFormed() && Good(t, r) && AllGood(t, rs) && CommandArgs(t, v)
    ensures Replay(v, KeptRules(rs, r.target) + [r]) == ApplyRule(r, Replay(v, rs))
  {
    hide Good, ApplyRule, CommandArgs, KeptRules, Replay, Agree;
    KeptAgrees(t, r, v, rs);
    AgreeApplied(r, Replay(v, KeptRules(rs, r.target)), Replay(v, rs));
    ReplayLast(v, KeptRules(rs, r.target), r);
  }
}
