/**
 `getNodeByQuery` (cluster.c): which node serves a command, or every command of a
 transaction, and how the client is redirected.
 */
module Routing {

  type Key = string

  datatype Option<T> = None | Some(value: T)

  /** The keys of a command, and whether it works on sharded channels. */
  datatype Command = Command(keys: seq<Key>, channels: bool)

  /** What this node knows: slots, keys it holds, its place in the cluster, and the configuration. */
  datatype Env = Env(
    slotOf: Key -> nat, owner: nat -> Option<nat>, migratingTo: nat -> Option<nat>, importingFrom: nat -> Option<nat>,
    has: Key -> bool, myself: nat, master: Option<nat>, healthy: bool, allowReads: bool, allowChannels: bool,
    noRedirection: bool)

  /** A command or a transaction; `writes` and `queueWrites` are the flags of the command and of the queued ones. */
  datatype Query = Query(cmds: seq<Command>, isExec: bool, inMulti: bool, isMigrate: bool, writes: bool,
                         queueWrites: bool, asking: bool, readOnly: bool)

  datatype Answer = Serve | Ask(node: nat) | Moved(node: nat) | TryAgain | CrossSlot | Unbound | Down | DownReadOnly

  // ----- the table

  /** All keys of all commands in order. */
  function Keys(cmds: seq<Command>): seq<Key> {
    if cmds == [] then [] else Keys(cmds[..|cmds| - 1]) + cmds[|cmds| - 1].keys
  }

  predicate HasChannels(cmds: seq<Command>) { exists i :: 0 <= i < |cmds| && cmds[i].channels }

  /** The keys whose presence is looked up: those of the commands before the first one on channels. */
  function Looked(cmds: seq<Command>): seq<Key> {
    if cmds == [] then []
    else
      var front := cmds[..|cmds| - 1];
      if HasChannels(cmds) then Looked(front) else Looked(front) + cmds[|cmds| - 1].keys
  }

  predicate Migrating(env: Env, slot: nat) { env.owner(slot) == Some(env.myself) && env.migratingTo(slot).Some? }

  predicate Importing(env: Env, slot: nat) { !Migrating(env, slot) && env.importingFrom(slot).Some? }

  predicate Missing(env: Env, keys: seq<Key>) { exists i :: 0 <= i < |keys| && !env.has(keys[i]) }

  predicate Present(env: Env, keys: seq<Key>) { exists i :: 0 <= i < |keys| && env.has(keys[i]) }

  predicate OneSlot(env: Env, keys: seq<Key>) {
    forall i :: 0 <= i < |keys| ==> env.slotOf(keys[i]) == env.slotOf(keys[0])
  }

  predicate Different(keys: seq<Key>) { exists i :: 0 <= i < |keys| && keys[i] != keys[0] }

  /** Refusals of a cluster that is down. */
  function WhenDown(env: Env, q: Query): Option<Answer> {
    if env.healthy then None
    else if HasChannels(q.cmds) then (if env.allowChannels then None else Some(Down))
    else if !env.allowReads then Some(Down)
    else if q.writes then Some(DownReadOnly)
    else None
  }

  /** The answer once the slot, its owner and the lookups are known. */
  function Decide(env: Env, q: Query, slot: nat, owner: nat, missing: bool, present: bool, different: bool): Answer {
    if WhenDown(env, q).Some? then WhenDown(env, q).value
    else if (Migrating(env, slot) || Importing(env, slot)) && q.isMigrate then Serve
    else if Migrating(env, slot) && missing then (if present then TryAgain else Ask(env.migratingTo(slot).value))
    else if Importing(env, slot) && q.asking then (if different && missing then TryAgain else Serve)
    else if (q.readOnly || HasChannels(q.cmds)) && !(q.writes || (q.isExec && q.queueWrites))
      && env.master == Some(owner) then Serve
    else if owner != env.myself then Moved(owner)
    else Serve
  }

  /** The answer, read off the keys. */
  function Table(env: Env, q: Query): Answer {
    var keys, looked := Keys(q.cmds), Looked(q.cmds);
    if env.noRedirection || (q.isExec && !q.inMulti) || keys == [] then Serve
    else
      var slot := env.slotOf(keys[0]);
      if env.owner(slot).None? then Unbound
      else if !OneSlot(env, keys) then CrossSlot
      else Decide(env, q, slot, env.owner(slot).value, Missing(env, looked), Present(env, looked), Different(keys))
  }

  // ----- the scan

  /** The variables of the loop over the keys. */
  datatype Scan = Scan(first: Option<Key>, slot: nat, node: nat, migrating: bool, importing: bool, multiple: bool,
                       missing: nat, existing: nat, channels: bool)

  const START := Scan(None, 0, 0, false, false, false, 0, 0, false)

  function CountMissing(env: Env, keys: seq<Key>): nat {
    if keys == [] then 0 else CountMissing(env, keys[..|keys| - 1]) + if env.has(keys[|keys| - 1]) then 0 else 1
  }

  /** What the variables say after the keys `seen`, of which `looked` were looked up. */
  ghost predicate Tells(env: Env, s: Scan, seen: seq<Key>, looked: seq<Key>) {
    if seen == [] then s == START.(channels := s.channels) && looked == []
    else
      && s.first == Some(seen[0]) && s.slot == env.slotOf(seen[0]) && env.owner(s.slot) == Some(s.node)
      && OneSlot(env, seen)
      && s.migrating == Migrating(env, s.slot) && s.importing == Importing(env, s.slot)
      && (s.importing ==> (s.multiple <==> Different(seen)))
      && (if s.migrating || s.importing then s.missing == CountMissing(env, looked)
        && s.existing + s.missing == |looked|
          else s.missing == 0 && s.existing == 0)
  }

  lemma {:induction false} CountMeans(env: Env, keys: seq<Key>)
    ensures CountMissing(env, keys) <= |keys|
    ensures CountMissing(env, keys) > 0 <==> Missing(env, keys)
    ensures CountMissing(env, keys) < |keys| <==> Present(env, keys)
    decreases |keys|
  {
    if keys != [] {
      var front := keys[..|keys| - 1];
      CountMeans(env, front);
      assert Missing(env, keys) <==> Missing(env, front) || !env.has(keys[|keys| - 1]) by {
        if Missing(env, front) {
          var i :| 0 <= i < |front| && !env.has(front[i]);
          assert keys[i] == front[i];
        }
        if Missing(env, keys) && env.has(keys[|keys| - 1]) {
          var i :| 0 <= i < |keys| && !env.has(keys[i]);
          assert front[i] == keys[i];
        }
      }
      assert Present(env, keys) <==> Present(env, front) || env.has(keys[|keys| - 1]) by {
        if Present(env, front) {
          var i :| 0 <= i < |front| && env.has(front[i]);
          assert keys[i] == front[i];
        }
        if Present(env, keys) && !env.has(keys[|keys| - 1]) {
          var i :| 0 <= i < |keys| && env.has(keys[i]);
          assert front[i] == keys[i];
        }
      }
    }
  }

  lemma CountNext(env: Env, looked: seq<Key>, key: Key)
    ensures CountMissing(env, looked + [key]) == CountMissing(env, looked) + if env.has(key) then 0 else 1
  {
    assert (looked + [key])[..|looked|] == looked;
  }

  lemma DifferentNext(seen: seq<Key>, key: Key)
    requires seen != []
    ensures Different(seen + [key]) <==> Different(seen) || key != seen[0]
  {
    var all := seen + [key];
    if Different(seen) {
      var i :| 0 <= i < |seen| && seen[i] != seen[0];
      assert all[i] != all[0];
    }
    if key != seen[0] { assert all[|seen|] != all[0]; }
  }

  lemma SingleKey(env: Env, key: Key)
    ensures OneSlot(env, [key]) && !Different([key])
  {}

  /** One key: `Some` is an answer that ends the scan. */
  method ScanKey(env: Env, s: Scan, key: Key, ghost seen: seq<Key>, ghost looked: seq<Key>)
    returns (t: Scan, stop: Option<Answer>)
    requires Tells(env, s, seen, looked)
    ensures t.channels == s.channels
    ensures stop == if seen == [] then (if env.owner(env.slotOf(key)).None? then Some(Unbound) else None)
                    else (if env.slotOf(seen[0]) != env.slotOf(key) then Some(CrossSlot) else None)
    ensures stop.None? ==> Tells(env, t, seen + [key], if s.channels then looked else looked + [key])
  {
    hide Different, CountMissing;
    t := s;
    var slot := env.slotOf(key);
    if s.first.None? {
      if env.owner(slot).None? { return t, Some(Unbound); }
      var node := env.owner(slot).value;
      t := t.(first := Some(key), slot := slot, node := node);
      if node == env.myself && env.migratingTo(slot).Some? {
        t := t.(migrating := true);
      } else if env.importingFrom(slot).Some? {
        t := t.(importing := true);
      }
      SingleKey(env, key);
      CountNone(env);
      assert seen + [key] == [key];
    } else {
      if s.slot != slot { return t, Some(CrossSlot); }
      if s.importing && !s.multiple && s.first.value != key { t := t.(multiple := true); }
      DifferentNext(seen, key);
    }
    if (t.migrating || t.importing) && !t.channels {
      if env.has(key) { t := t.(existing := t.existing + 1); } else { t := t.(missing := t.missing + 1); }
    }
    CountNext(env, looked, key);
    stop := None;
  }

  lemma CountNone(env: Env)
    ensures CountMissing(env, []) == 0
  {}

  // ----- the program

  lemma KeysNext(cmds: seq<Command>, i: nat)
    requires i < |cmds|
    ensures Keys(cmds[..i + 1]) == Keys(cmds[..i]) + cmds[i].keys
    ensures HasChannels(cmds[..i + 1]) <==> HasChannels(cmds[..i]) || cmds[i].channels
    ensures Looked(cmds[..i + 1]) == if HasChannels(cmds[..i + 1]) then Looked(cmds[..i])
      else Looked(cmds[..i]) + cmds[i].keys
  {
    var t := cmds[..i + 1];
    assert t[..i] == cmds[..i] && t[i] == cmds[i];
    if HasChannels(cmds[..i]) {
      var k :| 0 <= k < i && cmds[..i][k].channels;
      assert t[k].channels;
    }
    if cmds[i].channels { assert t[i].channels; }
  }

  /** A prefix with keys of two slots makes the whole of two slots. */
  lemma PrefixSlots(env: Env, a: seq<Key>, all: seq<Key>)
    requires a != [] && a <= all && !OneSlot(env, a)
    ensures !OneSlot(env, all) && all[0] == a[0]
  {
    var i :| 0 <= i < |a| && env.slotOf(a[i]) != env.slotOf(a[0]);
    assert all[i] == a[i] && all[0] == a[0];
  }

  lemma {:induction false} KeysPrefix(cmds: seq<Command>, i: nat)
    requires i <= |cmds|
    ensures Keys(cmds[..i]) <= Keys(cmds)
    decreases |cmds| - i
  {
    if i == |cmds| {
      assert cmds[..i] == cmds;
    } else {
      KeysNext(cmds, i);
      KeysPrefix(cmds, i + 1);
    }
  }

  /** The answer a scan stops with is that of the whole query. */
  ghost predicate Stops(env: Env, all: seq<Key>, a: Answer) {
    && all != []
    && (if env.owner(env.slotOf(all[0])).None? then a == Unbound else a == CrossSlot && !OneSlot(env, all))
  }

  lemma StopMeans(env: Env, s: Scan, seen: seq<Key>, looked: seq<Key>, key: Key, all: seq<Key>)
    requires Tells(env, s, seen, looked) && seen + [key] <= all
    ensures seen == [] && env.owner(env.slotOf(key)).None? ==> Stops(env, all, Unbound)
    ensures seen != [] && env.slotOf(seen[0]) != env.slotOf(key) ==> Stops(env, all, CrossSlot)
  {
    hide Different, CountMissing, Migrating, Importing;
    var a := seen + [key];
    assert all[0] == a[0];
    if seen != [] && env.slotOf(key) != env.slotOf(seen[0]) {
      assert a[|seen|] == key && a[0] == seen[0];
      PrefixSlots(env, a, all);
    }
  }

  /** All keys of one command. */
  method ScanCommand(env: Env, s: Scan, keys: seq<Key>, ghost seen: seq<Key>, ghost looked: seq<Key>,
      ghost all: seq<Key>)
    returns (t: Scan, stop: Option<Answer>)
    requires Tells(env, s, seen, looked) && seen + keys <= all
    ensures t.channels == s.channels
    ensures stop.None? ==> Tells(env, t, seen + keys, if s.channels then looked else looked + keys)
    ensures stop.Some? ==> Stops(env, all, stop.value)
  {
    hide Tells, Stops;
    t, stop := s, None;
    assert keys[..0] == [] && seen + [] == seen && looked + [] == looked;
    for j := 0 to |keys|
      invariant t.channels == s.channels && stop.None?
      invariant Tells(env, t, seen + keys[..j], if s.channels then looked else looked + keys[..j])
    {
      ghost var now, l := seen + keys[..j], if s.channels then looked else looked + keys[..j];
      assert keys[..j + 1] == keys[..j] + [keys[j]];
      assert now + [keys[j]] == seen + keys[..j + 1];
      assert looked + keys[..j] + [keys[j]] == looked + keys[..j + 1];
      TakePrefix(seen, keys, j + 1, all);
      StopMeans(env, t, now, l, keys[j], all);
      t, stop := ScanKey(env, t, keys[j], now, l);
      if stop.Some? { return; }
    }
    assert keys[..|keys|] == keys;
  }

  lemma TakePrefix(seen: seq<Key>, keys: seq<Key>, j: nat, all: seq<Key>)
    requires j <= |keys| && seen + keys <= all
    ensures seen + keys[..j] <= all
  {}

  method Route(env: Env, q: Query) returns (a: Answer)
    ensures a == Table(env, q)
  {
    hide Tells, OneSlot, Migrating, Importing, Missing, Present, Different, WhenDown, HasChannels;
    if env.noRedirection { return Serve; }
    if q.isExec && !q.inMulti { return Serve; }
    var s := START;
    ghost var all := Keys(q.cmds);
    TellsNothing(env);
    assert q.cmds[..0] == [];
    for i := 0 to |q.cmds|
      invariant Tells(env, s, Keys(q.cmds[..i]), Looked(q.cmds[..i])) && s.channels == HasChannels(q.cmds[..i])
    {
      if !s.channels && q.cmds[i].channels {
        TellsChannels(env, s, Keys(q.cmds[..i]), Looked(q.cmds[..i]));
        s := s.(channels := true);
      }
      KeysNext(q.cmds, i);
      KeysPrefix(q.cmds, i + 1);
      var stop: Option<Answer>;
      s, stop := ScanCommand(env, s, q.cmds[i].keys, Keys(q.cmds[..i]), Looked(q.cmds[..i]), all);
      if stop.Some? { return stop.value; }
    }
    assert q.cmds[..|q.cmds|] == q.cmds;
    TellsAll(env, s, all, Looked(q.cmds));
    if s.first.None? { return Serve; }
    a := Answered(env, q, s);
  }

  lemma TellsNothing(env: Env)
    ensures Tells(env, START, [], []) && !HasChannels([])
  {}

  lemma TellsChannels(env: Env, s: Scan, seen: seq<Key>, looked: seq<Key>)
    requires Tells(env, s, seen, looked)
    ensures Tells(env, s.(channels := true), seen, looked)
  {
    hide Different, CountMissing, OneSlot, Migrating, Importing;
  }

  lemma TellsAll(env: Env, s: Scan, seen: seq<Key>, looked: seq<Key>)
    requires Tells(env, s, seen, looked)
    ensures s.first.None? <==> seen == []
    ensures seen != [] ==> s.slot == env.slotOf(seen[0]) && env.owner(s.slot) == Some(s.node) && OneSlot(env, seen)
    ensures seen != [] ==> s.migrating == Migrating(env, s.slot) && s.importing == Importing(env, s.slot)
    ensures seen != [] && s.importing ==> (s.multiple <==> Different(seen))
    ensures seen != [] && (s.migrating || s.importing) ==>
      (s.missing > 0 <==> Missing(env, looked)) && (s.existing > 0 <==> Present(env, looked))
  {
    hide Different, OneSlot, Migrating, Importing, Missing, Present;
    CountMeans(env, looked);
  }

  /** What follows the loops. */
  method Answered(env: Env, q: Query, s: Scan) returns (a: Answer)
    requires s.migrating == Migrating(env, s.slot) && s.importing == Importing(env, s.slot)
      && s.channels == HasChannels(q.cmds)
    ensures forall missing, present, different ::
      ((s.migrating || s.importing) ==> (missing <==> s.missing > 0) && (present <==> s.existing > 0))
      && (s.importing ==> (different <==> s.multiple)) ==>
      a == Decide(env, q, s.slot, s.node, missing, present, different)
  {
    hide HasChannels;
    if !env.healthy {
      if s.channels {
        if !env.allowChannels { return Down; }
      } else if !env.allowReads {
        return Down;
      } else if q.writes {
        return DownReadOnly;
      }
    }
    if (s.migrating || s.importing) && q.isMigrate { return Serve; }
    if s.migrating && s.missing > 0 {
      if s.existing > 0 { return TryAgain; }
      return Ask(env.migratingTo(s.slot).value);
    }
    if s.importing && q.asking {
      if s.multiple && s.missing > 0 { return TryAgain; }
      return Serve;
    }
    var isWrite := q.writes || (q.isExec && q.queueWrites);
    if (q.readOnly || s.channels) && !isWrite && env.master == Some(s.node) { return Serve; }
    if s.node != env.myself { return Moved(s.node); }
    return Serve;
  }

  // ----- what the table says

  /** Without channels every key is looked up. */
  lemma {:induction false} LookedAll(cmds: seq<Command>)
    requires !HasChannels(cmds)
    ensures Looked(cmds) == Keys(cmds)
    decreases |cmds|
  {
    if cmds != [] {
      var front := cmds[..|cmds| - 1];
      LookedAll(front);
    }
  }

  /**
   Without channels the answer depends on the arguments of the commands only through the sequence of all keys,
   however they are spread over the commands of a transaction.
   */
  lemma OnlyKeysMatter(env: Env, q: Query, r: Query)
    requires !HasChannels(q.cmds) && !HasChannels(r.cmds) && Keys(q.cmds) == Keys(r.cmds) && r.(cmds := q.cmds) == q
    ensures Table(env, q) == Table(env, r)
  {
    hide HasChannels, Keys, Looked, Migrating, Importing, Missing, Present, Different, OneSlot;
    LookedAll(q.cmds);
    LookedAll(r.cmds);
  }

  /** The keys of the commands, one command after the other. */
  lemma {:induction false} KeysConcat(a: seq<Command>, b: seq<Command>)
    ensures Keys(a + b) == Keys(a) + Keys(b)
    ensures |b| == 1 ==> Keys(b) == b[0].keys
    decreases |b|
  {
    if b == [] {
      assert a + b == a && Keys(a) + [] == Keys(a);
    } else {
      var front, last := b[..|b| - 1], b[|b| - 1];
      KeysConcat(a, front);
      assert (a + b)[..|a + b| - 1] == a + front;
      assert Keys(a) + (Keys(front) + last.keys) == Keys(a) + Keys(front) + last.keys;
      if |b| == 1 { assert front == [] && [] + last.keys == last.keys; }
    }
  }

  /** Presence is looked up for the keys of the commands before the first one on channels. */
  lemma {:induction false} LookedBefore(cmds: seq<Command>, i: nat)
    requires i < |cmds| && cmds[i].channels && forall j :: 0 <= j < i ==> !cmds[j].channels
    ensures Looked(cmds) == Keys(cmds[..i])
    decreases |cmds|
  {
    var front := cmds[..|cmds| - 1];
    assert HasChannels(cmds);
    if i == |cmds| - 1 {
      assert !HasChannels(front);
      LookedAll(front);
    } else {
      LookedBefore(front, i);
      assert front[..i] == cmds[..i];
    }
  }

  /** The query is looked at: it may be redirected, it is not an EXEC without a transaction, and it has keys. */
  ghost predicate Routed(env: Env, q: Query) {
    !env.noRedirection && (q.isExec ==> q.inMulti) && Keys(q.cmds) != []
  }

  ghost predicate Sharded(q: Query) { exists i :: 0 <= i < |q.cmds| && q.cmds[i].channels }

  /** When the slot is not served by anyone, when the keys are in several slots, and when the cluster is down. */
  lemma RefusedIff(env: Env, q: Query)
    requires Routed(env, q)
    ensures var keys := Keys(q.cmds);
      var bound, apart := env.owner(env.slotOf(keys[0])).Some?,
                          exists i :: 0 <= i < |keys| && env.slotOf(keys[i]) != env.slotOf(keys[0]);
      && (Table(env, q) == Unbound <==> !bound)
      && (Table(env, q) == CrossSlot <==> bound && apart)
      && (Table(env, q) == Down <==>
          bound && !apart && !env.healthy && if Sharded(q) then !env.allowChannels else !env.allowReads)
      && (Table(env, q) == DownReadOnly <==>
          bound && !apart && !env.healthy && !Sharded(q) && env.allowReads && q.writes)
  {
    hide Keys, Looked, Missing, Present, Different, Migrating, Importing;
  }

  /** A query that is not looked at is served. */
  lemma NotRouted(env: Env, q: Query)
    requires !Routed(env, q)
    ensures Table(env, q) == Serve
  {
    hide Keys, Looked, OneSlot;
  }

  /** The keys are in one slot, and the cluster is up or answers such queries while it is down. */
  ghost predicate Answerable(env: Env, q: Query) {
    && Routed(env, q) && env.owner(env.slotOf(Keys(q.cmds)[0])).Some?
    && (forall i :: 0 <= i < |Keys(q.cmds)| ==> env.slotOf(Keys(q.cmds)[i]) == env.slotOf(Keys(q.cmds)[0]))
    && (env.healthy || if Sharded(q) then env.allowChannels else env.allowReads && !q.writes)
  }

  /**
   A slot that neither moves away nor is imported: MOVED to its owner, exactly if that is another node and this is not
   a replica of the owner asked for a read by a READONLY client or for a channel.
   */
  lemma SettledSlot(env: Env, q: Query)
    requires Answerable(env, q)
    requires var slot := env.slotOf(Keys(q.cmds)[0]);
      env.importingFrom(slot).None? && (env.owner(slot) == Some(env.myself) ==> env.migratingTo(slot).None?)
    ensures var owner := env.owner(env.slotOf(Keys(q.cmds)[0])).value;
      var replica := env.master == Some(owner) && (q.readOnly || Sharded(q)) && !q.writes
                     && !(q.isExec && q.queueWrites);
      Table(env, q) == if owner != env.myself && !replica then Moved(owner) else Serve
  {
    hide Keys, Looked, Missing, Present, Different;
  }

  /** An imported slot is for clients that ask: others are sent to the owner as if it were not imported. */
  lemma ImportedNotAsked(env: Env, q: Query)
    requires Answerable(env, q) && !q.asking && !q.isMigrate
    requires var slot := env.slotOf(Keys(q.cmds)[0]);
      env.importingFrom(slot).Some? && (env.owner(slot) == Some(env.myself) ==> env.migratingTo(slot).None?)
    ensures var owner := env.owner(env.slotOf(Keys(q.cmds)[0])).value;
      var replica := env.master == Some(owner) && (q.readOnly || Sharded(q)) && !q.writes
                     && !(q.isExec && q.queueWrites);
      Table(env, q) == if owner != env.myself && !replica then Moved(owner) else Serve
  {
    hide Keys, Looked, Missing, Present, Different;
  }

  /** MIGRATE is served wherever the slot moves or is imported. */
  lemma MigrateIsServed(env: Env, q: Query)
    requires Answerable(env, q) && q.isMigrate
    requires var slot := env.slotOf(Keys(q.cmds)[0]);
      env.importingFrom(slot).Some? || (env.owner(slot) == Some(env.myself) && env.migratingTo(slot).Some?)
    ensures Table(env, q) == Serve
  {
    hide Keys, Looked, Missing, Present, Different;
  }

  /** A slot that is being migrated away is served locally only if no key is missing, and then it is. */
  lemma MigratingSlot(env: Env, q: Query)
    requires !env.noRedirection && !(q.isExec && !q.inMulti) && Keys(q.cmds) != [] && !HasChannels(q.cmds)
    requires env.healthy && !q.isMigrate && OneSlot(env, Keys(q.cmds))
    requires var slot := env.slotOf(Keys(q.cmds)[0]); env.owner(slot) == Some(env.myself) && env.migratingTo(slot).Some?
    ensures Table(env, q) == Serve <==> forall i :: 0 <= i < |Keys(q.cmds)| ==> env.has(Keys(q.cmds)[i])
    ensures Table(env, q).Ask? <==> forall i :: 0 <= i < |Keys(q.cmds)| ==> !env.has(Keys(q.cmds)[i])
    ensures Table(env, q) == Serve || Table(env, q) == TryAgain
      || Table(env, q) == Ask(env.migratingTo(env.slotOf(Keys(q.cmds)[0])).value)
  {
    hide HasChannels, Looked, Keys, Different, OneSlot;
    LookedAll(q.cmds);
    var keys := Keys(q.cmds);
    assert env.has(keys[0]) || !env.has(keys[0]);
  }

  /** A slot that is being imported is served to an asking client unless it names several keys and lacks one. */
  lemma ImportingSlot(env: Env, q: Query)
    requires !env.noRedirection && !(q.isExec && !q.inMulti) && Keys(q.cmds) != [] && !HasChannels(q.cmds)
    requires env.healthy && !q.isMigrate && q.asking && OneSlot(env, Keys(q.cmds))
    requires var slot := env.slotOf(Keys(q.cmds)[0]);
      && env.importingFrom(slot).Some? && env.owner(slot).Some?
      && (env.owner(slot) == Some(env.myself) ==> env.migratingTo(slot).None?)
    ensures var keys := Keys(q.cmds);
      Table(env, q) == if (exists i :: 0 <= i < |keys| && keys[i] != keys[0])
                          && (exists i :: 0 <= i < |keys| && !env.has(keys[i])) then TryAgain else Serve
  {
    hide HasChannels, Looked, Keys, OneSlot;
    LookedAll(q.cmds);
  }

  /** So a client may be sent back to the node it asked: one key that is missing from such a slot is enough. */
  lemma AskedToItself(env: Env, q: Query)
    requires !env.noRedirection && !(q.isExec && !q.inMulti) && Keys(q.cmds) != [] && !HasChannels(q.cmds)
    requires env.healthy && !q.isMigrate && OneSlot(env, Keys(q.cmds))
    requires var slot := env.slotOf(Keys(q.cmds)[0]);
      env.owner(slot) == Some(env.myself) && env.migratingTo(slot) == Some(env.myself)
    requires forall i :: 0 <= i < |Keys(q.cmds)| ==> !env.has(Keys(q.cmds)[i])
    ensures Table(env, q) == Ask(env.myself)
  {
    hide Keys, HasChannels, OneSlot, Table;
    MigratingSlot(env, q);
  }

  /**
   A redirection names the owner of the slot, or the node the slot moves to. MOVED never names this node; ASK does so
   exactly if the slot is set to move to this very node, which CLUSTER SETSLOT does not refuse.
   */
  lemma RedirectsElsewhere(env: Env, q: Query)
    requires Table(env, q).Moved? || Table(env, q).Ask?
    ensures Keys(q.cmds) != []
    ensures var slot := env.slotOf(Keys(q.cmds)[0]);
      && (Table(env, q).Moved? ==> env.owner(slot) == Some(Table(env, q).node) && Table(env, q).node != env.myself)
      && (Table(env, q).Ask? ==>
          env.owner(slot) == Some(env.myself) && env.migratingTo(slot) == Some(Table(env, q).node))
      && (Table(env, q).Ask? ==> (Table(env, q).node == env.myself <==> env.migratingTo(slot) == Some(env.myself)))
  {
    hide HasChannels, Looked, Keys, Different, OneSlot, Missing, Present, Importing;
  }
}
