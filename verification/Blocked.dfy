/**
 Blocking and unblocking clients (`blocked.c`). The operations work in place on the index,
 on the clients' flags, on the counters per type, and on the queues of unblocked clients
 and of ready keys; commands that run in between are seen through what they do to these.
 */
module Blocked {
  import opened BlockedIndex

  datatype BType = None | List | Wait | WaitAof | Module | Stream | Zset | Postpone | Shutdown | LazyFree

  predicate OnKeys(t: BType) { t == List || t == Zset || t == Stream || t == Module }

  /** `unblocked` is the flag that says that the client is in the queue of unblocked clients. */
  datatype Client = Client(btype: BType, nokey: bool, pending: bool, unblocked: bool, isModule: bool)

  datatype State = State(ix: Index, clients: map<nat, Client>, byType: map<BType, nat>, regular: nat,
                         queue: seq<nat>, running: seq<Key>, ready: seq<Key>, readyKeys: set<Key>)

  // ----- the invariant

  ghost function Wants(clients: map<nat, Client>): set<nat> { set c | c in clients && clients[c].nokey }

  ghost function Of(clients: map<nat, Client>, t: BType): set<nat> { set c | c in clients && clients[c].btype == t }

  ghost function Regular(clients: map<nat, Client>): set<nat> {
    set c | c in clients && clients[c].btype != None && !clients[c].isModule
  }

  /** The counters are the numbers of blocked clients. */
  ghost predicate TypesOk(clients: map<nat, Client>, byType: map<BType, nat>, regular: nat) {
    && (forall t: BType :: t in byType)
    && (forall t: BType :: t != None ==> byType[t] == |Of(clients, t)|)
    && regular == |Regular(clients)|
  }

  ghost predicate NoTwice<T>(q: seq<T>) { forall i, j :: 0 <= i < j < |q| ==> q[i] != q[j] }

  /** A client is in the queue, once, exactly when its flag says so. */
  ghost predicate QueueOk(clients: map<nat, Client>, queue: seq<nat>) {
    && NoTwice(queue)
    && (forall c :: c in queue ==> c in clients)
    && (forall c :: c in clients ==> (clients[c].unblocked <==> c in queue))
  }

  ghost predicate ReadyOk(ready: seq<Key>, readyKeys: set<Key>) {
    NoTwice(ready) && forall k :: k in readyKeys <==> k in ready
  }

  /** Only clients blocked on keys are in the index or want to hear of deletions. */
  ghost predicate HeldOk(ix: Index, clients: map<nat, Client>) {
    && ix.held.Keys == clients.Keys
    && (forall c :: c in clients && ix.held[c] != map[] ==> OnKeys(clients[c].btype))
    && (forall c :: c in clients && clients[c].nokey ==> OnKeys(clients[c].btype))
  }

  ghost predicate Inv(s: State) {
    && Ok(s.ix, Wants(s.clients)) && HeldOk(s.ix, s.clients)
    && TypesOk(s.clients, s.byType, s.regular) && QueueOk(s.clients, s.queue)
      && ReadyOk(s.running + s.ready, s.readyKeys)
  }

  // ----- counters

  lemma BlockTypes(clients: map<nat, Client>, byType: map<BType, nat>, regular: nat, c: nat, after: Client)
    requires TypesOk(clients, byType, regular) && c in clients && clients[c].btype == None && after.btype != None
    requires after.isModule == clients[c].isModule
    ensures TypesOk(clients[c := after], byType[after.btype := byType[after.btype] + 1],
                    if after.isModule then regular else regular + 1)
  {
    var cs := clients[c := after];
    forall t: BType | t != None ensures Of(cs, t) == if t == after.btype then Of(clients, t) + {c}
      else Of(clients, t) {}
    assert Regular(cs) == if after.isModule then Regular(clients) else Regular(clients) + {c};
  }

  lemma UnblockTypes(clients: map<nat, Client>, byType: map<BType, nat>, regular: nat, c: nat, after: Client)
    requires TypesOk(clients, byType, regular) && c in clients && clients[c].btype != None && after.btype == None
    requires after.isModule == clients[c].isModule
    ensures byType[clients[c].btype] > 0 && (!after.isModule ==> regular > 0)
    ensures TypesOk(clients[c := after], byType[clients[c].btype := byType[clients[c].btype] - 1],
                    if after.isModule then regular else regular - 1)
  {
    var cs, b := clients[c := after], clients[c].btype;
    assert c in Of(clients, b);
    if !after.isModule { assert c in Regular(clients); }
    forall t: BType | t != None ensures Of(cs, t) == if t == b then Of(clients, t) - {c} else Of(clients, t) {}
    assert Regular(cs) == if after.isModule then Regular(clients) else Regular(clients) - {c};
  }

  lemma SameTypes(clients: map<nat, Client>, byType: map<BType, nat>, regular: nat, c: nat, after: Client)
    requires TypesOk(clients, byType, regular) && c in clients
    requires after.btype == clients[c].btype && after.isModule == clients[c].isModule
    ensures TypesOk(clients[c := after], byType, regular)
  {
    var cs := clients[c := after];
    forall t: BType ensures Of(cs, t) == Of(clients, t) {}
    assert Regular(cs) == Regular(clients);
  }

  // ----- what the index operations leave

  /** All entries of the client are gone; the other clients keep their keys and their places. */
  ghost predicate Released(a: Index, b: Index, c: nat)
    requires c in a.held
  {
    && b.held == a.held[c := map[]] && b.next == a.next
    && forall k: Key :: ListOf(b, k) == Others(ListOf(a, k), c)
  }

  /** Some entries of the client are gone. */
  ghost predicate Releasing(a: Index, b: Index, c: nat, done: set<Key>)
    requires c in a.held
  {
    && b.held == a.held[c := a.held[c] - done] && b.next == a.next
    && forall k: Key :: ListOf(b, k) == if k in done then Others(ListOf(a, k), c) else ListOf(a, k)
  }

  lemma ReleaseOne(a: Index, b: Index, c: nat, done: set<Key>, k: Key, flag: bool, wants: set<nat>)
    requires c in a.held && Releasing(a, b, c, done) && Ok(b, wants) && k in b.held[c] && (flag <==> c in wants)
    ensures k in b.waiting && Ok(Leave(b, c, k, flag), wants)
    ensures Releasing(a, Leave(b, c, k, flag), c, done + {k})
  {
    hide Ok, Others, Unlink;
    LeaveOk(b, c, k, flag, wants);
    LeaveKeepsOrder(b, c, k, flag, wants);
    var t := Leave(b, c, k, flag);
    assert t.held[c] == a.held[c] - (done + {k});
    assert t.held == a.held[c := a.held[c] - (done + {k})];
  }

  lemma ReleasedAll(a: Index, b: Index, c: nat, wants: set<nat>)
    requires c in a.held && Ok(a, wants) && Releasing(a, b, c, a.held[c].Keys)
    ensures Released(a, b, c)
  {
    hide Others;
    assert a.held[c] - a.held[c].Keys == map[];
    forall k: Key ensures ListOf(b, k) == Others(ListOf(a, k), c) {
      if k !in a.held[c] {
        InListIff(a, wants, c, k);
        OthersNone(ListOf(a, k), c);
      }
    }
  }

  ghost function KeySet(keys: seq<Key>): set<Key> { set k | k in keys }

  /** The client has been added, with new nodes, at the tail of the lists of these keys, and of no others. */
  ghost predicate Entered(a: Index, b: Index, c: nat, keys: set<Key>)
    requires c in a.held
  {
    && c in b.held && b.held == a.held[c := b.held[c]] && b.held[c].Keys == keys
    && a.next <= b.next && (forall k :: k in keys ==> a.next <= b.held[c][k].id)
    && forall k: Key :: ListOf(b, k) == if k in keys then ListOf(a, k) + [b.held[c][k]] else ListOf(a, k)
  }

  lemma EnterShape(ix: Index, c: nat, k: Key, flag: bool)
    requires c in ix.held && k !in ix.held[c]
    ensures var t := Enter(ix, c, k, flag); var n := Node(ix.next, c);
      && t.held == ix.held[c := ix.held[c][k := n]] && t.next == ix.next + 1
      && forall q: Key :: ListOf(t, q) == if q == k then ListOf(ix, k) + [n] else ListOf(ix, q)
  {}

  lemma EnterAlready(ix: Index, c: nat, k: Key, flag: bool)
    requires c in ix.held && k in ix.held[c]
    ensures Enter(ix, c, k, flag) == ix
  {}

  lemma KeySetSnoc(keys: seq<Key>, j: nat)
    requires j < |keys|
    ensures KeySet(keys[..j + 1]) == KeySet(keys[..j]) + {keys[j]}
  {
    assert keys[..j + 1] == keys[..j] + [keys[j]];
  }

  lemma EnterOne(a: Index, b: Index, c: nat, keys: seq<Key>, j: nat, flag: bool, wants: set<nat>)
    requires c in a.held && j < |keys| && Entered(a, b, c, KeySet(keys[..j])) && Ok(b, wants) && (flag <==> c in wants)
    ensures Ok(Enter(b, c, keys[j], flag), wants)
    ensures Entered(a, Enter(b, c, keys[j], flag), c, KeySet(keys[..j + 1]))
  {
    hide Ok, Enter, KeySet, ListOf;
    EnterOk(b, c, keys[j], flag, wants);
    KeySetSnoc(keys, j);
    var k := keys[j];
    if k in b.held[c] {
      EnterAlready(b, c, k, flag);
      assert KeySet(keys[..j]) + {k} == KeySet(keys[..j]);
    } else {
      EnterShape(b, c, k, flag);
      var t := Enter(b, c, k, flag);
      assert t.held == a.held[c := t.held[c]];
    }
  }

  // ----- what happens while a client is served

  /** The client's command, run again: it finishes, or blocks again. */
  datatype Reply = Finished | Again(btype: BType, keys: seq<Key>, nokey: bool)

  datatype Signal = Signal(key: Key, btype: BType, deleted: bool)

  /** What the look-up of the key finds: a value has the blocking type of its clients, `None` if it has none. */
  datatype Found = NoKey | Value(btype: BType)

  /** The surroundings of one visit: the key, what the client's command does, and the keys it signals. */
  datatype Turn = Turn(found: Found, reply: Reply, signals: seq<Signal>)

  /** Is the waiter to be woken? */
  predicate Matches(cl: Client, f: Found) {
    (f.Value? && cl.btype == f.btype) || (f.Value? && cl.btype == Module) || cl.nokey
  }

  /** Is the waiter's command run again at once? */
  predicate Reruns(cl: Client, f: Found) { Matches(cl, f) && cl.btype != Module }

  /** The client has left all its places, and stands at the tail of the lists of `keys`. */
  ghost predicate Served(a: Index, b: Index, c: nat, keys: set<Key>)
    requires c in a.held
  {
    && c in b.held && b.held == a.held[c := b.held[c]] && b.held[c].Keys == keys
    && a.next <= b.next && (forall k :: k in keys ==> a.next <= b.held[c][k].id)
    && forall k: Key :: ListOf(b, k) == Others(ListOf(a, k), c) + if k in keys then [b.held[c][k]] else []
  }

  /** Does the waiter stay? It does if a module has to look at it, or if there is nothing of the kind it waits for. */
  ghost predicate Stays(cl: Client, f: Found) {
    cl.btype == Module || (!cl.nokey && (f.NoKey? || f.btype != cl.btype))
  }

  lemma StaysIs(cl: Client, f: Found)
    ensures Stays(cl, f) <==> !Reruns(cl, f)
  {}

  /** The nodes that are not new were in the same lists before, and their clients are as they were. */
  ghost predicate Kept(a: Index, cs: map<nat, Client>, b: Index, ds: map<nat, Client>) {
    && a.next <= b.next
    && forall k: Key, n: Node :: n in ListOf(b, k) && n.id < a.next ==>
      n in ListOf(a, k) && n.client in cs && n.client in ds && ds[n.client] == cs[n.client]
  }

  ghost predicate SameClient(a: Index, cs: map<nat, Client>, b: Index, ds: map<nat, Client>, d: nat) {
    && d in cs && d in ds && ds[d] == cs[d]
    && d in a.held && d in b.held && b.held[d] == a.held[d]
  }

  /** If someone waits for what the signal is about, the key is ready. */
  ghost predicate Heard(ix: Index, clients: map<nat, Client>, readyKeys: set<Key>, sig: Signal) {
    sig.btype != None ==> forall i :: 0 <= i < |ListOf(ix, sig.key)| ==>
      var c := ListOf(ix, sig.key)[i].client;
      && c in clients
      && ((clients[c].btype == sig.btype || clients[c].btype == Module) && (sig.deleted ==> clients[c].nokey) ==>
          sig.key in readyKeys)
  }

  class Blocking {
    var ix: Index
    var clients: map<nat, Client>
    var byType: map<BType, nat>
    var regular: nat
    var queue: seq<nat>
    /** The part of an earlier `ready` that is being worked off. */
    var running: seq<Key>
    var ready: seq<Key>
    var readyKeys: set<Key>

    ghost function Value(): State
      reads this
    {
      State(ix, clients, byType, regular, queue, running, ready, readyKeys)
    }

    ghost predicate Valid()
      reads this
    {
      Inv(Value())
    }

    /** No one is blocked. */
    constructor (members: map<nat, bool>)
      ensures Valid() && clients == (map c | c in members :: Client(None, false, false, false, members[c]))
        && running == []
    {
      clients := map c | c in members :: Client(None, false, false, false, members[c]);
      ix := Index(map[], map[], map c | c in members :: map[], 0);
      byType := Zero();
      regular, queue, running, ready, readyKeys := 0, [], [], [], {};
      new;
      StartInv(Value());
    }

    /** `blockClient` as `blockForReplication`, `blockForAofFsync`, `blockPostponeClient` and others call it. */
    method BlockClient(c: nat, btype: BType)
      requires Valid() && c in clients && clients[c].btype == None && btype != None
      modifies `clients, `byType, `regular
      ensures Valid() && clients == old(clients)[c := old(clients[c]).(btype := btype)]
    {
      hide Inv;
      BlockedElsewhere(Value(), c, btype);
      if !clients[c].isModule { regular := regular + 1; }
      byType := byType[btype := byType[btype] + 1];
      clients := clients[c := clients[c].(btype := btype)];
    }

    /** `processUnblockedClients` takes the first client off the queue. */
    method TakeUnblocked() returns (c: nat)
      requires Valid() && queue != []
      modifies `clients, `queue
      ensures Valid() && c == old(queue)[0] && queue == old(queue)[1..] && c in old(clients)
      ensures clients == old(clients)[c := old(clients)[c].(unblocked := false)]
    {
      hide Inv;
      TakenInv(Value());
      c := queue[0];
      queue := queue[1..];
      clients := clients[c := clients[c].(unblocked := false)];
    }

    /** `blockForKeys`. */
    method BlockForKeys(c: nat, btype: BType, keys: seq<Key>, nokey: bool)
      requires Valid() && c in clients && clients[c].btype == None && OnKeys(btype)
      modifies `ix, `clients, `byType, `regular
      ensures Valid() && Entered(old(ix), ix, c, KeySet(keys))
      ensures clients == old(clients)[c := old(clients[c]).(btype := btype, nokey := nokey,
        pending := old(clients[c]).pending || btype != Module)]
    {
      hide Ok, Entered, Inv, Wants, KeySet, OnKeys;
      ghost var s, wants := Value(), if nokey then Wants(clients) + {c} else Wants(clients);
      BlockStart(s, c, nokey);
      AddWaiters(c, keys, nokey, wants);
      var client := clients[c];
      client := client.(nokey := nokey, pending := client.pending || btype != Module, btype := btype);
      BlockedInv(s, ix, c, keys, client, wants);
      clients := clients[c := client];
      if !client.isModule { regular := regular + 1; }
      byType := byType[btype := byType[btype] + 1];
    }

    /** The loop of `blockForKeys`. */
    method AddWaiters(c: nat, keys: seq<Key>, nokey: bool, ghost wants: set<nat>)
      requires c in ix.held && ix.held[c] == map[] && Ok(ix, wants) && (nokey <==> c in wants)
      modifies `ix
      ensures Ok(ix, wants) && Entered(old(ix), ix, c, KeySet(keys))
    {
      hide Ok, Entered, Enter, KeySet;
      EnteredNone(ix, c);
      assert keys[..0] == [];
      for j := 0 to |keys|
        invariant Ok(ix, wants) && c in ix.held && Entered(old(ix), ix, c, KeySet(keys[..j]))
      {
        EnterOne(old(ix), ix, c, keys, j, nokey, wants);
        AddWaiter(c, keys[j], nokey);
        EnteredHeld(old(ix), ix, c, KeySet(keys[..j + 1]));
      }
      assert keys[..|keys|] == keys;
    }

    /** One key of `blockForKeys`. */
    method AddWaiter(c: nat, k: Key, nokey: bool)
      requires c in ix.held
      modifies `ix
      ensures ix == Enter(old(ix), c, k, nokey)
    {
      if k in ix.held[c] { return; }
      var node := Node(ix.next, c);
      var list := if k in ix.waiting then ix.waiting[k] else [];
      var waiting := ix.waiting[k := list + [node]];
      var held := ix.held[c := ix.held[c][k := node]];
      var counts := ix.nokey;
      if nokey {
        counts := if k in counts then counts[k := counts[k] + 1] else counts[k := 1];
      }
      ix := Index(waiting, counts, held, ix.next + 1);
    }

    /** `releaseBlockedEntry`. What it asserts on the way is what it requires here. */
    method ReleaseBlockedEntry(c: nat, k: Key, removeKey: bool)
      requires c in clients && c in ix.held && k in ix.held[c]
      requires k in ix.waiting && (clients[c].nokey ==> k in ix.nokey)
      modifies `ix
      ensures var left := Leave(old(ix), c, k, clients[c].nokey);
        ix == if removeKey then left else left.(held := old(ix).held)
    {
      var pos := ix.held[c][k];
      var list := Unlink(ix.waiting[k], pos);
      var waiting, counts := ix.waiting, ix.nokey;
      if list == [] {
        waiting, counts := waiting - {k}, counts - {k};
      } else {
        waiting := waiting[k := list];
        if clients[c].nokey {
          counts := if counts[k] <= 1 then counts - {k} else counts[k := counts[k] - 1];
        }
      }
      var held := if removeKey then ix.held[c := ix.held[c] - {k}] else ix.held;
      ix := Index(waiting, counts, held, ix.next);
    }

    /** `unblockClientWaitingData`: every entry of the client is released, then its dictionary is emptied. */
    method UnblockClientWaitingData(c: nat, ghost wants: set<nat>)
      requires c in clients && c in ix.held && Ok(ix, wants) && (clients[c].nokey <==> c in wants)
      modifies `ix
      ensures Ok(ix, wants) && Released(old(ix), ix, c)
    {
      hide Ok, Releasing, Released, Leave;
      var todo := ix.held[c].Keys;
      ghost var done, view := {}, ix;
      ReleasingNone(ix, c);
      while todo != {}
        invariant todo + done == old(ix).held[c].Keys && todo !! done
        invariant ix.held == old(ix).held && ix.waiting == view.waiting && ix.nokey == view.nokey
          && ix.next == view.next
        invariant view.held == ix.held[c := ix.held[c] - done]
        invariant Ok(view, wants) && Releasing(old(ix), view, c, done)
        decreases |todo|
      {
        var k :| k in todo;
        ReleaseOne(old(ix), view, c, done, k, clients[c].nokey, wants);
        LeaveOk(view, c, k, clients[c].nokey, wants);
        LeaveSees(ix, view, c, k, clients[c].nokey);
        ReleaseBlockedEntry(c, k, false);
        view := Leave(view, c, k, clients[c].nokey);
        ReleasingHeld(old(ix), view, c, done + {k});
        todo, done := todo - {k}, done + {k};
      }
      assert done == old(ix).held[c].Keys;
      ReleasedAll(old(ix), view, c, wants);
      ReleasedHeld(old(ix), view, c);
      ix := ix.(held := ix.held[c := map[]]);
      assert ix == view;
    }

    /** `queueClientForReprocessing`. */
    method QueueClientForReprocessing(c: nat)
      requires Valid() && c in clients
      modifies `clients, `queue
      ensures Valid()
      ensures clients == old(clients)[c := old(clients[c]).(unblocked := true)]
      ensures queue == if old(clients[c]).unblocked then old(queue) else old(queue) + [c]
    {
      hide Inv;
      assert clients[c := clients[c].(unblocked := clients[c].unblocked)] == clients;
      if !clients[c].unblocked {
        QueuedInv(Value(), c);
        clients := clients[c := clients[c].(unblocked := true)];
        queue := queue + [c];
      }
    }

    /** `unblockClient`: whatever the client waits for, it is taken out of the index and of the counters. */
    method UnblockClient(c: nat, requeue: bool)
      requires Valid() && c in clients && clients[c].btype != None
      modifies `ix, `clients, `byType, `regular, `queue
      ensures Valid() && c in old(ix).held && Released(old(ix), ix, c)
      ensures clients == old(clients)[c := old(clients[c]).(btype := None, nokey := false,
        unblocked := old(clients[c]).unblocked || requeue)]
      ensures queue == if requeue && !old(clients[c]).unblocked then old(queue) + [c] else old(queue)
    {
      hide Inv, Ok, Released, Wants;
      ghost var s, wants := Value(), Wants(clients);
      UnblockStart(s, c);
      if OnKeys(clients[c].btype) {
        UnblockClientWaitingData(c, wants);
      } else {
        NothingHeld(s, c);
      }
      var client := clients[c];
      UnblockedInv(s, ix, c, client.(btype := None, nokey := false));
      if !client.isModule { regular := regular - 1; }
      byType := byType[client.btype := byType[client.btype] - 1];
      clients := clients[c := client.(btype := None, nokey := false)];
      if requeue { QueueClientForReprocessing(c); }
    }

    /** `unblockClientOnTimeout` and `unblockClientOnError`. */
    method UnblockWithReply(c: nat)
      requires Valid() && c in clients && clients[c].btype != None
      modifies `ix, `clients, `byType, `regular, `queue
      ensures Valid() && c in old(ix).held && Released(old(ix), ix, c)
      ensures clients == old(clients)[c := old(clients[c]).(btype := None, nokey := false, pending := false,
        unblocked := true)]
    {
      hide Inv, Released;
      PendingInv(Value(), c, false);
      clients := clients[c := clients[c].(pending := false)];
      UnblockClient(c, true);
    }

    /** `signalKeyAsReadyLogic`. No waiter that the key could be for is missed by the early returns. */
    method SignalKeyAsReady(sig: Signal)
      requires Valid()
      modifies `ready, `readyKeys
      ensures Valid()
      ensures (ready == old(ready) && readyKeys == old(readyKeys))
        || (ready == old(ready) + [sig.key] && readyKeys == old(readyKeys) + {sig.key}
            && sig.key !in old(readyKeys) && sig.key in ix.waiting)
      ensures sig.btype != None ==> forall i :: 0 <= i < |ListOf(ix, sig.key)| ==>
        var cl := clients[ListOf(ix, sig.key)[i].client];
        (cl.btype == sig.btype || cl.btype == Module) && (sig.deleted ==> cl.nokey) ==> sig.key in readyKeys
    {
      hide Inv;
      SignalSafe(Value(), sig);
      if sig.btype == None { return; }
      if byType[sig.btype] == 0 && byType[Module] == 0 { return; }
      if sig.deleted {
        if sig.key !in ix.nokey { return; }
      } else {
        if sig.key !in ix.waiting { return; }
      }
      if sig.key in readyKeys { return; }
      ReadyInv(Value(), sig.key);
      readyKeys := readyKeys + {sig.key};
      ready := ready + [sig.key];
    }

    /** The first half of `unblockClientOnKey`: the client leaves all its lists. */
    method TakeOff(c: nat, k: Key)
      requires Valid() && c in clients && c in ix.held && k in ix.held[c]
      modifies `ix, `clients, `byType, `regular, `queue
      ensures Valid() && c in ix.held && Served(old(ix), ix, c, {}) && queue == old(queue)
      ensures clients == old(clients)[c := old(clients[c]).(btype := None, nokey := false)]
    {
      hide Inv, Ok, Released, Served, Leave;
      ghost var s := Value();
      UnblockStart(s, c);
      OnKeyStart(s, c, k);
      LeaveOk(ix, c, k, clients[c].nokey, Wants(clients));
      ReleaseBlockedEntry(c, k, true);
      LeftInv(s, c, k);
      ghost var mid := ix;
      UnblockClient(c, false);
      LeftThenReleased(s, mid, ix, c, k);
      ServedOut(old(ix), ix, c);
    }

    /**
     `unblockClientOnKey`: the client is unblocked and its command runs again. If that finishes, the client is queued,
     except one of a module, whose handler is called.
     */
    method UnblockClientOnKey(c: nat, k: Key, reply: Reply)
      requires Valid() && c in clients && c in ix.held && k in ix.held[c] && clients[c].btype != Module
      requires reply.Again? ==> OnKeys(reply.btype)
      modifies `ix, `clients, `byType, `regular, `queue
      ensures Valid() && c in old(ix).held
      ensures Served(old(ix), ix, c, if old(clients[c]).pending && reply.Again? then KeySet(reply.keys) else {})
      ensures clients.Keys == old(clients).Keys && forall d :: d in clients && d != c ==> clients[d] == old(clients)[d]
      ensures var was := old(clients[c]);
        queue == if was.pending && reply.Finished? && !was.isModule && !was.unblocked then old(queue) + [c]
                 else old(queue)
    {
      hide Inv, Entered, Served, KeySet;
      TakeOff(c, k);
      if clients[c].pending {
        PendingInv(Value(), c, false);
        clients := clients[c := clients[c].(pending := false)];
        match reply {
          case Finished => if !clients[c].isModule { QueueClientForReprocessing(c); }
          case Again(btype, keys, nokey) =>
            ghost var out := ix;
            BlockForKeys(c, btype, keys, nokey);
            ServedAgain(old(ix), out, ix, c, KeySet(keys));
        }
      }
    }

    /** No signal is lost. */
    method SignalAll(signals: seq<Signal>)
      requires Valid()
      modifies `ready, `readyKeys
      ensures Valid() && old(readyKeys) <= readyKeys && old(ready) <= ready
      ensures forall sig :: sig in signals ==> Heard(ix, clients, readyKeys, sig)
    {
      hide Inv;
      for i := 0 to |signals|
        invariant Valid() && old(readyKeys) <= readyKeys && old(ready) <= ready
        invariant forall j :: 0 <= j < i ==> Heard(ix, clients, readyKeys, signals[j])
      {
        SignalKeyAsReady(signals[i]);
        WaitersKnown(Value(), signals[i].key);
      }
    }

    /** One visit of `handleClientsBlockedOnKey`: `added` are the nodes that appear at the tail of the key's list. */
    method Serve(k: Key, node: Node, turn: Turn) returns (added: seq<Node>)
      requires Valid() && node in ListOf(ix, k) && (turn.reply.Again? ==> OnKeys(turn.reply.btype))
      modifies `ix, `clients, `byType, `regular, `queue, `ready, `readyKeys
      ensures Valid() && clients.Keys == old(clients).Keys && node.client in old(clients)
      ensures forall d :: d in clients && d != node.client ==> clients[d] == old(clients)[d]
      ensures forall d :: d in clients && (d != node.client || !Reruns(old(clients)[d], turn.found)) ==>
        SameClient(old(ix), old(clients), ix, clients, d)
      ensures Kept(old(ix), old(clients), ix, clients)
      ensures forall i :: 0 <= i < |added| ==> old(ix).next <= added[i].id
      ensures old(readyKeys) <= readyKeys && (Matches(old(clients)[node.client], turn.found) ==>
        forall sig :: sig in turn.signals ==> Heard(ix, clients, readyKeys, sig))
      ensures ListOf(ix, k) ==
        (if Reruns(old(clients)[node.client], turn.found) then Others(ListOf(old(ix), k), node.client)
          else ListOf(old(ix), k))
        + added
    {
      hide Inv, Others, KeySet, Kept, Served, Heard, SameClient, ListOf;
      var c := node.client;
      WaiterHolds(Value(), k, node);
      KeptSame(Value());
      added := [];
      assert ListOf(ix, k) + added == ListOf(ix, k);
      if Matches(clients[c], turn.found) {
        if clients[c].btype != Module {
          ghost var keys := if clients[c].pending && turn.reply.Again? then KeySet(turn.reply.keys) else {};
          UnblockClientOnKey(c, k, turn.reply);
          KeptServed(old(Value()), Value(), c, keys);
          ServedAt(old(ix), ix, c, keys, k);
          added := if k in ix.held[c] then [ix.held[c][k]] else [];
        }
        SignalAll(turn.signals);
      }
    }

    /**
     `handleClientsBlockedOnKey`: the clients that wait for the key when it starts are visited once each, first
     come first served. Those whose command does not run again stay in their order, in front of those that block
     again, however many.
     */
    method HandleClientsBlockedOnKey(k: Key, env: nat -> Turn, n: nat)
      returns (visited: seq<nat>, again: seq<Node>, ghost at: seq<nat>)
      requires Valid() && forall i: nat :: env(i).reply.Again? ==> OnKeys(env(i).reply.btype)
      modifies `ix, `clients, `byType, `regular, `queue, `ready, `readyKeys
      ensures Valid() && clients.Keys == old(clients).Keys
      ensures visited == ClientsOf(ListOf(old(ix), k))
      ensures Known(ListOf(old(ix), k), old(clients))
      ensures ListOf(ix, k) == Unserved(ListOf(old(ix), k), old(clients), env, n) + again
      ensures Rising(at, 0, |ListOf(old(ix), k)|) && ListOf(ix, k) == Pick(ListOf(old(ix), k), at) + again
      ensures forall i: nat :: i < |ListOf(old(ix), k)| ==>
        var waiter := ListOf(old(ix), k)[i];
        var cl, found := old(clients)[waiter.client], env(n + i).found;
        && (cl.btype != Module && (cl.nokey || (found.Value? && found.btype == cl.btype)) ==>
            i !in at && waiter !in ListOf(ix, k))
        && (cl.btype == Module || (!cl.nokey && (found.NoKey? || found.btype != cl.btype)) ==>
            i in at && waiter in ListOf(ix, k) && clients[waiter.client] == cl)
      ensures Kept(old(ix), old(clients), ix, clients)
      ensures Calm(old(Value()), Value(), ListOf(old(ix), k), env, n)
    {
      hide Inv, Others, Pass, Reruns, Following, Kept, SameClient, Calm, Unserved, Rising;
      visited, again := [], [];
      ghost var all := ListOf(ix, k);
      ghost var p := Progress([], all, [], []);
      WaitersKnown(Value(), k);
      PassStart(all, clients, env, n);
      KeptSame(Value());
      CalmStart(Value(), env, n);
      at := StayingAt(all, 0, clients, env, n);
      if k !in ix.waiting { return; }
      var next := At(ix.waiting[k][0]);
      var count := |ix.waiting[k]|;
      while next.At? && count > 0
        invariant Valid() && clients.Keys == old(clients).Keys
        invariant count == |p.rest| && visited == p.visited && again == p.again
        invariant p.rest != [] ==> next == At(p.rest[0])
        invariant Pass(p, ListOf(ix, k), clients, all, old(clients), env, n)
        invariant Kept(old(ix), old(clients), ix, clients)
        invariant |visited| <= |all| && Calm(old(Value()), Value(), all[..|visited|], env, n)
        invariant forall i :: 0 <= i < |again| ==> old(ix).next <= again[i].id
        decreases count
      {
        var node, turn := next.node, env(n + |visited|);
        PassPlace(Value(), k, p, all, old(clients), env, n);
        next := Following(ix.waiting[k], node);
        count := count - 1;
        ghost var list, before, here := ListOf(ix, k), clients, Value();
        var added := Serve(k, node, turn);
        PassTurn(p, list, before, ListOf(ix, k), clients, added, all, old(clients), env, n);
        KeptOn(old(Value()), here, Value());
        CalmOn(old(Value()), here, Value(), all, |visited|, env, n);
        p := Advance(p, added, Reruns(before[node.client], turn.found));
        visited := visited + [node.client];
        again := again + added;
      }
      PassEnd(p, ListOf(ix, k), clients, all, old(clients), env, n);
      assert all[..|visited|] == all;
      PickedOnly(old(Value()), Value(), k, env, n, at, again);
    }

    /** The first of the keys that were ready is handled. */
    method HandleReadyKey(env: nat -> Turn, n: nat, ghost s: State, ghost handled: seq<Key>, ghost keys: seq<Key>)
      returns (visited: seq<nat>)
      requires Valid() && running != [] && forall i: nat :: env(i).reply.Again? ==> OnKeys(env(i).reply.btype)
      requires Inv(s) && Kept(s.ix, s.clients, ix, clients) && Gone(s, ix, handled, env)
      requires running[0] in keys && Still(s, ix, clients, keys)
      modifies this
      ensures Valid() && running == old(running)[1..] && clients.Keys == old(clients).Keys
      ensures Kept(s.ix, s.clients, ix, clients) && Gone(s, ix, handled + [old(running)[0]], env)
      ensures Still(s, ix, clients, keys)
    {
      hide Inv, Kept, Calm, Unserved, SameClient, Rising, Gone, Still, Pick, ListOf, ClientsOf;
      var k := running[0];
      NextReady(Value());
      readyKeys := readyKeys - {k};
      running := running[1..];
      ghost var here := Value();
      ghost var at;
      var again;
      visited, again, at := HandleClientsBlockedOnKey(k, env, n);
      ReadyTurn(s, here, Value(), handled, keys, k, env, n);
    }

    /** The inner loop of `handleClientsBlockedOnKeys`: the keys that were ready are handled in order, once each. */
    method HandleReadyList(env: nat -> Turn) returns (handled: seq<Key>)
      requires Valid() && running == [] && forall i: nat :: env(i).reply.Again? ==> OnKeys(env(i).reply.btype)
      modifies this
      ensures Valid() && running == [] && handled == old(ready) && clients.Keys == old(clients).Keys
      ensures forall k, waiter :: k in old(ready) && waiter in ListOf(old(ix), k) ==>
        && waiter.client in old(clients)
        && var cl := old(clients)[waiter.client];
           (cl.btype != Module && (cl.nokey || forall i: nat :: env(i).found == Found.Value(cl.btype)) ==>
            waiter !in ListOf(ix, k))
      ensures forall d :: d in old(clients) && d in old(ix).held ==>
        (old(clients)[d].btype == Module || forall k :: k in old(ready) ==> k !in old(ix).held[d]) ==>
          SameClient(old(ix), old(clients), ix, clients, d)
    {
      hide Inv, Kept, SameClient, Gone, Still, ListOf;
      ghost var start := Value();
      assert [] + ready == ready + [];
      TakeReady(Value());
      running, ready := ready, [];
      handled := [];
      KeptSame(Value());
      StillStart(start);
      GoneStart(start, ix, env);
      var n: nat := 0;
      while running != []
        invariant Valid() && handled + running == old(ready) && clients.Keys == old(clients).Keys
        invariant Kept(start.ix, start.clients, ix, clients)
        invariant Gone(start, ix, handled, env)
        invariant Still(start, ix, clients, old(ready))
        decreases |running|
      {
        var k := running[0];
        assert k in old(ready) && handled + [k] + running[1..] == old(ready);
        var visited := HandleReadyKey(env, n, start, handled, old(ready));
        handled := handled + [k];
        n := n + |visited|;
      }
      assert handled == old(ready);
      ReadyGone(start, Value(), handled, env);
      StillEnd(start, Value(), handled);
    }
  }

  // ----- who stays in a list, and who is gone

  /** Places of a list, from `lo` on, in order. */
  ghost predicate Rising(at: seq<nat>, lo: nat, hi: nat) {
    && (forall i :: 0 <= i < |at| ==> lo <= at[i] < hi)
    && forall i, j :: 0 <= i < j < |at| ==> at[i] < at[j]
  }

  ghost function Pick(l: seq<Node>, at: seq<nat>): seq<Node>
    requires forall i :: 0 <= i < |at| ==> at[i] < |l|
  {
    seq(|at|, i requires 0 <= i < |at| => l[at[i]])
  }

  /** The waiters that are left are those at the places where they stay. */
  lemma {:induction false} StayingAt(l: seq<Node>, i: nat, clients: map<nat, Client>, env: nat -> Turn, n: nat)
    returns (at: seq<nat>)
    requires Known(l, clients) && i <= |l|
    ensures Known(l[i..], clients) && Rising(at, i, |l|) && Unserved(l[i..], clients, env, n + i) == Pick(l, at)
    ensures forall j: nat :: i <= j < |l| ==> (j in at <==> Stays(clients[l[j].client], env(n + j).found))
    decreases |l| - i
  {
    hide Reruns, Stays, Pick, Unserved, Rising;
    if i == |l| {
      at := [];
      UnservedNone(clients, env, n + i);
      NoneRises(l, i);
      assert l[i..] == [];
    } else {
      var rest := StayingAt(l, i + 1, clients, env, n);
      var f := env(n + i).found;
      StaysIs(clients[l[i].client], f);
      assert l[i..][1..] == l[i + 1..] && l[i..][0] == l[i];
      UnservedHead(l[i..], clients, env, n + i);
      at := if Stays(clients[l[i].client], f) then [i] + rest else rest;
      PickStep(l, i, rest, Stays(clients[l[i].client], f));
    }
  }

  lemma UnservedHead(l: seq<Node>, clients: map<nat, Client>, env: nat -> Turn, n: nat)
    requires l != [] && Known(l, clients)
    ensures Known(l[1..], clients)
    ensures Unserved(l, clients, env, n) ==
      (if Reruns(clients[l[0].client], env(n).found) then [] else [l[0]]) + Unserved(l[1..], clients, env, n + 1)
  {
    hide Reruns;
    assert Known(l[1..], clients);
  }

  lemma NoneRises(l: seq<Node>, i: nat)
    ensures Rising([], i, |l|) && Pick(l, []) == []
  {}

  lemma PickStep(l: seq<Node>, i: nat, rest: seq<nat>, stays: bool)
    requires i < |l| && Rising(rest, i + 1, |l|)
    ensures var at := if stays then [i] + rest else rest;
      && Rising(at, i, |l|) && Pick(l, at) == (if stays then [l[i]] else []) + Pick(l, rest)
      && i !in rest && forall j: nat :: j in at <==> j in rest || (j == i && stays)
  {
    hide Rising;
    RisingStep(i, rest, |l|);
    if stays { assert Pick(l, [i] + rest) == [l[i]] + Pick(l, rest); }
  }

  lemma RisingStep(i: nat, rest: seq<nat>, hi: nat)
    requires i < hi && Rising(rest, i + 1, hi)
    ensures Rising(rest, i, hi) && Rising([i] + rest, i, hi) && i !in rest
    ensures forall j :: 0 <= j < |rest| ==> rest[j] < hi
    ensures forall j :: 0 <= j < |[i] + rest| ==> ([i] + rest)[j] < hi
  {}

  lemma RowIds(s: State, k: Key)
    requires Inv(s)
    ensures NoTwice(ListOf(s.ix, k)) && forall i :: 0 <= i < |ListOf(s.ix, k)| ==> ListOf(s.ix, k)[i].id < s.ix.next
  {
    hide TypesOk, QueueOk, ReadyOk, CountsOk, ColsOk;
    if k in s.ix.waiting {
      assert RowOk(s.ix, k);
      var l := s.ix.waiting[k];
      forall i | 0 <= i < |l| ensures l[i].id < s.ix.next { assert NodeOk(s.ix, k, l[i]); }
    }
  }

  /** A waiter is still in the list exactly if its place is one of those that are left. */
  lemma PickedOnly(s: State, t: State, k: Key, env: nat -> Turn, n: nat, at: seq<nat>, again: seq<Node>)
    requires Inv(s) && Known(ListOf(s.ix, k), s.clients) && Rising(at, 0, |ListOf(s.ix, k)|)
    requires ListOf(t.ix, k) == Pick(ListOf(s.ix, k), at) + again
    requires forall i :: 0 <= i < |again| ==> s.ix.next <= again[i].id
    requires Kept(s.ix, s.clients, t.ix, t.clients)
    requires forall j: nat :: j < |ListOf(s.ix, k)| ==>
      (j in at <==> Stays(s.clients[ListOf(s.ix, k)[j].client], env(n + j).found))
    ensures forall j: nat :: j < |ListOf(s.ix, k)| ==>
      var w := ListOf(s.ix, k)[j];
      && (Stays(s.clients[w.client], env(n + j).found) <==> w in ListOf(t.ix, k))
      && (w in ListOf(t.ix, k) ==> w.client in t.clients && t.clients[w.client] == s.clients[w.client])
  {
    hide Inv, Stays, ListOf;
    RowIds(s, k);
    var l, m := ListOf(s.ix, k), ListOf(t.ix, k);
    forall j: nat | j < |l|
      ensures j in at <==> l[j] in m
    {
      if j in at {
        var i :| 0 <= i < |at| && at[i] == j;
        assert m[i] == l[j];
      }
      if l[j] in m {
        var i :| 0 <= i < |m| && m[i] == l[j];
        assert l[at[i]] == l[j];
      }
    }
  }

  lemma KeptSame(s: State)
    requires Inv(s)
    ensures Kept(s.ix, s.clients, s.ix, s.clients)
    ensures forall d :: d in s.clients ==> SameClient(s.ix, s.clients, s.ix, s.clients, d)
  {
    hide TypesOk, QueueOk, ReadyOk, Ok, ListOf;
    forall k: Key, n: Node | n in ListOf(s.ix, k) ensures n.client in s.clients { WaiterHolds(s, k, n); }
  }

  lemma KeptServed(s: State, t: State, c: nat, keys: set<Key>)
    requires Inv(s) && c in s.ix.held && Served(s.ix, t.ix, c, keys) && t.clients.Keys == s.clients.Keys
    requires forall d :: d in t.clients && d != c ==> t.clients[d] == s.clients[d]
    ensures Kept(s.ix, s.clients, t.ix, t.clients)
    ensures forall d :: d in t.clients && d != c ==> SameClient(s.ix, s.clients, t.ix, t.clients, d)
  {
    hide TypesOk, QueueOk, ReadyOk, Ok, ListOf, Others;
    forall k: Key, n: Node | n in ListOf(t.ix, k) && n.id < s.ix.next
      ensures n in ListOf(s.ix, k) && n.client in s.clients && n.client != c
    {
      assert n in Others(ListOf(s.ix, k), c);
      OthersIn(ListOf(s.ix, k), c, n);
      WaiterHolds(s, k, n);
    }
  }

  lemma ServedAt(a: Index, b: Index, c: nat, keys: set<Key>, k: Key)
    requires c in a.held && Served(a, b, c, keys)
    ensures c in b.held && (k in b.held[c] ==> a.next <= b.held[c][k].id)
    ensures ListOf(b, k) == Others(ListOf(a, k), c) + if k in b.held[c] then [b.held[c][k]] else []
  {
    hide Others, ListOf;
  }

  lemma {:induction false} OthersIn(l: seq<Node>, c: nat, n: Node)
    ensures n in Others(l, c) <==> n in l && n.client != c
    decreases |l|
  {
    if l != [] { OthersIn(l[1..], c, n); }
  }

  lemma KeptOn(a: State, b: State, d: State)
    requires Kept(a.ix, a.clients, b.ix, b.clients) && Kept(b.ix, b.clients, d.ix, d.clients)
    ensures a.ix.next <= b.ix.next && Kept(a.ix, a.clients, d.ix, d.clients)
  {
    hide ListOf;
  }

  /** A client that stays at each of these visits to it is as it was. */
  ghost predicate Calm(s: State, t: State, l: seq<Node>, env: nat -> Turn, n: nat) {
    forall d :: d in s.clients && CalmAt(s.clients[d], d, l, env, n) ==> SameClient(s.ix, s.clients, t.ix, t.clients, d)
  }

  ghost predicate CalmAt(cl: Client, d: nat, l: seq<Node>, env: nat -> Turn, n: nat) {
    forall i: nat :: i < |l| && l[i].client == d ==> Stays(cl, env(n + i).found)
  }

  lemma CalmStart(s: State, env: nat -> Turn, n: nat)
    requires Inv(s)
    ensures Calm(s, s, [], env, n)
  {
    hide Inv, SameClient;
    KeptSame(s);
  }

  lemma CalmOn(a: State, b: State, t: State, all: seq<Node>, m: nat, env: nat -> Turn, n: nat)
    requires m < |all| && Calm(a, b, all[..m], env, n) && t.clients.Keys == b.clients.Keys
    requires forall d :: d in t.clients && (d != all[m].client || !Reruns(b.clients[d], env(n + m).found)) ==>
      SameClient(b.ix, b.clients, t.ix, t.clients, d)
    ensures Calm(a, t, all[..m + 1], env, n)
  {
    hide Reruns, Stays;
    forall d | d in a.clients && CalmAt(a.clients[d], d, all[..m + 1], env, n)
      ensures SameClient(a.ix, a.clients, t.ix, t.clients, d)
    {
      var l, l' := all[..m], all[..m + 1];
      assert forall i: nat :: i < |l| ==> l[i] == l'[i];
      assert CalmAt(a.clients[d], d, l, env, n);
      assert l'[m] == all[m];
      StaysIs(a.clients[d], env(n + m).found);
    }
  }

  /** The waiters for these keys that could be served are gone. */
  ghost predicate Gone(s: State, ix: Index, keys: seq<Key>, env: nat -> Turn) {
    forall k, w :: k in keys && w in ListOf(s.ix, k) && w.client in s.clients && Ever(s.clients[w.client], env) ==>
      w !in ListOf(ix, k)
  }

  ghost predicate Ever(cl: Client, env: nat -> Turn) {
    cl.btype != Module && (cl.nokey || forall i: nat :: env(i).found == Value(cl.btype))
  }

  lemma GoneStart(s: State, ix: Index, env: nat -> Turn)
    ensures Gone(s, ix, [], env)
  {}

  lemma GoneOn(s: State, a: State, b: State, keys: seq<Key>, k: Key, env: nat -> Turn, n: nat)
    requires Inv(s) && Gone(s, a.ix, keys, env)
    requires Kept(s.ix, s.clients, a.ix, a.clients) && Kept(a.ix, a.clients, b.ix, b.clients)
    requires Known(ListOf(a.ix, k), a.clients) && forall i: nat :: i < |ListOf(a.ix, k)| ==>
        Ever(a.clients[ListOf(a.ix, k)[i].client], env) ==> ListOf(a.ix, k)[i] !in ListOf(b.ix, k)
    ensures Gone(s, b.ix, keys + [k], env)
  {
    hide Inv, ListOf, Ever;
    forall q, w | q in keys + [k] && w in ListOf(s.ix, q) && w.client in s.clients && Ever(s.clients[w.client], env)
      ensures w !in ListOf(b.ix, q)
    {
      RowIds(s, q);
    }
  }

  lemma ReadyTurn(s: State, a: State, b: State, handled: seq<Key>, keys: seq<Key>, k: Key, env: nat -> Turn, n: nat)
    requires Inv(s) && Inv(a) && k in keys && Gone(s, a.ix, handled, env) && Still(s, a.ix, a.clients, keys)
    requires Kept(s.ix, s.clients, a.ix, a.clients) && Kept(a.ix, a.clients, b.ix, b.clients)
    requires Calm(a, b, ListOf(a.ix, k), env, n) && Known(ListOf(a.ix, k), a.clients)
    requires forall i: nat :: i < |ListOf(a.ix, k)| ==>
      var cl, found := a.clients[ListOf(a.ix, k)[i].client], env(n + i).found;
      cl.btype != Module && (cl.nokey || (found.Value? && found.btype == cl.btype)) ==>
        ListOf(a.ix, k)[i] !in ListOf(b.ix, k)
    ensures Gone(s, b.ix, handled + [k], env) && Still(s, b.ix, b.clients, keys)
    ensures Kept(s.ix, s.clients, b.ix, b.clients)
  {
    hide Inv, Kept, Calm, Gone, Still, ListOf;
    GoneOn(s, a, b, handled, k, env, n);
    StillOn(s, a, b, keys, k, env, n);
    KeptOn(s, a, b);
  }

  lemma ReadyGone(s: State, t: State, keys: seq<Key>, env: nat -> Turn)
    requires Inv(s) && Gone(s, t.ix, keys, env)
    ensures forall k, w :: k in keys && w in ListOf(s.ix, k) ==>
      && w.client in s.clients
      && (Ever(s.clients[w.client], env) ==> w !in ListOf(t.ix, k))
  {
    hide Inv, ListOf, Ever;
    forall k, w | k in keys && w in ListOf(s.ix, k) ensures w.client in s.clients { WaiterHolds(s, k, w); }
  }

  /** Those of modules, and those that wait for none of the keys, are as they were. */
  ghost predicate Still(s: State, ix: Index, clients: map<nat, Client>, keys: seq<Key>) {
    forall d :: d in s.clients && d in s.ix.held ==>
      (s.clients[d].btype == Module || forall k :: k in keys ==> k !in s.ix.held[d]) ==>
        SameClient(s.ix, s.clients, ix, clients, d)
  }

  lemma StillEnd(s: State, t: State, keys: seq<Key>)
    requires Still(s, t.ix, t.clients, keys)
    ensures forall d :: d in s.clients && d in s.ix.held ==>
      (s.clients[d].btype == Module || forall k :: k in keys ==> k !in s.ix.held[d]) ==>
        SameClient(s.ix, s.clients, t.ix, t.clients, d)
  {}

  lemma StillStart(s: State)
    requires Inv(s)
    ensures Still(s, s.ix, s.clients, s.ready)
  {
    hide Inv, SameClient;
    KeptSame(s);
  }

  lemma StillOn(s: State, a: State, b: State, keys: seq<Key>, k: Key, env: nat -> Turn, n: nat)
    requires Inv(a) && k in keys && Still(s, a.ix, a.clients, keys) && Calm(a, b, ListOf(a.ix, k), env, n)
    ensures Still(s, b.ix, b.clients, keys)
  {
    hide Inv, ListOf;
    forall d | d in s.clients && d in s.ix.held
      && (s.clients[d].btype == Module || forall q :: q in keys ==> q !in s.ix.held[d])
      ensures SameClient(s.ix, s.clients, b.ix, b.clients, d)
    {
      var l := ListOf(a.ix, k);
      forall i: nat | i < |l| && l[i].client == d ensures Stays(a.clients[d], env(n + i).found) {
        WaiterHolds(a, k, l[i]);
      }
      assert CalmAt(a.clients[d], d, l, env, n);
    }
  }

  lemma TakeReady(s: State)
    requires Inv(s) && s.running == []
    ensures Inv(s.(running := s.ready, ready := []))
  {
    hide Ok, TypesOk, QueueOk, HeldOk;
    assert s.running + s.ready == s.ready + [];
  }

  lemma NextReady(s: State)
    requires Inv(s) && s.running != []
    ensures Inv(s.(running := s.running[1..], readyKeys := s.readyKeys - {s.running[0]}))
  {
    hide Ok, TypesOk, QueueOk, HeldOk;
    var q := s.running + s.ready;
    assert s.running[1..] + s.ready == q[1..];
    assert q[0] == s.running[0];
  }

  datatype Cursor = End | At(node: Node)

  /** The link to the node after `n`. */
  function Following(l: seq<Node>, n: Node): Cursor {
    if l == [] then End
    else if l[0] == n then (if |l| > 1 then At(l[1]) else End)
    else Following(l[1..], n)
  }

  function ClientsOf(l: seq<Node>): seq<nat> { seq(|l|, i requires 0 <= i < |l| => l[i].client) }

  ghost predicate Known(l: seq<Node>, clients: map<nat, Client>) { forall i :: 0 <= i < |l| ==> l[i].client in clients }

  /** The waiters whose command does not run again, in order. */
  function Unserved(l: seq<Node>, clients: map<nat, Client>, env: nat -> Turn, n: nat): seq<Node>
    requires Known(l, clients)
    decreases |l|
  {
    if l == [] then []
    else
      assert Known(l[1..], clients);
      (if Reruns(clients[l[0].client], env(n).found) then [] else [l[0]]) + Unserved(l[1..], clients, env, n + 1)
  }

  lemma WaiterHolds(s: State, k: Key, n: Node)
    requires Inv(s) && n in ListOf(s.ix, k)
    ensures n.client in s.clients && n.client in s.ix.held && k in s.ix.held[n.client] && s.ix.held[n.client][k] == n
  {
    hide TypesOk, QueueOk, ReadyOk, CountsOk, ColsOk;
    var i := PlaceOf(ListOf(s.ix, k), n);
    assert RowOk(s.ix, k);
    assert NodeOk(s.ix, k, n);
  }

  lemma WaitersKnown(s: State, k: Key)
    requires Inv(s)
    ensures Known(ListOf(s.ix, k), s.clients)
    ensures k in s.ix.waiting ==> s.ix.waiting[k] != []
  {
    hide TypesOk, QueueOk, ReadyOk, CountsOk, ColsOk;
    if k in s.ix.waiting {
      assert RowOk(s.ix, k);
      var l := s.ix.waiting[k];
      forall i | 0 <= i < |l| ensures l[i].client in s.clients { assert NodeOk(s.ix, k, l[i]); }
    }
  }

  lemma {:induction false} FollowingAt(l: seq<Node>, i: nat)
    requires i < |l| && Distinct(l)
    ensures Following(l, l[i]) == if i + 1 < |l| then At(l[i + 1]) else End
    decreases |l|
  {
    if i > 0 {
      assert l[0] != l[i];
      forall a, b | 0 <= a < b < |l[1..]| ensures l[1..][a] != l[1..][b] { assert l[a + 1] != l[b + 1]; }
      FollowingAt(l[1..], i - 1);
    }
  }

  lemma OthersMid(a: seq<Node>, n: Node, b: seq<Node>)
    requires forall i :: 0 <= i < |a| ==> a[i].client != n.client
    requires forall i :: 0 <= i < |b| ==> b[i].client != n.client
    ensures Others(a + ([n] + b), n.client) == a + b
  {
    hide Others;
    OthersConcat(a, [n] + b, n.client);
    OthersHead(n, b, n.client);
    OthersNone(a, n.client);
    OthersNone(b, n.client);
  }

  /** Where the pass over a list stands: waiters left in place, still to come, added at the tail, and visited. */
  datatype Progress = Progress(kept: seq<Node>, rest: seq<Node>, again: seq<Node>, visited: seq<nat>)

  ghost function Advance(p: Progress, added: seq<Node>, reruns: bool): Progress
    requires p.rest != []
  {
    Progress(if reruns then p.kept else p.kept + [p.rest[0]], p.rest[1..], p.again + added,
      p.visited + [p.rest[0].client])
  }

  ghost predicate Pass(p: Progress, list: seq<Node>, clients: map<nat, Client>, all: seq<Node>,
                       before: map<nat, Client>, env: nat -> Turn, n: nat)
  {
    && Known(all, before) && clients.Keys == before.Keys
    && |p.visited| <= |all| && p.rest == all[|p.visited|..] && p.visited == ClientsOf(all[..|p.visited|])
    && list == p.kept + p.rest + p.again
    && (forall i :: 0 <= i < |p.rest| ==>
        p.rest[i].client in before && clients[p.rest[i].client] == before[p.rest[i].client])
    && p.kept + Unserved(p.rest, before, env, n + |p.visited|) == Unserved(all, before, env, n)
  }

  lemma PassStart(all: seq<Node>, clients: map<nat, Client>, env: nat -> Turn, n: nat)
    requires Known(all, clients)
    ensures Pass(Progress([], all, [], []), all, clients, all, clients, env, n)
    ensures all == [] ==> ClientsOf(all) == [] && Unserved(all, clients, env, n) == []
  {
    hide Unserved, Reruns;
    var u := Unserved(all, clients, env, n);
    assert [] + u == u && [] + all + [] == all && all[0..] == all && ClientsOf(all[..0]) == [];
    if all == [] { UnservedNone(clients, env, n); }
  }

  lemma UnservedNone(clients: map<nat, Client>, env: nat -> Turn, n: nat)
    ensures Unserved([], clients, env, n) == []
  {}

  /** The list around the node to be visited, and the link that `listNext` reads before the visit. */
  lemma PassPlace(s: State, k: Key, p: Progress, all: seq<Node>, before: map<nat, Client>, env: nat -> Turn, n: nat)
    requires Inv(s) && Pass(p, ListOf(s.ix, k), s.clients, all, before, env, n) && p.rest != []
    ensures |p.visited| < |all| && all[|p.visited|] == p.rest[0]
    ensures k in s.ix.waiting && p.rest[0] in ListOf(s.ix, k)
    ensures |p.rest| > 1 ==> Following(s.ix.waiting[k], p.rest[0]) == At(p.rest[1])
    ensures Others(ListOf(s.ix, k), p.rest[0].client) == p.kept + p.rest[1..] + p.again
    ensures forall i :: 0 < i < |p.rest| ==> p.rest[i].client != p.rest[0].client
  {
    hide Others, Following, Unserved, Inv, ClientsOf;
    ListPlace(s, k, p.kept, p.rest, p.again);
  }

  lemma ListPlace(s: State, k: Key, kept: seq<Node>, rest: seq<Node>, again: seq<Node>)
    requires Inv(s) && ListOf(s.ix, k) == kept + rest + again && rest != []
    ensures k in s.ix.waiting && rest[0] in ListOf(s.ix, k)
    ensures |rest| > 1 ==> Following(s.ix.waiting[k], rest[0]) == At(rest[1])
    ensures Others(kept + rest + again, rest[0].client) == kept + rest[1..] + again
    ensures forall i :: 0 < i < |rest| ==> rest[i].client != rest[0].client
  {
    hide TypesOk, QueueOk, ReadyOk, CountsOk, ColsOk, Others, Following, HeldOk, NodeOk;
    var l, i, n := kept + rest + again, |kept|, rest[0];
    assert l[i] == n && (|rest| > 1 ==> l[i + 1] == rest[1]);
    assert RowOk(s.ix, k);
    FollowingAt(l, i);
    WaiterHolds(s, k, n);
    assert Ok(s.ix, Wants(s.clients));
    InListIff(s.ix, Wants(s.clients), n.client, k);
    forall j | 0 <= j < |l| && j != i ensures l[j].client != n.client {}
    forall j | 0 < j < |rest| ensures rest[j].client != n.client { assert l[i + j] == rest[j]; }
    var b := rest[1..] + again;
    forall j | 0 <= j < |b| ensures b[j].client != n.client { assert b[j] == l[i + 1 + j]; }
    forall j | 0 <= j < |kept| ensures kept[j].client != n.client { assert kept[j] == l[j]; }
    OthersMid(kept, n, b);
    assert l == kept + ([n] + b);
    assert kept + b == kept + rest[1..] + again;
  }

  lemma UnservedStep(kept: seq<Node>, rest: seq<Node>, clients: map<nat, Client>, env: nat -> Turn, n: nat)
    requires rest != [] && Known(rest, clients)
    ensures Known(rest[1..], clients)
    ensures kept + Unserved(rest, clients, env, n) ==
      (if Reruns(clients[rest[0].client], env(n).found) then kept else kept + [rest[0]])
        + Unserved(rest[1..], clients, env, n + 1)
  {
    hide Reruns;
    assert Known(rest[1..], clients);
    var u := Unserved(rest[1..], clients, env, n + 1);
    assert kept + ([] + u) == kept + u && kept + ([rest[0]] + u) == kept + [rest[0]] + u;
  }

  /** A visit moves the pass on by one waiter. */
  lemma PassTurn(p: Progress, list: seq<Node>, clients: map<nat, Client>, list': seq<Node>, clients': map<nat, Client>,
                 added: seq<Node>, all: seq<Node>, before: map<nat, Client>, env: nat -> Turn, n: nat)
    requires Pass(p, list, clients, all, before, env, n) && p.rest != [] && clients'.Keys == clients.Keys
    requires forall d :: d in clients' && d != p.rest[0].client ==> clients'[d] == clients[d]
    requires forall i :: 0 < i < |p.rest| ==> p.rest[i].client != p.rest[0].client
    requires Others(list, p.rest[0].client) == p.kept + p.rest[1..] + p.again
    requires p.rest[0].client in clients
    requires list' == (if Reruns(clients[p.rest[0].client], env(n + |p.visited|).found)
                       then Others(list, p.rest[0].client) else list) + added
    ensures Pass(Advance(p, added, Reruns(clients[p.rest[0].client], env(n + |p.visited|).found)), list', clients',
      all, before, env, n)
  {
    hide Others, Reruns, Unserved, ClientsOf;
    var reruns := Reruns(clients[p.rest[0].client], env(n + |p.visited|).found);
    UnservedStep(p.kept, p.rest, before, env, n + |p.visited|);
    PassKeeps(p.kept, p.rest, p.again, added, reruns);
    ClientsSnoc(all, |p.visited|);
    assert p.rest[0] == all[|p.visited|] && p.rest[1..] == all[|p.visited| + 1..];
  }

  lemma PassKeeps(kept: seq<Node>, rest: seq<Node>, again: seq<Node>, added: seq<Node>, reruns: bool)
    requires rest != []
    ensures (if reruns then kept + rest[1..] + again else kept + rest + again) + added ==
      (if reruns then kept else kept + [rest[0]]) + rest[1..] + (again + added)
  {}

  lemma ClientsSnoc(all: seq<Node>, i: nat)
    requires i < |all|
    ensures ClientsOf(all[..i + 1]) == ClientsOf(all[..i]) + [all[i].client]
  {}

  lemma PassEnd(p: Progress, list: seq<Node>, clients: map<nat, Client>, all: seq<Node>, before: map<nat, Client>,
                env: nat -> Turn, n: nat)
    requires Pass(p, list, clients, all, before, env, n) && p.rest == []
    ensures p.visited == ClientsOf(all) && Known(all, before) && list == Unserved(all, before, env, n) + p.again
  {
    hide Unserved, ClientsOf, Reruns;
    assert |p.visited| == |all|;
    assert all[..|p.visited|] == all;
    UnservedNone(before, env, n + |p.visited|);
    assert p.kept + [] == p.kept;
    assert p.kept + [] + p.again == p.kept + p.again;
  }

  lemma SignalSafe(s: State, sig: Signal)
    requires Inv(s)
    ensures (forall t: BType :: t in s.byType) && (sig.deleted ==> sig.key in s.ix.nokey ==> sig.key in s.ix.waiting)
    ensures forall i :: 0 <= i < |ListOf(s.ix, sig.key)| ==>
      var c := ListOf(s.ix, sig.key)[i].client;
      && c in s.clients && sig.key in s.ix.waiting
      && (s.clients[c].nokey ==> sig.key in s.ix.nokey)
      && (s.clients[c].btype != None ==> s.byType[s.clients[c].btype] > 0)
  {
    hide QueueOk, ReadyOk, Wanted;
    var k, wants := sig.key, Wants(s.clients);
    assert CountOk(s.ix, k, wants);
    WantedNothing(wants);
    forall i | 0 <= i < |ListOf(s.ix, k)| ensures
      var c := ListOf(s.ix, k)[i].client;
      && c in s.clients && k in s.ix.waiting
      && (s.clients[c].nokey ==> k in s.ix.nokey)
      && (s.clients[c].btype != None ==> s.byType[s.clients[c].btype] > 0)
    {
      assert RowOk(s.ix, k);
      var n := ListOf(s.ix, k)[i];
      assert NodeOk(s.ix, k, n);
      var c := n.client;
      if s.clients[c].nokey { WantedSome(ListOf(s.ix, k), i, wants); }
      assert c in Of(s.clients, s.clients[c].btype);
    }
  }

  lemma {:induction false} WantedSome(l: seq<Node>, i: nat, wants: set<nat>)
    requires i < |l| && l[i].client in wants
    ensures Wanted(l, wants) > 0
    decreases |l|
  {
    if i > 0 { WantedSome(l[1..], i - 1, wants); }
  }

  lemma ReadyInv(s: State, k: Key)
    requires Inv(s) && k !in s.readyKeys
    ensures Inv(s.(ready := s.ready + [k], readyKeys := s.readyKeys + {k}))
  {
    hide Ok, TypesOk, QueueOk, HeldOk;
    assert s.running + (s.ready + [k]) == s.running + s.ready + [k];
  }

  lemma OnKeyStart(s: State, c: nat, k: Key)
    requires Inv(s) && c in s.clients && c in s.ix.held && k in s.ix.held[c]
    ensures s.clients[c].btype != None
  {
    hide Ok, TypesOk, QueueOk, ReadyOk;
  }

  lemma LeftInv(s: State, c: nat, k: Key)
    requires Inv(s) && c in s.clients && c in s.ix.held && k in s.ix.held[c] && k in s.ix.waiting
    ensures Inv(s.(ix := Leave(s.ix, c, k, s.clients[c].nokey)))
  {
    hide Ok, TypesOk, QueueOk, ReadyOk, Unlink;
    LeaveOk(s.ix, c, k, s.clients[c].nokey, Wants(s.clients));
  }

  lemma {:induction false} OthersTwice(l: seq<Node>, c: nat)
    ensures Others(Others(l, c), c) == Others(l, c)
    decreases |l|
  {
    if l != [] {
      OthersTwice(l[1..], c);
      OthersConcat(if l[0].client == c then [] else [l[0]], Others(l[1..], c), c);
      assert Others([l[0]], c) == (if l[0].client == c then [] else [l[0]]) + Others([], c);
    }
  }

  lemma LeftThenReleased(s: State, mid: Index, out: Index, c: nat, k: Key)
    requires Inv(s) && c in s.clients && c in s.ix.held && k in s.ix.held[c] && k in s.ix.waiting
    requires mid == Leave(s.ix, c, k, s.clients[c].nokey) && Released(mid, out, c)
    ensures Released(s.ix, out, c)
  {
    hide Ok, Others, Unlink, ListOf, Leave;
    LeaveKeepsOrder(s.ix, c, k, s.clients[c].nokey, Wants(s.clients));
    LeaveNext(s.ix, c, k, s.clients[c].nokey);
    OthersTwice(ListOf(s.ix, k), c);
  }

  lemma LeaveNext(ix: Index, c: nat, k: Key, flag: bool)
    requires c in ix.held && k in ix.held[c] && k in ix.waiting
    ensures Leave(ix, c, k, flag).next == ix.next && Leave(ix, c, k, flag).held == ix.held[c := ix.held[c] - {k}]
  {}

  lemma ServedOut(a: Index, b: Index, c: nat)
    requires c in a.held && Released(a, b, c)
    ensures c in b.held && Served(a, b, c, {})
  {
    hide Others, ListOf;
    assert b.held == a.held[c := b.held[c]];
    forall k: Key ensures ListOf(b, k) == Others(ListOf(a, k), c) + [] {
      assert Others(ListOf(a, k), c) + [] == Others(ListOf(a, k), c);
    }
  }

  lemma ServedAgain(a: Index, b: Index, d: Index, c: nat, keys: set<Key>)
    requires c in a.held && c in b.held && Served(a, b, c, {}) && Entered(b, d, c, keys)
    ensures Served(a, d, c, keys)
  {
    hide Others, ListOf;
    assert d.held == a.held[c := d.held[c]];
    forall k: Key ensures ListOf(d, k) == Others(ListOf(a, k), c) + if k in keys then [d.held[c][k]] else [] {
      assert ListOf(b, k) == Others(ListOf(a, k), c) + [];
      assert Others(ListOf(a, k), c) + [] == Others(ListOf(a, k), c);
    }
  }

  function Zero(): map<BType, nat> {
    map[None := 0, List := 0, Wait := 0, WaitAof := 0, Module := 0, Stream := 0, Zset := 0, Postpone := 0,
        Shutdown := 0, LazyFree := 0]
  }

  lemma ZeroTypes()
    ensures forall t: BType :: t in Zero() && Zero()[t] == 0
  {
    forall t: BType ensures t in Zero() && Zero()[t] == 0 {
      match t {
        case None => case List => case Wait => case WaitAof => case Module => case Stream => case Zset =>
        case Postpone => case Shutdown => case LazyFree =>
      }
    }
  }

  lemma StartInv(s: State)
    requires s.ix.waiting == map[] && s.ix.nokey == map[] && s.ix.held.Keys == s.clients.Keys
    requires forall c :: c in s.clients ==> s.ix.held[c] == map[]
    requires forall c :: c in s.clients ==> s.clients[c].btype == None && !s.clients[c].nokey && !s.clients[c].unblocked
    requires s.byType == Zero() && s.regular == 0 && s.queue == [] && s.running == [] && s.ready == []
      && s.readyKeys == {}
    ensures Inv(s)
  {
    hide Zero;
    ZeroTypes();
    assert CountsOk(s.ix, Wants(s.clients));
    forall t: BType | t != None ensures Of(s.clients, t) == {} {}
    assert Regular(s.clients) == {};
    assert s.running + s.ready == [];
  }

  lemma BlockedElsewhere(s: State, c: nat, btype: BType)
    requires Inv(s) && c in s.clients && s.clients[c].btype == None && btype != None
    ensures btype in s.byType
    ensures var after := s.clients[c].(btype := btype);
      Inv(s.(clients := s.clients[c := after], byType := s.byType[btype := s.byType[btype] + 1],
             regular := if after.isModule then s.regular else s.regular + 1))
  {
    hide Ok, TypesOk, ReadyOk, QueueOk;
    var after := s.clients[c].(btype := btype);
    TypesTotal(s.clients, s.byType, s.regular);
    BlockTypes(s.clients, s.byType, s.regular, c, after);
    QueueSame(s.clients, s.queue, c, after);
    assert Wants(s.clients[c := after]) == Wants(s.clients);
  }

  lemma TakenInv(s: State)
    requires Inv(s) && s.queue != []
    ensures s.queue[0] in s.clients
    ensures var c := s.queue[0];
      Inv(s.(clients := s.clients[c := s.clients[c].(unblocked := false)], queue := s.queue[1..]))
  {
    hide Ok, TypesOk, ReadyOk;
    var c := s.queue[0];
    var after := s.clients[c].(unblocked := false);
    SameTypes(s.clients, s.byType, s.regular, c, after);
    assert Wants(s.clients[c := after]) == Wants(s.clients);
    TakenQueue(s.clients, s.queue);
  }

  lemma TakenQueue(clients: map<nat, Client>, queue: seq<nat>)
    requires QueueOk(clients, queue) && queue != []
    ensures QueueOk(clients[queue[0] := clients[queue[0]].(unblocked := false)], queue[1..])
  {
    forall d | d in queue && d != queue[0] ensures d in queue[1..] {
      var i :| 0 <= i < |queue| && queue[i] == d;
      assert queue[1..][i - 1] == d;
    }
  }

  lemma PendingInv(s: State, c: nat, pending: bool)
    requires Inv(s) && c in s.clients
    ensures Inv(s.(clients := s.clients[c := s.clients[c].(pending := pending)]))
  {
    hide Ok, TypesOk, QueueOk, ReadyOk;
    var after := s.clients[c].(pending := pending);
    SameTypes(s.clients, s.byType, s.regular, c, after);
    QueueSame(s.clients, s.queue, c, after);
    assert Wants(s.clients[c := after]) == Wants(s.clients);
  }

  lemma QueuedInv(s: State, c: nat)
    requires Inv(s) && c in s.clients && !s.clients[c].unblocked
    ensures Inv(s.(clients := s.clients[c := s.clients[c].(unblocked := true)], queue := s.queue + [c]))
  {
    hide Ok, TypesOk, ReadyOk;
    var after := s.clients[c].(unblocked := true);
    SameTypes(s.clients, s.byType, s.regular, c, after);
    assert Wants(s.clients[c := after]) == Wants(s.clients);
  }

  lemma UnblockStart(s: State, c: nat)
    requires Inv(s) && c in s.clients
    ensures c in s.ix.held && Ok(s.ix, Wants(s.clients)) && (s.clients[c].nokey <==> c in Wants(s.clients))
    ensures !OnKeys(s.clients[c].btype) ==> s.ix.held[c] == map[]
  {
    hide Ok;
  }

  lemma NothingHeld(s: State, c: nat)
    requires Inv(s) && c in s.clients && c in s.ix.held && s.ix.held[c] == map[]
    ensures Released(s.ix, s.ix, c)
  {
    hide Others;
    assert s.ix.held[c := map[]] == s.ix.held;
    forall k: Key ensures ListOf(s.ix, k) == Others(ListOf(s.ix, k), c) {
      InListIff(s.ix, Wants(s.clients), c, k);
      OthersNone(ListOf(s.ix, k), c);
    }
  }

  lemma ReleasingNone(ix: Index, c: nat)
    requires c in ix.held
    ensures Releasing(ix, ix, c, {}) && ix.held == ix.held[c := ix.held[c] - {}]
  {
    assert ix.held[c] - {} == ix.held[c];
    assert ix.held[c := ix.held[c]] == ix.held;
  }

  lemma ReleasingHeld(a: Index, b: Index, c: nat, done: set<Key>)
    requires c in a.held && Releasing(a, b, c, done)
    ensures b.held == a.held[c := a.held[c] - done]
  {}

  lemma ReleasedHeld(a: Index, b: Index, c: nat)
    requires c in a.held && Released(a, b, c)
    ensures b.held == a.held[c := map[]]
  {}

  /** Releasing an entry looks at nothing of the client's dictionary but that entry. */
  lemma LeaveSees(a: Index, b: Index, c: nat, k: Key, flag: bool)
    requires a.waiting == b.waiting && a.nokey == b.nokey && a.next == b.next
    requires c in a.held && c in b.held && k in a.held[c] && k in b.held[c] && a.held[c][k] == b.held[c][k]
      && k in a.waiting
    ensures var x, y := Leave(a, c, k, flag), Leave(b, c, k, flag);
      x.waiting == y.waiting && x.nokey == y.nokey && x.next == y.next
  {}

  lemma UnblockedInv(s: State, ix: Index, c: nat, after: Client)
    requires Inv(s) && c in s.clients && c in s.ix.held && s.clients[c].btype != None
    requires Ok(ix, Wants(s.clients)) && Released(s.ix, ix, c)
    requires after == s.clients[c].(btype := None, nokey := false)
    ensures s.clients[c].btype in s.byType && s.byType[s.clients[c].btype] > 0 && (!after.isModule ==> s.regular > 0)
    ensures Inv(State(ix, s.clients[c := after], s.byType[s.clients[c].btype := s.byType[s.clients[c].btype] - 1],
                      if after.isModule then s.regular else s.regular - 1, s.queue, s.running, s.ready, s.readyKeys))
  {
    hide Ok, TypesOk, ReadyOk, QueueOk, Others;
    TypesTotal(s.clients, s.byType, s.regular);
    UnblockTypes(s.clients, s.byType, s.regular, c, after);
    QueueSame(s.clients, s.queue, c, after);
    WantsOk(ix, Wants(s.clients), Wants(s.clients[c := after]), c);
  }

  lemma EnteredNone(ix: Index, c: nat)
    requires c in ix.held && ix.held[c] == map[]
    ensures Entered(ix, ix, c, KeySet([]))
  {
    assert ix.held[c := ix.held[c]] == ix.held;
    assert KeySet([]) == {};
  }

  lemma EnteredHeld(a: Index, b: Index, c: nat, keys: set<Key>)
    requires c in a.held && Entered(a, b, c, keys)
    ensures c in b.held
  {}

  lemma BlockedHeld(a: Index, b: Index, clients: map<nat, Client>, c: nat, keys: set<Key>, after: Client)
    requires HeldOk(a, clients) && c in a.held && Entered(a, b, c, keys) && OnKeys(after.btype)
    ensures HeldOk(b, clients[c := after])
  {}

  lemma QueueSame(clients: map<nat, Client>, queue: seq<nat>, c: nat, after: Client)
    requires QueueOk(clients, queue) && c in clients && after.unblocked == clients[c].unblocked
    ensures QueueOk(clients[c := after], queue)
  {}

  lemma BlockStart(s: State, c: nat, nokey: bool)
    requires Inv(s) && c in s.clients && s.clients[c].btype == None
    ensures c in s.ix.held && s.ix.held[c] == map[] && c !in Wants(s.clients)
    ensures Ok(s.ix, if nokey then Wants(s.clients) + {c} else Wants(s.clients))
  {
    hide Ok;
    WantsOk(s.ix, Wants(s.clients), if nokey then Wants(s.clients) + {c} else Wants(s.clients), c);
  }

  lemma BlockedInv(s: State, ix: Index, c: nat, keys: seq<Key>, after: Client, wants: set<nat>)
    requires Inv(s) && c in s.clients && s.clients[c].btype == None && OnKeys(after.btype)
    requires Ok(ix, wants) && wants == (if after.nokey then Wants(s.clients) + {c} else Wants(s.clients))
    requires c in s.ix.held && Entered(s.ix, ix, c, KeySet(keys))
    requires after.isModule == s.clients[c].isModule && after.unblocked == s.clients[c].unblocked
    ensures after.btype in s.byType
    ensures Inv(State(ix, s.clients[c := after], s.byType[after.btype := s.byType[after.btype] + 1],
                      if after.isModule then s.regular else s.regular + 1, s.queue, s.running, s.ready, s.readyKeys))
  {
    hide Ok, TypesOk, ReadyOk, QueueOk, Entered;
    TypesTotal(s.clients, s.byType, s.regular);
    BlockTypes(s.clients, s.byType, s.regular, c, after);
    BlockedHeld(s.ix, ix, s.clients, c, KeySet(keys), after);
    QueueSame(s.clients, s.queue, c, after);
    assert Wants(s.clients[c := after]) == wants;
  }

  lemma TypesTotal(clients: map<nat, Client>, byType: map<BType, nat>, regular: nat)
    requires TypesOk(clients, byType, regular)
    ensures forall t: BType :: t in byType
  {}
}
