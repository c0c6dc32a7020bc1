/**
 The two-way index of clients and the keys they wait for (`blocked.c`): each key has the
 list of its waiting clients, each client the dictionary of its keys, which stores the very
 list node that stands for the client, and each key has the number of its waiters that also
 want to hear of its deletion. A node is identified by a number, as by its address.
 */
module BlockedIndex {

  datatype Key = Key(db: nat, name: string)

  datatype Node = Node(id: nat, client: nat)

  /** `blocking_keys`, `blocking_keys_unblock_on_nokey`, every client's `bstate.keys`, and the next fresh node. */
  datatype Index = Index(waiting: map<Key, seq<Node>>, nokey: map<Key, nat>, held: map<nat, map<Key, Node>>, next: nat)

  function ListOf(ix: Index, k: Key): seq<Node> { if k in ix.waiting then ix.waiting[k] else [] }

  function CountOf(ix: Index, k: Key): nat { if k in ix.nokey then ix.nokey[k] else 0 }

  // ----- the operations

  /** One turn of the loop of `blockForKeys`. */
  function Enter(ix: Index, c: nat, k: Key, flag: bool): Index
    requires c in ix.held
  {
    if k in ix.held[c] then ix
    else
      var node := Node(ix.next, c);
      Index(ix.waiting[k := ListOf(ix, k) + [node]],
            if flag then ix.nokey[k := CountOf(ix, k) + 1] else ix.nokey,
            ix.held[c := ix.held[c][k := node]],
            ix.next + 1)
  }

  /** `listUnlinkNode` on the list as a sequence. */
  function Unlink(l: seq<Node>, n: Node): seq<Node> {
    if l == [] then [] else if l[0] == n then l[1..] else [l[0]] + Unlink(l[1..], n)
  }

  /** `releaseBlockedEntry`, with the key removed from the client's dictionary. */
  function Leave(ix: Index, c: nat, k: Key, flag: bool): Index
    requires c in ix.held && k in ix.held[c] && k in ix.waiting
  {
    var l := Unlink(ix.waiting[k], ix.held[c][k]);
    var held := ix.held[c := ix.held[c] - {k}];
    if l == [] then Index(ix.waiting - {k}, ix.nokey - {k}, held, ix.next)
    else Index(ix.waiting[k := l],
               if !flag || k !in ix.nokey then ix.nokey
               else if ix.nokey[k] <= 1 then ix.nokey - {k} else ix.nokey[k := ix.nokey[k] - 1],
               held, ix.next)
  }

  // ----- the invariant

  ghost predicate Distinct(l: seq<Node>) { forall i, j :: 0 <= i < j < |l| ==> l[i] != l[j] }

  /** Waiters of a list that want to hear of the key's deletion. */
  ghost function Wanted(l: seq<Node>, wants: set<nat>): nat {
    if l == [] then 0 else (if l[0].client in wants then 1 else 0) + Wanted(l[1..], wants)
  }

  /** A node in the list of `k` is the one its client's dictionary stores for `k`. */
  ghost predicate NodeOk(ix: Index, k: Key, n: Node) {
    n.id < ix.next && n.client in ix.held && k in ix.held[n.client] && ix.held[n.client][k] == n
  }

  ghost predicate RowOk(ix: Index, k: Key)
    requires k in ix.waiting
  {
    var l := ix.waiting[k];
    l != [] && Distinct(l) && forall i :: 0 <= i < |l| ==> NodeOk(ix, k, l[i])
  }

  /** What a client's dictionary stores for `k` is in the list of `k` and stands for the client. */
  ghost predicate ColOk(ix: Index, c: nat, k: Key)
    requires c in ix.held && k in ix.held[c]
  {
    ix.held[c][k].client == c && k in ix.waiting && ix.held[c][k] in ix.waiting[k]
  }

  ghost predicate CountOk(ix: Index, k: Key, wants: set<nat>) {
    CountOf(ix, k) == Wanted(ListOf(ix, k), wants) && (k in ix.nokey ==> ix.nokey[k] > 0)
  }

  ghost predicate RowsOk(ix: Index) { forall k :: k in ix.waiting ==> RowOk(ix, k) }

  ghost predicate ColsOk(ix: Index) {
    forall c :: c in ix.held ==> forall k :: k in ix.held[c] ==> ColOk(ix, c, k)
  }

  ghost predicate CountsOk(ix: Index, wants: set<nat>) { forall k: Key :: CountOk(ix, k, wants) }

  ghost predicate Ok(ix: Index, wants: set<nat>) { RowsOk(ix) && ColsOk(ix) && CountsOk(ix, wants) }

  // ----- what it says

  /** A client is in the list of a key exactly once if the key is in its dictionary, and not at all otherwise. */
  lemma InListIff(ix: Index, wants: set<nat>, c: nat, k: Key)
    requires Ok(ix, wants) && c in ix.held
    ensures k in ix.held[c] ==> exists i :: 0 <= i < |ListOf(ix, k)| && ListOf(ix, k)[i] == ix.held[c][k]
    ensures forall i :: 0 <= i < |ListOf(ix, k)| && ListOf(ix, k)[i].client == c ==>
      k in ix.held[c] && ListOf(ix, k)[i] == ix.held[c][k]
    ensures forall i, j :: 0 <= i < j < |ListOf(ix, k)| ==> ListOf(ix, k)[i].client != ListOf(ix, k)[j].client
  {
    hide CountsOk;
    if k in ix.held[c] {
      assert ColOk(ix, c, k);
      var i := PlaceOf(ListOf(ix, k), ix.held[c][k]);
    }
    if k in ix.waiting {
      var l := ix.waiting[k];
      assert RowOk(ix, k);
      forall i | 0 <= i < |l| ensures l[i].client == c ==> k in ix.held[c] && l[i] == ix.held[c][k] {
        assert NodeOk(ix, k, l[i]);
      }
      forall i, j | 0 <= i < j < |l| ensures l[i].client != l[j].client {
        assert NodeOk(ix, k, l[i]) && NodeOk(ix, k, l[j]);
      }
    }
  }

  // ----- lists

  lemma {:induction false} WantedAppend(l: seq<Node>, n: Node, wants: set<nat>)
    ensures Wanted(l + [n], wants) == Wanted(l, wants) + if n.client in wants then 1 else 0
    decreases |l|
  {
    if l == [] {
      assert l + [n] == [n] && [n][1..] == [];
    } else {
      assert (l + [n])[1..] == l[1..] + [n];
      WantedAppend(l[1..], n, wants);
    }
  }

  lemma {:induction false} UnlinkWanted(l: seq<Node>, n: Node, wants: set<nat>)
    requires n in l
    ensures Wanted(Unlink(l, n), wants) == Wanted(l, wants) - if n.client in wants then 1 else 0
    decreases |l|
  {
    if l[0] != n {
      UnlinkWanted(l[1..], n, wants);
      var u := [l[0]] + Unlink(l[1..], n);
      assert u[1..] == Unlink(l[1..], n);
    }
  }

  /** Where the node was: everything else keeps its order. */
  lemma {:induction false} UnlinkAt(l: seq<Node>, i: nat)
    requires i < |l| && Distinct(l)
    ensures Unlink(l, l[i]) == l[..i] + l[i + 1..]
    decreases |l|
  {
    if i > 0 {
      assert l[0] != l[i];
      forall a, b | 0 <= a < b < |l[1..]| ensures l[1..][a] != l[1..][b] { assert l[a + 1] != l[b + 1]; }
      UnlinkAt(l[1..], i - 1);
      assert [l[0]] + (l[1..][..i - 1] + l[1..][i..]) == l[..i] + l[i + 1..];
    }
  }

  lemma {:induction false} WantedSame(l: seq<Node>, a: set<nat>, b: set<nat>)
    requires forall i :: 0 <= i < |l| ==> (l[i].client in a <==> l[i].client in b)
    ensures Wanted(l, a) == Wanted(l, b)
    decreases |l|
  {
    if l != [] { WantedSame(l[1..], a, b); }
  }

  // ----- entering

  lemma EnterRows(ix: Index, c: nat, k: Key, flag: bool)
    requires RowsOk(ix) && c in ix.held && k !in ix.held[c]
    ensures RowsOk(Enter(ix, c, k, flag))
  {
    var t := Enter(ix, c, k, flag);
    forall q | q in t.waiting ensures RowOk(t, q) {
      if q in ix.waiting { assert RowOk(ix, q); }
      var l := t.waiting[q];
      forall i | 0 <= i < |l| ensures NodeOk(t, q, l[i]) {
        if i < |ListOf(ix, q)| { assert NodeOk(ix, q, l[i]); }
      }
      if q == k {
        forall i, j | 0 <= i < j < |l| ensures l[i] != l[j] {
          if j == |l| - 1 { assert NodeOk(ix, q, l[i]); }
        }
      }
    }
  }

  lemma EnterCols(ix: Index, c: nat, k: Key, flag: bool)
    requires ColsOk(ix) && c in ix.held && k !in ix.held[c]
    ensures ColsOk(Enter(ix, c, k, flag))
  {
    var t := Enter(ix, c, k, flag);
    forall d, q | d in t.held && q in t.held[d] ensures ColOk(t, d, q) {
      if d == c && q == k {
        var l := t.waiting[k];
        assert l[|l| - 1] == t.held[c][k];
      } else {
        assert ColOk(ix, d, q);
        if q == k {
          assert ix.held[d][q] in ix.waiting[k];
          assert t.waiting[k] == ix.waiting[k] + [t.held[c][k]];
        }
      }
    }
  }

  lemma EnterCounts(ix: Index, c: nat, k: Key, flag: bool, wants: set<nat>)
    requires CountsOk(ix, wants) && c in ix.held && k !in ix.held[c] && (flag <==> c in wants)
    ensures CountsOk(Enter(ix, c, k, flag), wants)
  {
    hide Wanted;
    var t := Enter(ix, c, k, flag);
    forall q: Key ensures CountOk(t, q, wants) {
      assert CountOk(ix, q, wants);
      if q == k { WantedAppend(ListOf(ix, k), Node(ix.next, c), wants); }
    }
  }

  lemma EnterOk(ix: Index, c: nat, k: Key, flag: bool, wants: set<nat>)
    requires Ok(ix, wants) && c in ix.held && (flag <==> c in wants)
    ensures Ok(Enter(ix, c, k, flag), wants)
  {
    hide RowsOk, ColsOk, CountsOk;
    if k !in ix.held[c] {
      EnterRows(ix, c, k, flag);
      EnterCols(ix, c, k, flag);
      EnterCounts(ix, c, k, flag, wants);
    }
  }

  // ----- leaving

  lemma PlaceOf(l: seq<Node>, n: Node) returns (i: nat)
    requires n in l
    ensures i < |l| && l[i] == n
  {
    i :| 0 <= i < |l| && l[i] == n;
  }

  /** Where the client stands in the list it leaves. */
  lemma LeavePlace(ix: Index, wants: set<nat>, c: nat, k: Key) returns (i: nat)
    requires Ok(ix, wants) && c in ix.held && k in ix.held[c]
    ensures k in ix.waiting && i < |ix.waiting[k]| && ix.waiting[k][i] == ix.held[c][k]
    ensures Unlink(ix.waiting[k], ix.held[c][k]) == ix.waiting[k][..i] + ix.waiting[k][i + 1..]
  {
    hide CountsOk, Unlink, NodeOk;
    assert ColOk(ix, c, k);
    assert RowOk(ix, k);
    i := PlaceOf(ix.waiting[k], ix.held[c][k]);
    UnlinkAt(ix.waiting[k], i);
  }

  lemma LeaveRows(ix: Index, wants: set<nat>, c: nat, k: Key, flag: bool)
    requires Ok(ix, wants) && c in ix.held && k in ix.held[c] && k in ix.waiting
    ensures RowsOk(Leave(ix, c, k, flag))
  {
    hide CountsOk, Unlink, ColsOk;
    var t := Leave(ix, c, k, flag);
    var i := LeavePlace(ix, wants, c, k);
    forall q | q in t.waiting ensures RowOk(t, q) {
      assert RowOk(ix, q);
      var old_, l := ix.waiting[q], t.waiting[q];
      if q == k {
        forall a | 0 <= a < |l| ensures NodeOk(t, q, l[a]) {
          var b := if a < i then a else a + 1;
          assert l[a] == old_[b];
          assert NodeOk(ix, q, old_[b]);
          assert old_[b] != old_[i];
        }
        forall a, b | 0 <= a < b < |l| ensures l[a] != l[b] {
          assert l[a] == old_[if a < i then a else a + 1] && l[b] == old_[if b < i then b else b + 1];
        }
      } else {
        forall a | 0 <= a < |l| ensures NodeOk(t, q, l[a]) { assert NodeOk(ix, q, l[a]); }
      }
    }
  }

  lemma LeaveCols(ix: Index, wants: set<nat>, c: nat, k: Key, flag: bool)
    requires Ok(ix, wants) && c in ix.held && k in ix.held[c] && k in ix.waiting
    ensures ColsOk(Leave(ix, c, k, flag))
  {
    hide CountsOk, Unlink;
    var t := Leave(ix, c, k, flag);
    var i := LeavePlace(ix, wants, c, k);
    assert ColOk(ix, c, k);
    forall d, q | d in t.held && q in t.held[d] ensures ColOk(t, d, q) {
      assert ColOk(ix, d, q);
      if q == k {
        var l, n := ix.waiting[k], ix.held[d][k];
        var j := PlaceOf(l, n);
        var u := l[..i] + l[i + 1..];
        assert j != i;
        assert u[if j < i then j else j - 1] == n;
      }
    }
  }

  lemma LeaveCounts(ix: Index, wants: set<nat>, c: nat, k: Key, flag: bool)
    requires Ok(ix, wants) && c in ix.held && k in ix.held[c] && k in ix.waiting && (flag <==> c in wants)
    ensures CountsOk(Leave(ix, c, k, flag), wants)
    ensures flag ==> k in ix.nokey
  {
    hide Unlink, Wanted, RowsOk;
    var t := Leave(ix, c, k, flag);
    assert ColOk(ix, c, k);
    UnlinkWanted(ix.waiting[k], ix.held[c][k], wants);
    WantedNothing(wants);
    assert CountOk(ix, k, wants);
    forall q: Key ensures CountOk(t, q, wants) { assert CountOk(ix, q, wants); }
  }

  lemma WantedNothing(wants: set<nat>)
    ensures Wanted([], wants) == 0
  {}

  lemma LeaveOk(ix: Index, c: nat, k: Key, flag: bool, wants: set<nat>)
    requires Ok(ix, wants) && c in ix.held && k in ix.held[c] && (flag <==> c in wants)
    ensures k in ix.waiting && (flag ==> k in ix.nokey)
    ensures Ok(Leave(ix, c, k, flag), wants)
  {
    hide RowsOk, CountsOk, Leave;
    assert ColOk(ix, c, k);
    LeaveRows(ix, wants, c, k, flag);
    LeaveCols(ix, wants, c, k, flag);
    LeaveCounts(ix, wants, c, k, flag);
  }

  /** A client that waits for nothing may change its mind about deletions. */
  lemma WantsOk(ix: Index, a: set<nat>, b: set<nat>, c: nat)
    requires Ok(ix, a) && (c in ix.held ==> ix.held[c] == map[])
    requires forall d :: d != c ==> (d in a <==> d in b)
    ensures Ok(ix, b)
  {
    hide Wanted;
    forall q: Key ensures CountOk(ix, q, b) {
      assert CountOk(ix, q, a);
      var l := ListOf(ix, q);
      forall i | 0 <= i < |l| ensures l[i].client in a <==> l[i].client in b {
        assert RowOk(ix, q);
        assert NodeOk(ix, q, l[i]);
      }
      WantedSame(l, a, b);
    }
  }

  // ----- order

  /** The list without the nodes of one client. */
  ghost function Others(l: seq<Node>, c: nat): seq<Node> {
    if l == [] then [] else (if l[0].client == c then [] else [l[0]]) + Others(l[1..], c)
  }

  lemma {:induction false} OthersNone(l: seq<Node>, c: nat)
    requires forall i :: 0 <= i < |l| ==> l[i].client != c
    ensures Others(l, c) == l
    decreases |l|
  {
    if l != [] { OthersNone(l[1..], c); }
  }

  lemma {:induction false} OthersConcat(a: seq<Node>, b: seq<Node>, c: nat)
    ensures Others(a + b, c) == Others(a, c) + Others(b, c)
    decreases |a|
  {
    if a == [] {
      assert a + b == b;
    } else {
      assert (a + b)[1..] == a[1..] + b;
      OthersConcat(a[1..], b, c);
      var x := if a[0].client == c then [] else [a[0]];
      assert x + (Others(a[1..], c) + Others(b, c)) == x + Others(a[1..], c) + Others(b, c);
    }
  }

  /** Leaving a key takes out the client's node and keeps the others in their order; other lists stay. */
  lemma LeaveKeepsOrder(ix: Index, c: nat, k: Key, flag: bool, wants: set<nat>)
    requires Ok(ix, wants) && c in ix.held && k in ix.held[c] && k in ix.waiting
    ensures ListOf(Leave(ix, c, k, flag), k) == Others(ListOf(ix, k), c)
    ensures forall q :: q != k ==> ListOf(Leave(ix, c, k, flag), q) == ListOf(ix, q)
  {
    hide CountsOk, Unlink, Others;
    var i := LeavePlace(ix, wants, c, k);
    var l := ix.waiting[k];
    assert RowOk(ix, k);
    var a, b := l[..i], l[i + 1..];
    forall j | 0 <= j < |l| && j != i ensures l[j].client != c { assert NodeOk(ix, k, l[j]); }
    OthersNone(a, c);
    OthersNone(b, c);
    assert NodeOk(ix, k, l[i]) && l[i].client == c by { assert ColOk(ix, c, k); }
    assert l == a + ([l[i]] + b);
    OthersConcat(a, [l[i]] + b, c);
    OthersHead(l[i], b, c);
  }

  lemma OthersHead(n: Node, b: seq<Node>, c: nat)
    requires n.client == c
    ensures Others([n] + b, c) == Others(b, c)
  {
    assert ([n] + b)[1..] == b;
  }
}
