/**
 The two-way index of `BlockedIndex` as the server keeps it: the waiting clients of a key are
 a linked list, and a client's dictionary stores the list node itself, so that the client
 leaves the list without a search. The numbers of the index name the nodes.
 */
module BlockedLists {
  import AdList
  import opened BlockedIndex

  type Entry = AdList.Node<nat>
  type Waiters = AdList.List<nat>

  ghost function Name(n: Entry, number: map<Entry, nat>): Node
    requires n in number
  {
    Node(number[n], n.value)
  }

  ghost predicate Numbered(l: seq<Entry>, number: map<Entry, nat>) { forall i :: 0 <= i < |l| ==> l[i] in number }

  ghost function Named(l: seq<Entry>, number: map<Entry, nat>): seq<Node>
    requires Numbered(l, number)
  {
    seq(|l|, i requires 0 <= i < |l| => Name(l[i], number))
  }

  ghost function HeldBy(m: map<Key, Entry>, number: map<Entry, nat>): map<Key, Node>
    requires forall k :: k in m ==> m[k] in number
  {
    map k | k in m :: Name(m[k], number)
  }

  ghost predicate Disjoint(a: seq<Entry>, b: seq<Entry>) {
    forall i, j :: 0 <= i < |a| && 0 <= j < |b| ==> a[i] != b[j]
  }

  /** No node is in two lists, and every node has its number. */
  ghost predicate TableOk(rows: map<Key, seq<Entry>>, number: map<Entry, nat>) {
    && (forall k :: k in rows ==> Numbered(rows[k], number))
    && (forall k, q :: k in rows && q in rows && k != q ==> Disjoint(rows[k], rows[q]))
  }

  ghost predicate NumbersOk(held: map<nat, map<Key, Entry>>, number: map<Entry, nat>, next: nat) {
    && Stored(held, number)
    && (forall n, m :: n in number && m in number && number[n] == number[m] ==> n == m)
    && (forall n :: n in number ==> number[n] < next)
  }

  ghost predicate Unshared(waiting: map<Key, Waiters>) {
    forall k, q :: k in waiting && q in waiting && k != q ==> waiting[k] != waiting[q]
  }

  lemma UnsharedMore(waiting: map<Key, Waiters>, k: Key, l: Waiters)
    requires Unshared(waiting) && forall q :: q in waiting ==> waiting[q] != l
    ensures Unshared(waiting[k := l])
  {}

  /** The index that rows, dictionaries and numbers stand for. */
  ghost function IndexOf(rows: map<Key, seq<Entry>>, nokey: map<Key, nat>, held: map<nat, map<Key, Entry>>,
                         number: map<Entry, nat>, next: nat): Index
    requires TableOk(rows, number) && NumbersOk(held, number, next)
  {
    Index(NamedRows(rows, number), nokey, HeldAll(held, number), next)
  }

  ghost function NamedRows(rows: map<Key, seq<Entry>>, number: map<Entry, nat>): map<Key, seq<Node>>
    requires forall k :: k in rows ==> Numbered(rows[k], number)
  {
    map k | k in rows :: Named(rows[k], number)
  }

  ghost predicate Stored(held: map<nat, map<Key, Entry>>, number: map<Entry, nat>) {
    forall c :: c in held ==> forall k :: k in held[c] ==> held[c][k] in number
  }

  ghost function HeldAll(held: map<nat, map<Key, Entry>>, number: map<Entry, nat>): map<nat, map<Key, Node>>
    requires Stored(held, number)
  {
    map c | c in held :: HeldBy(held[c], number)
  }

  lemma NamedMore(l: seq<Entry>, number: map<Entry, nat>, node: Entry, next: nat)
    requires Numbered(l, number) && node !in number
    ensures var more := number[node := next];
      Numbered(l, more) && Named(l, more) == Named(l, number) && Numbered(l + [node], more)
      && Named(l + [node], more) == Named(l, number) + [Node(next, node.value)]
  {}

  lemma AppendedTable(rows: map<Key, seq<Entry>>, number: map<Entry, nat>, k: Key, node: Entry, next: nat)
    requires TableOk(rows, number) && k in rows && node !in number
    ensures TableOk(rows[k := rows[k] + [node]], number[node := next])
  {
    hide Named;
    var rs, ns := rows[k := rows[k] + [node]], number[node := next];
    forall q | q in rs ensures Numbered(rs[q], ns) { NamedMore(rows[q], number, node, next); }
    forall p, q | p in rs && q in rs && p != q ensures Disjoint(rs[p], rs[q]) {
      assert Disjoint(rows[p], rows[q]) && Numbered(rows[p], number) && Numbered(rows[q], number);
    }
  }

  lemma HeldMore(m: map<Key, Entry>, number: map<Entry, nat>, node: Entry, next: nat)
    requires node !in number && forall k :: k in m ==> m[k] in number
    ensures HeldBy(m, number[node := next]) == HeldBy(m, number)
  {}

  lemma EnteredRows(rows: map<Key, seq<Entry>>, number: map<Entry, nat>, k: Key, node: Entry, next: nat)
    requires TableOk(rows, number) && k in rows && node !in number
    ensures var rs, ns := rows[k := rows[k] + [node]], number[node := next];
      TableOk(rs, ns)
      && NamedRows(rs, ns) == NamedRows(rows, number)[k := NamedRows(rows, number)[k] + [Node(next, node.value)]]
  {
    hide Named, Numbered, Disjoint;
    var rs, ns := rows[k := rows[k] + [node]], number[node := next];
    AppendedTable(rows, number, k, node, next);
    forall q | q in rows ensures Numbered(rows[q], ns) && Named(rows[q], ns) == Named(rows[q], number) {
      NamedMore(rows[q], number, node, next);
    }
    NamedMore(rows[k], number, node, next);
  }

  lemma EnteredHeld(held: map<nat, map<Key, Entry>>, number: map<Entry, nat>, next: nat, c: nat, k: Key, node: Entry)
    requires NumbersOk(held, number, next) && c in held && node !in number
    ensures var ns, hs := number[node := next], held[c := held[c][k := node]];
      NumbersOk(hs, ns, next + 1)
      && HeldAll(hs, ns) == HeldAll(held, number)[c := HeldAll(held, number)[c][k := Node(next, node.value)]]
  {
    var ns, hs := number[node := next], held[c := held[c][k := node]];
    forall d | d in held ensures HeldBy(held[d], ns) == HeldBy(held[d], number) {
      HeldMore(held[d], number, node, next);
    }
    assert HeldBy(held[c][k := node], ns) == HeldBy(held[c], number)[k := Node(next, node.value)];
  }

  lemma EmptyRow(rows: map<Key, seq<Entry>>, number: map<Entry, nat>, k: Key)
    requires TableOk(rows, number) && k !in rows
    ensures TableOk(rows[k := []], number) && NamedRows(rows[k := []], number) == NamedRows(rows, number)[k := []]
  {
    assert Named([], number) == [];
  }

  lemma EnterAgain(ix: Index, c: nat, k: Key, flag: bool)
    requires c in ix.held && k in ix.held[c]
    ensures Enter(ix, c, k, flag) == ix
  {}

  lemma EnterParts(ix: Index, c: nat, k: Key, flag: bool, named: map<Key, seq<Node>>)
    requires c in ix.held && k !in ix.held[c] && named == if k in ix.waiting then ix.waiting else ix.waiting[k := []]
    ensures Enter(ix, c, k, flag) == Index(named[k := named[k] + [Node(ix.next, c)]],
      if flag then ix.nokey[k := if k in ix.nokey then ix.nokey[k] + 1 else 1] else ix.nokey,
      ix.held[c := ix.held[c][k := Node(ix.next, c)]], ix.next + 1)
  {}

  lemma CutTable(rows: map<Key, seq<Entry>>, number: map<Entry, nat>, k: Key, i: nat)
    requires TableOk(rows, number) && k in rows && i < |rows[k]|
    ensures var l := rows[k][..i] + rows[k][i + 1..];
      && Numbered(l, number) && TableOk(rows[k := l], number) && TableOk(rows - {k}, number)
      && |Named(rows[k], number)| == |rows[k]|
      && Named(l, number) == Named(rows[k], number)[..i] + Named(rows[k], number)[i + 1..]
  {
    var l := rows[k][..i] + rows[k][i + 1..];
    forall j | 0 <= j < |l| ensures l[j] == rows[k][if j < i then j else j + 1] {}
    forall p, q | p in rows && q in rows && p != q ensures Disjoint(rows[k := l][p], rows[k := l][q]) {
      assert Disjoint(rows[p], rows[q]);
    }
  }

  /** Where the abstract node is, the node is. */
  lemma SamePlace(l: seq<Entry>, number: map<Entry, nat>, node: Entry, i: nat)
    requires Numbered(l, number) && node in number && i < |l| && Named(l, number)[i] == Name(node, number)
    requires forall n, m :: n in number && m in number && number[n] == number[m] ==> n == m
    ensures l[i] == node
  {}

  class Lists {
    var waiting: map<Key, Waiters>
    var nokey: map<Key, nat>
    var held: map<nat, map<Key, Entry>>
    ghost var rows: map<Key, seq<Entry>>
    ghost var number: map<Entry, nat>
    ghost var next: nat
    ghost var repr: set<object>

    /** The list of one key holds its row. */
    ghost predicate RowIn(k: Key)
      requires k in waiting && k in rows
      reads this`waiting, this`rows, this`repr, repr
    {
      var l := waiting[k];
      l in repr && (forall i :: 0 <= i < |rows[k]| ==> rows[k][i] in repr) && l.nodes == rows[k] && l.Valid()
    }

    ghost predicate ListsIn()
      reads this`waiting, this`rows, this`repr, repr
    {
      && rows.Keys == waiting.Keys
      && (forall k :: k in waiting ==> RowIn(k))
      && Unshared(waiting)
    }

    ghost predicate Valid()
      reads this, repr
    {
      this !in repr && ListsIn() && TableOk(rows, number) && NumbersOk(held, number, next)
    }

    /** The index the lists stand for. */
    ghost function Value(): Index
      requires TableOk(rows, number) && NumbersOk(held, number, next)
      reads this
    {
      IndexOf(rows, nokey, held, number, next)
    }

    constructor (clients: set<nat>)
      ensures Valid() && fresh(repr) && Value() == Index(map[], map[], map c | c in clients :: map[], 0)
    {
      waiting, nokey, rows, number, next, repr := map[], map[], map[], map[], 0, {};
      held := map c | c in clients :: map[];
    }

    /** A key without waiters gets an empty list. */
    method Ensure(k: Key)
      requires this !in repr && ListsIn() && k !in waiting
      modifies this`waiting, this`rows, this`repr
      ensures this !in repr && ListsIn() && fresh(repr - old(repr)) && old(repr) <= repr
      ensures rows == old(rows)[k := []] && k in waiting
    {
      hide AdList.List.Valid, Unshared;
      var l: Waiters := new AdList.List<nat>();
      UnsharedMore(waiting, k, l);
      waiting := waiting[k := l];
      rows := rows[k := []];
      repr := repr + {l};
      forall q | q in waiting ensures RowIn(q) {
        if q != k { assert old(RowIn(q)); }
      }
    }

    /** The client at the tail of the list of the key. */
    method Append(k: Key, c: nat) returns (node: Entry)
      requires Valid() && k in waiting
      modifies this`rows, this`repr, repr
      ensures this !in repr && ListsIn() && fresh(node) && node.value == c && fresh(repr - old(repr))
      ensures rows == old(rows)[k := old(rows)[k] + [node]]
    {
      hide AdList.List.Valid, NumbersOk, TableOk, Unshared;
      RowFacts(k);
      var l := waiting[k];
      node := l.AddNodeTail(c);
      rows := rows[k := rows[k] + [node]];
      repr := repr + {node};
      forall q | q in waiting ensures RowIn(q) {
        assert old(RowIn(q));
      }
    }

    /** One turn of the loop of `blockForKeys`. */
    method EnterKey(c: nat, k: Key, flag: bool)
      requires Valid() && c in held
      modifies this, repr
      ensures Valid() && fresh(repr - old(repr)) && Value() == Enter(old(Value()), c, k, flag)
    {
      hide ListsIn, NamedRows, HeldAll, NumbersOk, TableOk, Enter;
      Shape();
      if k in held[c] { EnterAgain(Value(), c, k, flag); return; }
      ghost var ix := Value();
      if k !in waiting {
        EmptyRow(rows, number, k);
        Ensure(k);
      }
      EnterParts(ix, c, k, flag, Value().waiting);
      ghost var was := rows;
      var node := Append(k, c);
      Store(c, k, node, was);
      if flag { nokey := nokey[k := if k in nokey then nokey[k] + 1 else 1]; }
    }

    /** The new node gets its number and is stored with the client. */
    method Store(c: nat, k: Key, node: Entry, ghost was: map<Key, seq<Entry>>)
      requires this !in repr && ListsIn() && TableOk(was, number) && NumbersOk(held, number, next)
      requires c in held && k in was && node !in number && node.value == c && rows == was[k := was[k] + [node]]
      modifies this`number, this`next, this`held
      ensures Valid() && next == old(next) + 1
      ensures Value().waiting == NamedRows(was, old(number))[k := NamedRows(was, old(number))[k] + [Node(old(next), c)]]
      ensures var h := HeldAll(old(held), old(number)); Value().held == h[c := h[c][k := Node(old(next), c)]]
    {
      hide ListsIn, NamedRows, HeldAll, NumbersOk, TableOk;
      EnteredRows(was, number, k, node, next);
      EnteredHeld(held, number, next, c, k, node);
      number := number[node := next];
      next := next + 1;
      held := held[c := held[c][k := node]];
    }

    /** The node at place `i` of the list of the key leaves it. */
    method Remove(k: Key, node: Entry, ghost i: nat) returns (empty: bool)
      requires Valid() && k in waiting && i < |rows[k]| && rows[k][i] == node
      modifies this`rows, repr
      ensures this !in repr && ListsIn() && repr == old(repr)
      ensures rows == old(rows)[k := old(rows)[k][..i] + old(rows)[k][i + 1..]] && (empty <==> rows[k] == [])
    {
      hide AdList.List.Valid, NumbersOk, TableOk, Unshared;
      RowFacts(k);
      var l := waiting[k];
      ghost var cut := rows[k][..i] + rows[k][i + 1..];
      CutIn(rows[k], i, repr);
      l.DelNode(node, i);
      empty := l.Empty();
      rows := rows[k := cut];
      forall q | q in waiting ensures RowIn(q) {
        assert old(RowIn(q));
      }
    }

    lemma RowFacts(k: Key)
      requires Valid() && k in waiting
      ensures k in rows && RowIn(k)
      ensures forall q :: q in waiting && q != k ==> waiting[q] != waiting[k] && Disjoint(rows[k], rows[q])
    {
      hide NumbersOk, Numbered, RowIn;
    }

    /** `releaseBlockedEntry`: the client leaves the list through the node it has stored. */
    method LeaveKey(c: nat, k: Key, flag: bool, ghost wants: set<nat>)
      requires Valid() && Ok(Value(), wants) && c in held && k in held[c]
      modifies this, repr
      ensures Valid() && repr == old(repr)
      ensures k in old(Value()).waiting && Value() == Leave(old(Value()), c, k, flag)
    {
      hide ListsIn, NumbersOk, TableOk, Leave, Ok, NamedRows, HeldAll, Unlink;
      Shape();
      ghost var ix := Value();
      ghost var i := LeavePlace(ix, wants, c, k);
      At(k, c, i);
      CutRows(rows, number, k, i);
      LeaveParts(ix, c, k, flag, i);
      var empty := Remove(k, held[c][k], i);
      Forget(c, k);
      if empty { Drop(k); }
      CountDown(k, flag, empty);
    }

    method Forget(c: nat, k: Key)
      requires NumbersOk(held, number, next) && c in held
      modifies this`held
      ensures NumbersOk(held, number, next)
      ensures HeldAll(held, number) == HeldAll(old(held), number)[c := HeldAll(old(held), number)[c] - {k}]
    {
      hide NumbersOk, HeldAll;
      CutHeld(held, number, next, c, k);
      held := held[c := held[c] - {k}];
    }

    method CountDown(k: Key, flag: bool, empty: bool)
      modifies this`nokey
      ensures nokey == if empty then old(nokey) - {k} else if !flag || k !in old(nokey) then old(nokey)
                       else if old(nokey)[k] <= 1 then old(nokey) - {k} else old(nokey)[k := old(nokey)[k] - 1]
    {
      if empty {
        nokey := nokey - {k};
      } else if flag && k in nokey {
        if nokey[k] <= 1 { nokey := nokey - {k}; } else { nokey := nokey[k := nokey[k] - 1]; }
      }
    }

    /** A key without waiters has no list. */
    method Drop(k: Key)
      requires this !in repr && ListsIn() && k in waiting
      modifies this`waiting, this`rows
      ensures ListsIn() && rows == old(rows) - {k}
    {
      hide AdList.List.Valid;
      waiting := waiting - {k};
      rows := rows - {k};
      forall q | q in waiting ensures RowIn(q) { assert old(RowIn(q)); }
    }

    lemma At(k: Key, c: nat, i: nat)
      requires Valid() && c in held && k in held[c] && k in rows && i < |Value().waiting[k]|
      requires Value().waiting[k][i] == Value().held[c][k]
      ensures i < |rows[k]| && rows[k][i] == held[c][k]
    {
      hide ListsIn;
      SamePlace(rows[k], number, held[c][k], i);
    }

    lemma Shape()
      requires Valid()
      ensures rows.Keys == waiting.Keys && Value().waiting.Keys == rows.Keys
      ensures Value().held.Keys == held.Keys && forall c :: c in held ==> Value().held[c].Keys == held[c].Keys
    {}
  }

  lemma CutIn(l: seq<Entry>, i: nat, repr: set<object>)
    requires i < |l| && forall j :: 0 <= j < |l| ==> l[j] in repr
    ensures var m := l[..i] + l[i + 1..]; forall j :: 0 <= j < |m| ==> m[j] in repr
  {
    var m := l[..i] + l[i + 1..];
    forall j | 0 <= j < |m| ensures m[j] in repr { assert m[j] == l[if j < i then j else j + 1]; }
  }

  lemma CutRows(rows: map<Key, seq<Entry>>, number: map<Entry, nat>, k: Key, i: nat)
    requires TableOk(rows, number) && k in rows && i < |rows[k]|
    ensures var l, named := rows[k][..i] + rows[k][i + 1..], NamedRows(rows, number);
      && TableOk(rows[k := l], number) && TableOk(rows[k := l] - {k}, number)
      && |named[k]| == |rows[k]|
      && NamedRows(rows[k := l], number) == named[k := named[k][..i] + named[k][i + 1..]]
      && NamedRows(rows[k := l] - {k}, number) == named - {k}
  {
    hide Named, Numbered, Disjoint;
    CutTable(rows, number, k, i);
    assert rows[k := rows[k][..i] + rows[k][i + 1..]] - {k} == rows - {k};
  }

  lemma CutHeld(held: map<nat, map<Key, Entry>>, number: map<Entry, nat>, next: nat, c: nat, k: Key)
    requires NumbersOk(held, number, next) && c in held
    ensures NumbersOk(held[c := held[c] - {k}], number, next)
    ensures HeldAll(held[c := held[c] - {k}], number)
         == HeldAll(held, number)[c := HeldAll(held, number)[c] - {k}]
  {
    assert HeldBy(held[c] - {k}, number) == HeldBy(held[c], number) - {k};
  }

  lemma LeaveParts(ix: Index, c: nat, k: Key, flag: bool, i: nat)
    requires c in ix.held && k in ix.held[c] && k in ix.waiting && i < |ix.waiting[k]|
    requires Unlink(ix.waiting[k], ix.held[c][k]) == ix.waiting[k][..i] + ix.waiting[k][i + 1..]
    ensures var l := ix.waiting[k][..i] + ix.waiting[k][i + 1..];
      Leave(ix, c, k, flag) == Index(
        if l == [] then ix.waiting - {k} else ix.waiting[k := l],
        if l == [] then ix.nokey - {k} else if !flag || k !in ix.nokey then ix.nokey
        else if ix.nokey[k] <= 1 then ix.nokey - {k} else ix.nokey[k := ix.nokey[k] - 1],
        ix.held[c := ix.held[c] - {k}], ix.next)
  {}
}
