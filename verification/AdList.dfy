/**
 The doubly linked list (`adlist.c`). `nodes` is the list from head to tail; each
 operation rewrites a few pointers and is specified by what becomes of `nodes`.
 */
module AdList {

  class Node<T> {
    const value: T
    var prev: Node?<T>
    var next: Node?<T>

    constructor (value: T)
      ensures this.value == value && prev == null && next == null
    {
      this.value := value;
      prev, next := null, null;
    }
  }

  class List<T> {
    var head: Node?<T>
    var tail: Node?<T>
    var len: nat
    ghost var nodes: seq<Node<T>>

    ghost predicate Valid()
      reads this, nodes
    {
      && len == |nodes|
      && (nodes == [] ==> head == null && tail == null)
      && (nodes != [] ==> head == nodes[0] && tail == nodes[|nodes| - 1] && head.prev == null && tail.next == null)
      && (forall i, j :: 0 <= i < j < |nodes| ==> nodes[i] != nodes[j])
      && (forall i {:trigger nodes[i].next} :: 0 <= i < |nodes| - 1 ==> nodes[i].next == nodes[i + 1])
      && (forall i {:trigger nodes[i].prev} :: 0 < i < |nodes| ==> nodes[i].prev == nodes[i - 1])
    }

    constructor ()
      ensures Valid() && nodes == []
    {
      head, tail, len, nodes := null, null, 0, [];
    }

    method LinkNodeTail(node: Node<T>)
      requires Valid() && node !in nodes
      modifies this, node, nodes
      ensures Valid() && nodes == old(nodes) + [node]
    {
      if len == 0 {
        head, tail := node, node;
        node.prev, node.next := null, null;
      } else {
        node.prev := tail;
        node.next := null;
        tail.next := node;
        tail := node;
      }
      len := len + 1;
      nodes := nodes + [node];
    }

    method LinkNodeHead(node: Node<T>)
      requires Valid() && node !in nodes
      modifies this, node, nodes
      ensures Valid() && nodes == [node] + old(nodes)
    {
      if len == 0 {
        head, tail := node, node;
        node.prev, node.next := null, null;
      } else {
        node.prev := null;
        node.next := head;
        head.prev := node;
        head := node;
      }
      len := len + 1;
      nodes := [node] + nodes;
    }

    method AddNodeTail(value: T) returns (node: Node<T>)
      requires Valid()
      modifies this, nodes
      ensures Valid() && fresh(node) && node.value == value && nodes == old(nodes) + [node]
    {
      node := new Node(value);
      LinkNodeTail(node);
    }

    /** The pointers around `node` are set: record its place. */
    ghost method Place(at: nat, node: Node<T>)
      requires at <= |nodes| && node !in nodes && len == |nodes| + 1
      requires forall i, j :: 0 <= i < j < |nodes| ==> nodes[i] != nodes[j]
      requires head == (if at == 0 then node else nodes[0]) && head.prev == null
      requires tail == (if at == |nodes| then node else nodes[|nodes| - 1]) && tail.next == null
      requires forall i {:trigger nodes[i].next} :: 0 <= i < |nodes| - 1 && i + 1 != at ==>
        nodes[i].next == nodes[i + 1]
      requires forall i {:trigger nodes[i].prev} :: 0 < i < |nodes| && i != at ==> nodes[i].prev == nodes[i - 1]
      requires at > 0 ==> nodes[at - 1].next == node && node.prev == nodes[at - 1]
      requires at < |nodes| ==> nodes[at].prev == node && node.next == nodes[at]
      modifies `nodes
      ensures Valid() && nodes == old(nodes)[..at] + [node] + old(nodes)[at..]
    {
      nodes := nodes[..at] + [node] + nodes[at..];
    }

    /** `listInsertNode` after a node of the list, which stands at place `i`. */
    method InsertAfter(oldNode: Node<T>, node: Node<T>, ghost i: nat)
      requires Valid() && i < |nodes| && nodes[i] == oldNode && node !in nodes
      modifies this, nodes, node
      ensures Valid() && nodes == old(nodes)[..i + 1] + [node] + old(nodes)[i + 1..]
    {
      node.prev := oldNode;
      node.next := oldNode.next;
      if tail == oldNode { tail := node; }
      oldNode.next := node;
      if node.next != null { node.next.prev := node; }
      len := len + 1;
      Place(i + 1, node);
    }

    /** `listInsertNode` before a node of the list, which stands at place `i`. */
    method InsertBefore(oldNode: Node<T>, node: Node<T>, ghost i: nat)
      requires Valid() && i < |nodes| && nodes[i] == oldNode && node !in nodes
      modifies this, nodes, node
      ensures Valid() && nodes == old(nodes)[..i] + [node] + old(nodes)[i..]
    {
      node.next := oldNode;
      node.prev := oldNode.prev;
      if head == oldNode { head := node; }
      if node.prev != null { node.prev.next := node; }
      oldNode.prev := node;
      len := len + 1;
      Place(i, node);
    }

    method InsertNode(oldNode: Node<T>, value: T, after: bool, ghost i: nat) returns (node: Node<T>)
      requires Valid() && i < |nodes| && nodes[i] == oldNode
      modifies this, nodes
      ensures Valid() && fresh(node) && node.value == value
      ensures var at := if after then i + 1 else i; nodes == old(nodes)[..at] + [node] + old(nodes)[at..]
    {
      node := new Node(value);
      if after { InsertAfter(oldNode, node, i); } else { InsertBefore(oldNode, node, i); }
    }

    /** The pointers around the node at `at` skip it: forget its place. */
    ghost method Displace(at: nat)
      requires at < |nodes| && len == |nodes| - 1
      requires forall i, j :: 0 <= i < j < |nodes| ==> nodes[i] != nodes[j]
      requires |nodes| == 1 ==> head == null && tail == null
      requires |nodes| > 1 ==> head == (if at == 0 then nodes[1] else nodes[0]) && head.prev == null
      requires |nodes| > 1 ==>
        tail == (if at == |nodes| - 1 then nodes[|nodes| - 2] else nodes[|nodes| - 1]) && tail.next == null
      requires forall i {:trigger nodes[i].next} :: 0 <= i < |nodes| - 1 && i != at && i + 1 != at ==>
        nodes[i].next == nodes[i + 1]
      requires forall i {:trigger nodes[i].prev} :: 0 < i < |nodes| && i != at && i - 1 != at ==>
        nodes[i].prev == nodes[i - 1]
      requires 0 < at < |nodes| - 1 ==> nodes[at - 1].next == nodes[at + 1] && nodes[at + 1].prev == nodes[at - 1]
      modifies `nodes
      ensures Valid() && nodes == old(nodes)[..at] + old(nodes)[at + 1..]
    {
      nodes := nodes[..at] + nodes[at + 1..];
    }

    /** Unlink a node of the list, which stands at place `i`. */
    method UnlinkNode(node: Node<T>, ghost i: nat)
      requires Valid() && i < |nodes| && nodes[i] == node
      modifies this, node, node.prev, node.next
      ensures Valid() && nodes == old(nodes)[..i] + old(nodes)[i + 1..]
      ensures node.prev == null && node.next == null
    {
      if node.prev != null { node.prev.next := node.next; } else { head := node.next; }
      if node.next != null { node.next.prev := node.prev; } else { tail := node.prev; }
      node.next := null;
      node.prev := null;
      len := len - 1;
      Displace(i);
    }

    method RotateTailToHead()
      requires Valid()
      modifies this, nodes
      ensures Valid()
      ensures nodes == if |old(nodes)| <= 1 then old(nodes)
        else [old(nodes)[|old(nodes)| - 1]] + old(nodes)[..|old(nodes)| - 1]
    {
      if len <= 1 { return; }
      var t := tail;
      ghost var n := |nodes|;
      tail := t.prev;
      tail.next := null;
      head.prev := t;
      t.prev := null;
      t.next := head;
      head := t;
      nodes := [nodes[n - 1]] + nodes[..n - 1];
    }

    method RotateHeadToTail()
      requires Valid()
      modifies this, nodes
      ensures Valid()
      ensures nodes == if |old(nodes)| <= 1 then old(nodes) else old(nodes)[1..] + [old(nodes)[0]]
    {
      if len <= 1 { return; }
      var h := head;
      head := h.next;
      head.prev := null;
      tail.next := h;
      h.next := null;
      h.prev := tail;
      tail := h;
      nodes := nodes[1..] + [nodes[0]];
    }

    method Join(o: List<T>)
      requires Valid() && o.Valid() && o != this && (forall i, j :: 0 <= i < |nodes| && 0 <= j < |o.nodes| ==>
        nodes[i] != o.nodes[j])
      modifies this, nodes, o, o.nodes
      ensures Valid() && o.Valid() && nodes == old(nodes) + old(o.nodes) && o.nodes == []
    {
      if o.len == 0 { return; }
      ghost var a, b := nodes, o.nodes;
      o.head.prev := tail;
      if tail != null { tail.next := o.head; } else { head := o.head; }
      tail := o.tail;
      len := len + o.len;
      nodes := a + b;
      o.head, o.tail, o.len, o.nodes := null, null, 0, [];
    }

    /** `listLength(l) == 0`. */
    method Empty() returns (empty: bool)
      requires Valid()
      ensures empty <==> nodes == []
    {
      empty := len == 0;
    }

    method Rewind() returns (next: Node?<T>)
      requires Valid()
      ensures next == if nodes == [] then null else nodes[0]
    {
      next := head;
    }

    lemma Neighbours(i: nat)
      requires Valid() && i < |nodes|
      ensures nodes[i].prev != null ==> i > 0 && nodes[i].prev == nodes[i - 1]
      ensures nodes[i].next != null ==> i + 1 < |nodes| && nodes[i].next == nodes[i + 1]
    {}

    /** `listDelNode`: the node is unlinked, and what it stood between is in the list. */
    method DelNode(node: Node<T>, ghost i: nat)
      requires Valid() && i < |nodes| && nodes[i] == node
      modifies this, nodes
      ensures Valid() && nodes == old(nodes)[..i] + old(nodes)[i + 1..]
    {
      Neighbours(i);
      UnlinkNode(node, i);
    }

    /** One turn of an iteration: `listNext` reads the link before the element is deleted. */
    method Visit(current: Node<T>, keep: T -> bool, ghost i: nat) returns (next: Node?<T>)
      requires Valid() && i < |nodes| && nodes[i] == current
      modifies this, current, current.prev, current.next
      ensures Valid()
      ensures next == if i + 1 == |old(nodes)| then null else old(nodes)[i + 1]
      ensures nodes == if keep(current.value) then old(nodes) else old(nodes)[..i] + old(nodes)[i + 1..]
    {
      next := current.next;
      if !keep(current.value) { UnlinkNode(current, i); }
    }

    /** One turn after `k` elements of `all` have been visited. */
    method Turn(current: Node<T>, keep: T -> bool, ghost all: seq<Node<T>>, ghost k: nat) returns (next: Node?<T>)
      requires Valid() && k < |all| && current == all[k] && nodes == Kept(all[..k], keep) + all[k..]
      modifies this, all
      ensures Valid() && nodes == Kept(all[..k + 1], keep) + all[k + 1..]
      ensures next == if k + 1 == |all| then null else all[k + 1]
    {
      hide Kept, Valid;
      ghost var i := |Kept(all[..k], keep)|;
      KeptTurn(all, k, keep);
      KeptIn(all, k, keep);
      Neighbours(i);
      next := Visit(current, keep, i);
    }

    /**
     An iteration from head to tail that deletes the element `listNext` has just returned whenever `keep` rejects
     it: every element of the list is visited once, in order.
     */
    method Sweep(keep: T -> bool) returns (visited: seq<T>)
      requires Valid()
      modifies this, nodes
      ensures Valid() && nodes == Kept(old(nodes), keep) && visited == Values(old(nodes))
    {
      hide Kept, Valid, Values;
      ghost var all, k := nodes, 0;
      var next := Rewind();
      visited := [];
      KeptStart(all, keep);
      ValuesStart(all);
      while next != null
        invariant 0 <= k <= |all|
        invariant Valid() && nodes == Kept(all[..k], keep) + all[k..]
        invariant next == if k == |all| then null else all[k]
        invariant visited == Values(all[..k])
        decreases |all| - k
      {
        var current := next;
        visited := visited + [current.value];
        ValuesSnoc(all, k);
        next := Turn(current, keep, all, k);
        k := k + 1;
      }
      assert all[..k] == all && all[k..] == [];
    }
  }

  lemma KeptStart<T>(all: seq<Node<T>>, keep: T -> bool)
    ensures Kept(all[..0], keep) == [] && all == Kept(all[..0], keep) + all[0..]
  {}

  lemma {:induction false} KeptIn<T>(all: seq<Node<T>>, k: nat, keep: T -> bool)
    requires k <= |all|
    ensures var now := Kept(all[..k], keep) + all[k..]; forall i :: 0 <= i < |now| ==> now[i] in all
    decreases k
  {
    hide Kept;
    if k == 0 {
      KeptStart(all, keep);
    } else {
      KeptIn(all, k - 1, keep);
      KeptSnoc(all, k - 1, keep);
      var now, was := Kept(all[..k], keep) + all[k..], Kept(all[..k - 1], keep) + all[k - 1..];
      forall i | 0 <= i < |now| ensures now[i] in all {
        if i < |Kept(all[..k - 1], keep)| { assert now[i] == was[i]; }
      }
    }
  }

  lemma KeptTurn<T>(all: seq<Node<T>>, k: nat, keep: T -> bool)
    requires k < |all|
    ensures var a := Kept(all[..k], keep); var now := a + all[k..]; var i := |a|;
      && now[i] == all[k] && (k + 1 < |all| ==> now[i + 1] == all[k + 1]) && (k + 1 == |all| <==> i + 1 == |now|)
      && Kept(all[..k + 1], keep) + all[k + 1..] == if keep(all[k].value) then now else now[..i] + now[i + 1..]
  {
    hide Kept;
    KeptSnoc(all, k, keep);
    assert all[k..] == [all[k]] + all[k + 1..];
  }

  ghost function Values<T>(nodes: seq<Node<T>>): seq<T> { seq(|nodes|, i requires 0 <= i < |nodes| => nodes[i].value) }

  lemma ValuesStart<T>(nodes: seq<Node<T>>)
    ensures Values(nodes[..0]) == []
  {}

  lemma ValuesSnoc<T>(nodes: seq<Node<T>>, k: nat)
    requires k < |nodes|
    ensures Values(nodes[..k + 1]) == Values(nodes[..k]) + [nodes[k].value]
  {}

  ghost function Kept<T>(nodes: seq<Node<T>>, keep: T -> bool): seq<Node<T>> {
    if nodes == [] then [] else
      var front, last := nodes[..|nodes| - 1], nodes[|nodes| - 1];
      Kept(front, keep) + if keep(last.value) then [last] else []
  }

  lemma KeptSnoc<T>(nodes: seq<Node<T>>, k: nat, keep: T -> bool)
    requires k < |nodes|
    ensures Kept(nodes[..k + 1], keep) == Kept(nodes[..k], keep) + if keep(nodes[k].value) then [nodes[k]] else []
  {
    assert nodes[..k + 1][..k] == nodes[..k];
  }
}
