/**
 The circular doubly linked list of `qlist.h`. Nodes live on the heap and every
 operation rewrites `next` and `prev` in place. A list is its head node; the
 nodes after it, in order, are what the list holds.
 */
module Qlist {

  class Node {
    var next: Node
    var prev: Node

    constructor ()
      ensures next == this && prev == this
    {
      next, prev := this, this;
    }
  }

  /** The k-th node met when walking from `head`; position |items| + 1 is `head` again. */
  ghost function At(head: Node, items: seq<Node>, k: nat): Node
    requires k <= |items| + 1
  {
    if k == 0 || k == |items| + 1 then head else items[k - 1]
  }

  ghost function Nodes(head: Node, items: seq<Node>): set<Node> {
    {head} + set i | 0 <= i < |items| :: items[i]
  }

  ghost predicate Distinct(head: Node, items: seq<Node>) {
    head !in items && forall i, j :: 0 <= i < j < |items| ==> items[i] != items[j]
  }

  /** `head` holds exactly `items`: the nodes are distinct, and `next` and `prev` are mutually inverse. */
  ghost predicate Holds(head: Node, items: seq<Node>)
    reads Nodes(head, items)
  {
    && Distinct(head, items)
    && (forall k: nat :: k <= |items| ==> At(head, items, k).next == At(head, items, k + 1))
    && (forall k: nat :: k <= |items| ==> At(head, items, k + 1).prev == At(head, items, k))
  }

  /** A family of lists that share no node. */
  ghost predicate AllHold(lists: map<Node, seq<Node>>)
    reads set h, n | h in lists && n in Nodes(h, lists[h]) :: n
  {
    && (forall h :: h in lists ==> Holds(h, lists[h]))
    && (forall h, g :: h in lists && g in lists && h != g ==> Nodes(h, lists[h]) !! Nodes(g, lists[g]))
  }

  ghost function Without(items: seq<Node>, i: nat): seq<Node>
    requires i < |items|
  {
    items[..i] + items[i + 1..]
  }

  lemma {:induction false} NodesAppend(head: Node, items: seq<Node>, item: Node)
    ensures Nodes(head, items + [item]) == Nodes(head, items) + {item}
  {
    var after := items + [item];
    assert after[|items|] == item;
    assert forall i :: 0 <= i < |items| ==> after[i] == items[i];
  }

  /** qlist_init: the node becomes the head of an empty list, whatever it pointed to before. */
  method Init(node: Node, ghost lists: map<Node, seq<Node>>)
    requires AllHold(lists)
    requires forall h :: h in lists ==> node !in Nodes(h, lists[h])
    modifies node
    ensures AllHold(lists[node := []])
  {
    node.next := node;
    node.prev := node;
  }

  /** qlist_add_tail on one list. */
  method AddTail(head: Node, item: Node, ghost items: seq<Node>)
    requires Holds(head, items)
    requires item !in Nodes(head, items)
    modifies head, item, head.prev
    ensures old(head.prev) in Nodes(head, items)
    ensures Holds(head, items + [item])
  {
    ghost var last := At(head, items, |items|);
    assert At(head, items, |items| + 1).prev == last;
    item.next := head;
    item.prev := head.prev;
    head.prev.next := item;
    head.prev := item;
    ghost var after := items + [item];
    assert forall k: nat :: k <= |items| ==> At(head, after, k) == At(head, items, k);
    assert At(head, after, |items| + 1) == item;
    assert forall k: nat :: k < |items| ==> At(head, items, k) != last;
  }

  /** qlist_remove on one list. The removed node keeps its own stale pointers. */
  method Remove(item: Node, ghost head: Node, ghost items: seq<Node>, ghost i: nat)
    requires Holds(head, items)
    requires i < |items| && items[i] == item
    modifies item.next, item.prev
    ensures old(item.next) in Nodes(head, items) && old(item.prev) in Nodes(head, items)
    ensures Holds(head, Without(items, i))
    ensures item.next == old(item.next) && item.prev == old(item.prev)
  {
    assert At(head, items, i + 1) == item;
    assert item.next == At(head, items, i + 2);
    assert item.prev == At(head, items, i);
    item.next.prev := item.prev;
    item.prev.next := item.next;
    ghost var after := Without(items, i);
    assert forall k: nat :: k <= i ==> At(head, after, k) == At(head, items, k);
    assert forall k: nat :: i < k <= |items| ==> At(head, after, k) == At(head, items, k + 1);
  }

  /** qlist_add_tail in a family of disjoint lists: that list gains the item at its end, no other changes. */
  method AddTailAmong(head: Node, item: Node, ghost lists: map<Node, seq<Node>>)
    requires AllHold(lists) && head in lists
    requires forall h :: h in lists ==> item !in Nodes(h, lists[h])
    modifies head, item, head.prev
    ensures AllHold(lists[head := lists[head] + [item]])
  {
    AddTail(head, item, lists[head]);
    ghost var after := lists[head := lists[head] + [item]];
    NodesAppend(head, lists[head], item);
    forall h | h in after ensures Holds(h, after[h]) {
      if h != head {
        assert Nodes(h, lists[h]) !! Nodes(head, lists[head]);
      }
    }
  }

  /** qlist_remove in a family of disjoint lists: that element goes, no other list changes. */
  method RemoveAmong(item: Node, ghost head: Node, ghost i: nat, ghost lists: map<Node, seq<Node>>)
    requires AllHold(lists) && head in lists
    requires i < |lists[head]| && lists[head][i] == item
    modifies item.next, item.prev
    ensures AllHold(lists[head := Without(lists[head], i)])
    ensures forall h :: h in lists ==> item !in Nodes(h, lists[head := Without(lists[head], i)][h])
  {
    Remove(item, head, lists[head], i);
    ghost var after := lists[head := Without(lists[head], i)];
    assert Nodes(head, after[head]) <= Nodes(head, lists[head]);
    assert item in Nodes(head, lists[head]);
    forall h | h in after ensures Holds(h, after[h]) {
      if h != head {
        assert Nodes(h, lists[h]) !! Nodes(head, lists[head]);
      }
    }
  }

  /** One list operation, as a program issues it. */
  datatype Op = InitOp(node: Node) | AddTailOp(head: Node, item: Node) | RemoveOp(item: Node)

  ghost predicate Free(node: Node, lists: map<Node, seq<Node>>) {
    forall h :: h in lists ==> node !in Nodes(h, lists[h])
  }

  /** What the caller owes: a node joins one list at most, and only members are removed. */
  ghost predicate Legal(lists: map<Node, seq<Node>>, op: Op) {
    match op
    case InitOp(node) => Free(node, lists)
    case AddTailOp(head, item) => head in lists && Free(item, lists)
    case RemoveOp(item) => exists h :: h in lists && item in lists[h]
  }

  /** What the operation does to the mathematical sequences. */
  ghost function Apply(lists: map<Node, seq<Node>>, op: Op): map<Node, seq<Node>>
    requires Legal(lists, op)
  {
    match op
    case InitOp(node) => lists[node := []]
    case AddTailOp(head, item) => lists[head := lists[head] + [item]]
    case RemoveOp(item) => map h | h in lists :: Delete(lists[h], item)
  }

  ghost function Delete(items: seq<Node>, item: Node): seq<Node> {
    if items == [] then [] else if items[0] == item then items[1..] else [items[0]] + Delete(items[1..], item)
  }

  lemma {:induction false} DeleteIsWithout(items: seq<Node>, item: Node, i: nat)
    requires i < |items| && items[i] == item && forall j :: 0 <= j < i ==> items[j] != item
    ensures Delete(items, item) == Without(items, i)
  {
    if i > 0 {
      DeleteIsWithout(items[1..], item, i - 1);
      assert Without(items, i) == [items[0]] + Without(items[1..], i - 1);
    }
  }

  lemma {:induction false} DeleteAbsent(items: seq<Node>, item: Node)
    requires item !in items
    ensures Delete(items, item) == items
  {
    if items != [] {
      DeleteAbsent(items[1..], item);
    }
  }

  ghost predicate LegalAll(lists: map<Node, seq<Node>>, ops: seq<Op>)
    decreases |ops|
  {
    ops == [] || (Legal(lists, ops[0]) && LegalAll(Apply(lists, ops[0]), ops[1..]))
  }

  ghost function ApplyAll(lists: map<Node, seq<Node>>, ops: seq<Op>): map<Node, seq<Node>>
    requires LegalAll(lists, ops)
    decreases |ops|
  {
    if ops == [] then lists else ApplyAll(Apply(lists, ops[0]), ops[1..])
  }

  ghost predicate Within(nodes: set<Node>, lists: map<Node, seq<Node>>) {
    forall h :: h in lists ==> Nodes(h, lists[h]) <= nodes
  }

  ghost predicate OpWithin(nodes: set<Node>, op: Op) {
    match op
    case InitOp(node) => node in nodes
    case AddTailOp(head, item) => head in nodes && item in nodes
    case RemoveOp(item) => item in nodes
  }

  lemma {:induction false} AddAgrees(lists: map<Node, seq<Node>>, nodes: set<Node>, head: Node, item: Node)
    requires head in lists && Within(nodes, lists) && item in nodes
    ensures Within(nodes, lists[head := lists[head] + [item]])
  {
    NodesAppend(head, lists[head], item);
  }

  lemma {:induction false} RemoveAgrees(lists: map<Node, seq<Node>>, nodes: set<Node>, h: Node, item: Node, i: nat)
    requires AllHold(lists) && Within(nodes, lists)
    requires h in lists && i < |lists[h]| && lists[h][i] == item
    ensures Legal(lists, RemoveOp(item)) && Apply(lists, RemoveOp(item)) == lists[h := Without(lists[h], i)]
    ensures Within(nodes, lists[h := Without(lists[h], i)])
  {
    DeleteIsWithout(lists[h], item, i);
    forall g | g in lists && g != h ensures Delete(lists[g], item) == lists[g] {
      assert item in Nodes(h, lists[h]) && item !in Nodes(g, lists[g]);
      DeleteAbsent(lists[g], item);
    }
    assert Nodes(h, Without(lists[h], i)) <= Nodes(h, lists[h]);
  }

  method Perform(op: Op, ghost lists: map<Node, seq<Node>>, ghost nodes: set<Node>)
    requires AllHold(lists) && Legal(lists, op) && Within(nodes, lists) && OpWithin(nodes, op)
    modifies nodes
    ensures AllHold(Apply(lists, op)) && Within(nodes, Apply(lists, op))
  {
    match op
    case InitOp(node) =>
      Init(node, lists);
    case AddTailOp(head, item) =>
      TailInNodes(head, lists[head]);
      AddTailAmong(head, item, lists);
      AddAgrees(lists, nodes, head, item);
    case RemoveOp(item) =>
      ghost var h :| h in lists && item in lists[h];
      ghost var i: nat :| i < |lists[h]| && lists[h][i] == item;
      MemberNeighbours(h, lists[h], i);
      assert h in Nodes(h, lists[h]);
      RemoveAgrees(lists, nodes, h, item, i);
      RemoveAmong(item, h, i, lists);
  }

  lemma {:induction false} MemberNeighbours(head: Node, items: seq<Node>, i: nat)
    requires Holds(head, items) && i < |items|
    ensures items[i].next in Nodes(head, items) && items[i].prev in Nodes(head, items)
  {
    assert items[i] == At(head, items, i + 1);
    assert items[i].next == At(head, items, i + 2) && items[i].prev == At(head, items, i);
    AtInNodes(head, items, i);
    AtInNodes(head, items, i + 2);
  }

  lemma {:induction false} AtInNodes(head: Node, items: seq<Node>, k: nat)
    requires k <= |items| + 1
    ensures At(head, items, k) in Nodes(head, items)
  {
    if 0 < k <= |items| {
      assert items[k - 1] in Nodes(head, items);
    }
  }

  lemma {:induction false} TailInNodes(head: Node, items: seq<Node>)
    requires Holds(head, items)
    ensures head.prev in Nodes(head, items)
  {
    assert At(head, items, |items| + 1).prev == At(head, items, |items|);
    AtInNodes(head, items, |items|);
  }

  /** Every legal sequence of operations leaves the heap holding what the mathematical sequences say. */
  method PerformAll(ops: seq<Op>, ghost lists: map<Node, seq<Node>>, ghost nodes: set<Node>)
    requires AllHold(lists) && LegalAll(lists, ops) && Within(nodes, lists) && forall k :: 0 <= k < |ops| ==>
      OpWithin(nodes, ops[k])
    modifies nodes
    ensures AllHold(ApplyAll(lists, ops))
  {
    ghost var now := lists;
    var k := 0;
    while k < |ops|
      invariant 0 <= k <= |ops|
      invariant AllHold(now) && Within(nodes, now) && LegalAll(now, ops[k..])
      invariant ApplyAll(now, ops[k..]) == ApplyAll(lists, ops)
    {
      assert ops[k..][0] == ops[k] && ops[k..][1..] == ops[k + 1..];
      Perform(ops[k], now, nodes);
      now := Apply(now, ops[k]);
      k := k + 1;
    }
  }

  /** qlist_for_each: walks to the end and visits exactly the held nodes, in order. */
  method ForEach(head: Node, ghost items: seq<Node>) returns (visited: seq<Node>)
    requires Holds(head, items)
    ensures visited == items
  {
    visited := [];
    var node := head.next;
    assert At(head, items, 0).next == At(head, items, 1);
    while node != head
      invariant |visited| <= |items| && visited == items[..|visited|]
      invariant node == At(head, items, |visited| + 1)
      decreases |items| - |visited|
    {
      visited := visited + [node];
      node := node.next;
    }
  }

  /** qlist_empty. */
  method IsEmpty(head: Node, ghost items: seq<Node>) returns (empty: bool)
    requires Holds(head, items)
    ensures empty <==> items == []
  {
    empty := head == head.next;
    assert At(head, items, 0).next == At(head, items, 1);
  }
}
