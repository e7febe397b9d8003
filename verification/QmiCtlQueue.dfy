/**
 The queue of CTL requests as the program keeps it: messages strung on a list of `qlist.h`,
 each found from the list node inside it.
 */
module QmiCtlQueue {
  import opened Common
  import opened QmiProxySpec
  import Qlist

  type Node = Qlist.Node

  class CtlQueue {
    const head: Node
    /** qnode_to_item, for the messages that are allocated. */
    var itemOf: map<Node, Pending>
    ghost var nodes: seq<Node>
    ghost var contents: seq<Pending>

    ghost function Repr(): set<Node>
      reads this
    {
      Qlist.Nodes(head, nodes)
    }

    ghost predicate Valid()
      reads this, Repr()
    {
      && Qlist.Holds(head, nodes) && |contents| == |nodes|
      && forall i :: 0 <= i < |nodes| ==> nodes[i] in itemOf && itemOf[nodes[i]] == contents[i]
    }

    constructor ()
      ensures Valid() && contents == [] && fresh(Repr())
    {
      head := new Qlist.Node();
      itemOf, nodes, contents := map[], [], [];
    }

    method IsEmpty() returns (empty: bool)
      requires Valid()
      ensures empty <==> contents == []
    {
      empty := Qlist.IsEmpty(head, nodes);
    }

    /** The message of qlist_head. */
    method First() returns (p: Pending)
      requires Valid() && contents != []
      ensures p == contents[0]
    {
      assert Qlist.At(head, nodes, 0).next == Qlist.At(head, nodes, 1) == nodes[0];
      p := itemOf[head.next];
    }

    method AddLast(p: Pending)
      requires Valid()
      modifies this, Repr()
      ensures Valid() && contents == old(contents) + [p] && fresh(Repr() - old(Repr()))
    {
      var node := new Qlist.Node();
      Qlist.TailInNodes(head, nodes);
      Qlist.NodesAppend(head, nodes, node);
      Qlist.AddTail(head, node, nodes);
      hide Qlist.Holds;
      itemOf := itemOf[node := p];
      nodes := nodes + [node];
      contents := contents + [p];
    }

    /** qlist_remove and free. */
    method Remove(node: Node, ghost i: nat)
      requires Valid() && i < |nodes| && nodes[i] == node
      modifies this, Repr()
      ensures Valid() && contents == old(contents)[..i] + old(contents)[i + 1..] && Repr() <= old(Repr())
    {
      Qlist.MemberNeighbours(head, nodes, i);
      assert Qlist.Distinct(head, nodes);
      Qlist.Remove(node, head, nodes, i);
      hide Qlist.Holds;
      itemOf := itemOf - {node};
      nodes := Qlist.Without(nodes, i);
      contents := contents[..i] + contents[i + 1..];
    }

    method RemoveFirst()
      requires Valid() && contents != []
      modifies this, Repr()
      ensures Valid() && contents == old(contents)[1..] && Repr() <= old(Repr())
    {
      assert Qlist.At(head, nodes, 0).next == Qlist.At(head, nodes, 1) == nodes[0];
      Remove(head.next, 0);
    }

    /** The first message of a connection is taken out, wherever it stands. */
    method RemoveOf(fd: int) returns (removed: Option<Pending>)
      requires Valid()
      modifies this, Repr()
      ensures Valid() && Repr() <= old(Repr())
      ensures var i := FirstOf(old(contents), fd);
        if i == |old(contents)| then removed == None && contents == old(contents)
        else removed == Some(old(contents)[i]) && contents == old(contents)[..i] + old(contents)[i + 1..]
    {
      hide FirstOf;
      ghost var k := 0;
      var node := head.next;
      assert Qlist.At(head, nodes, 0).next == Qlist.At(head, nodes, 1);
      while node != head
        invariant 0 <= k <= |nodes| && node == Qlist.At(head, nodes, k + 1)
        invariant Valid() && nodes == old(nodes) && contents == old(contents)
        invariant forall j :: 0 <= j < k ==> contents[j].fd != fd
        decreases |nodes| - k
      {
        assert node == nodes[k];
        if itemOf[node].fd == fd {
          assert FirstOf(contents, fd) == k;
          removed := Some(itemOf[node]);
          Remove(node, k);
          return;
        }
        node := node.next;
        k := k + 1;
      }
      removed := None;
    }
  }
}
