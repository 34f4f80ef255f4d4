// The queue of requests: a circular doubly linked list through a list head, changed in place.
module RequestList {
  import opened Message

  class Node {
    var next: Node
    var prev: Node
    var request: Request

    // INIT_LIST_HEAD
    constructor (req: Request)
      ensures next == this && prev == this && request == req
    {
      next := this;
      prev := this;
      request := req;
    }
  }

  // `nodes` is the list the ring stands for, first entry first; the head itself is no entry.
  class List {
    const head: Node
    ghost var nodes: seq<Node>

    ghost predicate Valid()
      reads this, head, nodes
    {
      && head !in nodes
      && (forall i, j :: 0 <= i < j < |nodes| ==> nodes[i] != nodes[j])
      && forall i :: 0 <= i <= |nodes| ==> LinkAt(i)
    }

    // Position i and the one before it point at each other.
    ghost predicate LinkAt(i: int)
      reads this, head, nodes
    {
      At(i - 1).next == At(i) && At(i).prev == At(i - 1)
    }

    // The ring position i, the head standing before the first and behind the last entry.
    ghost function At(i: int): Node
      reads this
    {
      if 0 <= i < |nodes| then nodes[i] else head
    }

    // The requests in the order they are served.
    ghost function Contents(): (s: seq<Request>)
      reads this, nodes
      ensures |s| == |nodes|
    {
      seq(|nodes|, i requires 0 <= i < |nodes| reads this, nodes => nodes[i].request)
    }

    constructor (blank: Request)
      ensures Valid() && nodes == [] && Contents() == []
      ensures fresh(head)
    {
      head := new Node(blank);
      nodes := [];
    }

    method IsEmpty() returns (empty: bool)
      requires Valid()
      ensures empty <==> Contents() == []
    {
      assert LinkAt(0);
      empty := head.next == head;
    }

    // list_first_entry; on an empty list it is the head, which is no entry.
    method First() returns (n: Node)
      requires Valid()
      ensures nodes != [] ==> n == nodes[0] && n.request == Contents()[0]
      ensures nodes == [] ==> n == head
    {
      assert LinkAt(0);
      n := head.next;
    }

    // list_add_tail
    method AddTail(n: Node)
      requires Valid() && n != head && n !in nodes
      modifies this`nodes, head`next, head`prev, nodes`next, nodes`prev, n`next, n`prev
      ensures Valid() && nodes == old(nodes) + [n]
      ensures Contents() == old(Contents()) + [n.request]
    {
      assert LinkAt(|nodes|);
      var last := head.prev;
      head.prev := n;
      n.next := head;
      n.prev := last;
      last.next := n;
      nodes := nodes + [n];
      forall k | 0 <= k <= |nodes|
        ensures LinkAt(k)
      {
        if k < |nodes| - 1 {
          assert old(LinkAt(k));
        }
      }
    }

    // list_del of any linked entry, given only the entry.
    method Delete(n: Node, ghost i: nat)
      requires Valid() && i < |nodes| && nodes[i] == n
      modifies this`nodes, head`next, head`prev, nodes`next, nodes`prev
      ensures Valid() && nodes == old(nodes)[..i] + old(nodes)[i + 1..]
      ensures Contents() == old(Contents())[..i] + old(Contents())[i + 1..]
    {
      assert LinkAt(i) && LinkAt(i + 1);
      ghost var was, contents := nodes, Contents();
      var p, q := n.prev, n.next;
      q.prev := p;
      p.next := q;
      nodes := nodes[..i] + nodes[i + 1..];
      forall k | 0 <= k <= |nodes|
        ensures LinkAt(k)
      {
        if k < i {
          assert old(LinkAt(k));
        } else if k > i {
          assert old(LinkAt(k + 1));
        }
      }
      forall k | 0 <= k < |nodes|
        ensures nodes[k].request == (contents[..i] + contents[i + 1..])[k]
      {
        assert nodes[k] == if k < i then was[k] else was[k + 1];
      }
    }
  }
}
