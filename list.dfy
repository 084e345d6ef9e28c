/**
 * sws/src/list.c: a singly linked list of heap nodes with a header that
 * points at the first node.  Nodes are appended at the tail by walking to
 * the last node; clearing the list visits every node once.
 *
 * The ghost sequence `nodes` lists the nodes in link order; `Contents()`
 * is their data in that order.
 */
module List {

  /** `struct node`. */
  class Node<T> {
    var next: Node?<T>
    var data: T

    /** `create_node`: stores `data`, with no successor. */
    constructor (data: T)
      ensures this.data == data && next == null
    {
      this.data := data;
      next := null;
    }
  }

  /** `struct list`. */
  class List<T> {
    var head: Node?<T>
    ghost var nodes: seq<Node<T>>
    ghost var Repr: set<object>

    /**
     * The header points at the first node, each node at the next one, the
     * last at nothing, and no node occurs twice (so the links form no cycle).
     */
    ghost predicate Valid()
      reads this, Repr
    {
      this in Repr &&
      (forall i :: 0 <= i < |nodes| ==> nodes[i] in Repr) &&
      (head == if nodes == [] then null else nodes[0]) &&
      (forall i :: 0 <= i < |nodes| - 1 ==> nodes[i].next == nodes[i + 1]) &&
      (forall i :: 0 <= i < |nodes| ==> (nodes[i].next == null <==> i == |nodes| - 1)) &&
      (forall i, j :: 0 <= i < j < |nodes| ==> nodes[i] != nodes[j])
    }

    /** The data of the nodes, in link order. */
    ghost function Contents(): (r: seq<T>)
      reads this, Repr
      requires Valid()
    {
      seq(|nodes|, i reads this, Repr requires Valid() && 0 <= i < |nodes| => nodes[i].data)
    }

    /** `create_list`: an empty list, head NULL. */
    constructor ()
      ensures Valid() && fresh(Repr)
      ensures head == null && nodes == [] && Contents() == []
    {
      head := null;
      nodes := [];
      Repr := {this};
    }

    /**
     * `append_to_list`: links `n` after the last node, or makes it the head
     * of an empty list.  The earlier nodes keep their order and their data.
     */
    method Append(n: Node<T>)
      requires Valid() && n !in Repr && n.next == null
      modifies this, Repr
      ensures Valid() && Repr == old(Repr) + {n}
      ensures nodes == old(nodes) + [n]
      ensures Contents() == old(Contents()) + [n.data]
      ensures n.data == old(n.data) && n.next == null
    {
      if head == null {
        head := n;
      } else {
        var tmp := head;
        ghost var k := 0;
        while tmp.next != null
          invariant Valid() && 0 <= k < |nodes| && tmp == nodes[k]
          decreases |nodes| - k
        {
          tmp := tmp.next;
          k := k + 1;
        }
        tmp.next := n;
        assert forall i :: 0 <= i < |nodes| - 1 ==> nodes[i] != tmp;
      }
      nodes := nodes + [n];
      Repr := Repr + {n};
    }
  }

  /**
   * `clear_list`: for a NULL list nothing happens; otherwise every node
   * is released in link order and then the header.  The data the nodes
   * point at is not touched.
   */
  method Clear<T>(l: List?<T>) returns (released: seq<object>)
    requires l != null ==> l.Valid()
    ensures l == null ==> released == []
    ensures l != null ==> |released| == |l.nodes| + 1 && released[|l.nodes|] == l
    ensures l != null ==> forall i :: 0 <= i < |l.nodes| ==> released[i] == l.nodes[i]
  {
    released := [];
    if l == null {
      return;
    }
    var tmp := l.head;
    ghost var k := 0;
    while tmp != null
      invariant 0 <= k <= |l.nodes|
      invariant tmp == if k < |l.nodes| then l.nodes[k] else null
      invariant |released| == k
      invariant forall i :: 0 <= i < k ==> released[i] == l.nodes[i]
      decreases |l.nodes| - k
    {
      var tmp2 := tmp;
      tmp := tmp.next;
      released := released + [tmp2];
      k := k + 1;
    }
    released := released + [l];
  }
}
