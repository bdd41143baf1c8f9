/**
 * A doubly linked list of `int`s: heap nodes chained forwards by `next` and backwards by
 * `prev`, with the list recording its first and last node.
 */
module LinkedList {

  /** A `list_node`. */
  class Node {
    var next: Node?
    var prev: Node?
    var data: int

    /** A fresh node carrying `data`, linked to nothing. */
    constructor (data: int)
      ensures this.data == data && next == null && prev == null
    {
      this.data := data;
      next := null;
      prev := null;
    }
  }

  /** One line `show_items` prints: an item's position and its value. */
  datatype Item = Item(index: int, value: int)

  /** A `list`: its `head` and `tail` nodes. */
  class List {
    var head: Node?
    var tail: Node?
    /** The nodes from `head` to `tail`, in `next` order. */
    ghost var nodes: seq<Node>
    ghost var Repr: set<object>

    /**
     * `head` and `tail` are the first and last node (both null when there is none), each
     * node's `next` is the one after it and its `prev` the one before it, with null past
     * either end.
     */
    ghost predicate Valid()
      reads this, Repr
    {
      this in Repr &&
      (forall i :: 0 <= i < |nodes| ==> nodes[i] in Repr) &&
      (nodes == [] ==> head == null && tail == null) &&
      (nodes != [] ==> head == nodes[0] && tail == nodes[|nodes| - 1]) &&
      (nodes != [] ==> nodes[0].prev == null && nodes[|nodes| - 1].next == null) &&
      (forall i :: 0 <= i < |nodes| - 1 ==> nodes[i].next == nodes[i + 1]) &&
      (forall i :: 0 < i < |nodes| ==> nodes[i].prev == nodes[i - 1])
    }

    /** The values held, from `head` to `tail`. */
    ghost function Data(): (r: seq<int>)
      requires Valid()
      reads this, Repr
      ensures |r| == |nodes| && forall i :: 0 <= i < |nodes| ==> r[i] == nodes[i].data
    {
      seq(|nodes|, i requires 0 <= i < |nodes| reads this, nodes => nodes[i].data)
    }

    /** An empty list. */
    constructor ()
      ensures Valid() && nodes == [] && fresh(Repr - {this})
    {
      head := null;
      tail := null;
      nodes := [];
      Repr := {this};
    }

    /**
     * `list_append`: a fresh node carrying `data` becomes the tail. On an empty list it is
     * also the head; otherwise the old tail links forwards to it and it links back to the
     * old tail, and the head stays. The values read from the head are the old ones followed
     * by `data`.
     */
    method Append(data: int)
      requires Valid()
      modifies this, tail
      ensures Valid() && fresh(Repr - old(Repr))
      ensures |nodes| == |old(nodes)| + 1 && nodes[..|old(nodes)|] == old(nodes)
      ensures fresh(tail) && tail == nodes[|nodes| - 1] && tail.data == data && tail.next == null
      ensures old(tail) == null ==> head == tail
      ensures old(tail) != null ==> head == old(head) && old(tail).next == tail && tail.prev == old(tail)
      ensures Data() == old(Data()) + [data]
    {
      if tail != null {
        // Only the last node has no successor, so the tail occurs once.
        forall i | 0 <= i < |nodes| - 1
          ensures nodes[i] != tail
        {
          assert nodes[i].next == nodes[i + 1];
        }
      }
      var node := new Node(data);
      assert forall i :: 0 <= i < |nodes| ==> nodes[i] != node;
      if tail == null {
        head := node;
        tail := node;
      } else {
        tail.next := node;
        node.prev := tail;
        tail := node;
      }
      nodes := nodes + [node];
      Repr := Repr + {node};
    }

    /**
     * `show_items`: walks from `head` along `next` until null, numbering the nodes from 0;
     * it reports every value held, in order, and stops after the last node.
     */
    method ShowItems() returns (items: seq<Item>)
      requires Valid()
      ensures |items| == |nodes|
      ensures forall i :: 0 <= i < |items| ==> items[i] == Item(i, Data()[i])
    {
      var current := head;
      var i := 0;
      items := [];
      while current != null
        invariant 0 <= i <= |nodes| && |items| == i
        invariant current == if i < |nodes| then nodes[i] else null
        invariant forall k :: 0 <= k < i ==> items[k] == Item(k, nodes[k].data)
        decreases |nodes| - i
      {
        items := items + [Item(i, current.data)];
        current := current.next;
        i := i + 1;
      }
    }
  }

  /**
   * The five appends of the program's `main`, on a list that starts empty: the walk
   * reports 20, 15, 5, 10, 1 as items 0 to 4.
   */
  method AppendFiveThenShow() returns (items: seq<Item>)
    ensures items == [Item(0, 20), Item(1, 15), Item(2, 5), Item(3, 10), Item(4, 1)]
  {
    var list := new List();
    list.Append(20);
    list.Append(15);
    list.Append(5);
    list.Append(10);
    list.Append(1);
    items := list.ShowItems();
  }
}
