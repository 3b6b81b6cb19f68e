/** The doubly linked list of adlist.c: nodes keep their identity through every operation. */
module AdList {

  class Node<T> {
    const value: T
    var prev: Node?<T>
    var next: Node?<T>

    constructor (value: T)
      ensures this.value == value && prev == null && next == null
    {
      this.value, prev, next := value, null, null;
    }
  }

  /** The nodes from head to tail, without repetition. */
  ghost predicate DistinctNodes<T>(nodes: seq<Node<T>>) {
    forall i, j :: 0 <= i < j < |nodes| ==> nodes[i] != nodes[j]
  }

  /** Each node points to its neighbours, the ends to nothing. */
  ghost predicate LinkedAt<T>(nodes: seq<Node<T>>, i: nat)
    requires i < |nodes|
    reads nodes
  {
    && nodes[i].prev == (if i == 0 then null else nodes[i - 1])
    && nodes[i].next == (if i == |nodes| - 1 then null else nodes[i + 1])
  }

  ghost predicate Linked<T>(nodes: seq<Node<T>>)
    reads nodes
  {
    forall i :: 0 <= i < |nodes| ==> LinkedAt(nodes, i)
  }

  class List<T> {
    var head: Node?<T>
    var tail: Node?<T>
    var len: nat
    ghost var nodes: seq<Node<T>>

    ghost predicate Valid()
      reads this, nodes
    {
      && DistinctNodes(nodes) && Linked(nodes) && len == |nodes|
      && head == (if nodes == [] then null else nodes[0])
      && tail == (if nodes == [] then null else nodes[|nodes| - 1])
    }

    /** listCreate */
    constructor ()
      ensures Valid() && nodes == []
    {
      head, tail, len, nodes := null, null, 0, [];
    }

    /** listAddNodeTail */
    method AddNodeTail(value: T) returns (node: Node<T>)
      requires Valid()
      modifies this, nodes
      ensures Valid() && fresh(node) && node.value == value && nodes == old(nodes) + [node]
    {
      node := new Node(value);
      assert nodes != [] ==> LinkedAt(nodes, |nodes| - 1);
      if len == 0 {
        head, tail := node, node;
      } else {
        node.prev := tail;
        tail.next := node;
        tail := node;
      }
      len := len + 1;
      nodes := nodes + [node];
      forall i | 0 <= i < |nodes| ensures LinkedAt(nodes, i) {
        if i < |old(nodes)| { assert old(LinkedAt(nodes, i)); }
      }
    }

    /** listAddNodeHead */
    method AddNodeHead(value: T) returns (node: Node<T>)
      requires Valid()
      modifies this, nodes
      ensures Valid() && fresh(node) && node.value == value && nodes == [node] + old(nodes)
    {
      node := new Node(value);
      assert nodes != [] ==> LinkedAt(nodes, 0);
      if len == 0 {
        head, tail := node, node;
      } else {
        node.next := head;
        head.prev := node;
        head := node;
      }
      len := len + 1;
      nodes := [node] + nodes;
      forall i | 0 <= i < |nodes| ensures LinkedAt(nodes, i) {
        if i > 0 { assert old(LinkedAt(nodes, i - 1)); }
      }
    }

    /** listDelNode: the node is given by its address, i is where it stands. */
    method DelNode(node: Node<T>, ghost i: nat)
      requires Valid() && i < |nodes| && nodes[i] == node
      modifies this, nodes
      ensures Valid() && nodes == old(nodes)[..i] + old(nodes)[i + 1..]
    {
      assert LinkedAt(nodes, i);
      if node.prev != null {
        node.prev.next := node.next;
      } else {
        head := node.next;
      }
      if node.next != null {
        node.next.prev := node.prev;
      } else {
        tail := node.prev;
      }
      len := len - 1;
      nodes := nodes[..i] + nodes[i + 1..];
      forall j | 0 <= j < |nodes| ensures LinkedAt(nodes, j) {
        assert old(LinkedAt(nodes, if j < i then j else j + 1));
      }
    }

    /** listRotateHeadToTail */
    method RotateHeadToTail()
      requires Valid()
      modifies this, nodes
      ensures Valid()
      ensures nodes == if |old(nodes)| <= 1 then old(nodes) else old(nodes)[1..] + [old(nodes)[0]]
    {
      if len <= 1 { return; }
      assert LinkedAt(nodes, 0) && LinkedAt(nodes, 1) && LinkedAt(nodes, |nodes| - 1);
      var first := head;
      head := first.next;
      head.prev := null;
      tail.next := first;
      first.next := null;
      first.prev := tail;
      tail := first;
      nodes := nodes[1..] + [nodes[0]];
      forall j | 0 <= j < |nodes| ensures LinkedAt(nodes, j) {
        if j < |nodes| - 1 { assert old(LinkedAt(nodes, j + 1)); }
      }
    }

    /** listRotateTailToHead */
    method RotateTailToHead()
      requires Valid()
      modifies this, nodes
      ensures Valid()
      ensures nodes == if |old(nodes)| <= 1 then old(nodes)
                       else [old(nodes)[|old(nodes)| - 1]] + old(nodes)[..|old(nodes)| - 1]
    {
      if len <= 1 { return; }
      assert LinkedAt(nodes, 0) && LinkedAt(nodes, |nodes| - 2) && LinkedAt(nodes, |nodes| - 1);
      var last := tail;
      tail := last.prev;
      tail.next := null;
      head.prev := last;
      last.prev := null;
      last.next := head;
      head := last;
      nodes := [nodes[|nodes| - 1]] + nodes[..|nodes| - 1];
      forall j | 0 <= j < |nodes| ensures LinkedAt(nodes, j) {
        if j > 0 { assert old(LinkedAt(nodes, j - 1)); }
      }
    }

    /** listJoin: the other list's nodes move over, and it is left empty but valid. */
    method Join(other: List<T>)
      requires Valid() && other.Valid() && other != this
      requires forall i, j :: 0 <= i < |nodes| && 0 <= j < |other.nodes| ==> nodes[i] != other.nodes[j]
      modifies this, other, nodes, other.nodes
      ensures Valid() && other.Valid() && other.nodes == [] && nodes == old(nodes) + old(other.nodes)
    {
      assert nodes != [] ==> LinkedAt(nodes, |nodes| - 1);
      assert other.nodes != [] ==> LinkedAt(other.nodes, 0);
      if other.head != null {
        other.head.prev := tail;
      }
      if tail != null {
        tail.next := other.head;
      } else {
        head := other.head;
      }
      if other.tail != null {
        tail := other.tail;
      }
      len := len + other.len;
      nodes := nodes + other.nodes;
      other.head, other.tail, other.len, other.nodes := null, null, 0, [];
      forall j | 0 <= j < |nodes| ensures LinkedAt(nodes, j) {
        if j < |old(nodes)| { assert old(LinkedAt(nodes, j)); } else { assert old(LinkedAt(other.nodes, j - |nodes|)); }
      }
    }

    /** listNext over the whole list: every value, in order. */
    method Values() returns (values: seq<T>)
      requires Valid()
      ensures |values| == |nodes| && forall i :: 0 <= i < |nodes| ==> values[i] == nodes[i].value
    {
      values := [];
      var next := head;
      while next != null
        invariant |values| <= |nodes| && next == (if |values| == |nodes| then null else nodes[|values|])
        invariant forall i :: 0 <= i < |values| ==> values[i] == nodes[i].value
        decreases |nodes| - |values|
      {
        assert LinkedAt(nodes, |values|);
        values := values + [next.value];
        next := next.next;
      }
    }
  }
}
