/**
 * The hand-written singly linked `Stack` (LIFO) and `Queue` (FIFO) of the
 * lottery program. Each keeps a ghost spine `nodes`, the nodes from the head
 * onwards, the ghost `contents` they hold and a ghost footprint `Repr` of
 * nodes it may relink; the real state is the `top`
 * reference of the stack and the `front`/`back` references of the queue. The
 * `out_of_range` exception on an empty container is the result `None`.
 */
module LinkedContainers {
  import opened Wrappers

  class Node<T> {
    var data: T
    var next: Node?<T>

    constructor (value: T)
      ensures data == value && next == null
    {
      data := value;
      next := null;
    }
  }

  /** `nodes` is a null-terminated chain holding `contents`, head first. */
  ghost predicate Chain<T>(nodes: seq<Node<T>>, contents: seq<T>)
    reads set n | n in nodes
    decreases |nodes|
  {
    |nodes| == |contents| &&
    (nodes != [] ==>
       nodes[0].data == contents[0] &&
       nodes[0].next == (if |nodes| == 1 then null else nodes[1]) &&
       Chain(nodes[1..], contents[1..]))
  }

  /** `Chain`, node by node. */
  ghost predicate Linked<T>(nodes: seq<Node<T>>, contents: seq<T>)
    reads set n | n in nodes
  {
    |nodes| == |contents| &&
    (forall i :: 0 <= i < |nodes| ==> nodes[i].data == contents[i]) &&
    (forall i :: 0 <= i < |nodes| - 1 ==> nodes[i].next == nodes[i + 1]) &&
    (nodes != [] ==> nodes[|nodes| - 1].next == null)
  }

  lemma {:induction false} ChainLinked<T>(nodes: seq<Node<T>>, contents: seq<T>)
    requires Chain(nodes, contents)
    ensures Linked(nodes, contents)
    decreases |nodes|
  {
    if nodes != [] {
      ChainLinked(nodes[1..], contents[1..]);
    }
  }

  lemma {:induction false} LinkedChain<T>(nodes: seq<Node<T>>, contents: seq<T>)
    requires Linked(nodes, contents)
    ensures Chain(nodes, contents)
    decreases |nodes|
  {
    if nodes != [] {
      LinkedChain(nodes[1..], contents[1..]);
    }
  }

  class Stack<T> {
    var top: Node?<T>
    ghost var nodes: seq<Node<T>>
    ghost var contents: seq<T>
    ghost var Repr: set<Node<T>>

    ghost predicate Valid()
      reads this, Repr
    {
      (forall i :: 0 <= i < |nodes| ==> nodes[i] in Repr) &&
      Chain(nodes, contents) &&
      (top == null <==> nodes == []) &&
      (nodes != [] ==> top == nodes[0])
    }

    constructor ()
      ensures Valid() && contents == []
    {
      top := null;
      nodes := [];
      contents := [];
      Repr := {};
    }

    /** `push`: a new node in front of `top`. */
    method Push(value: T)
      requires Valid()
      modifies this
      ensures Valid()
      ensures contents == [value] + old(contents)
      ensures old(Repr) <= Repr && fresh(Repr - old(Repr))
    {
      var newNode := new Node(value);
      newNode.next := top;
      top := newNode;
      nodes := [newNode] + nodes;
      Repr := Repr + {newNode};
      contents := [value] + contents;
    }

    /** `pop`: the most recently pushed value not yet popped; `None` (the exception) when empty. */
    method Pop() returns (r: Option<T>)
      requires Valid()
      modifies this
      ensures Valid()
      ensures old(contents) == [] ==> r == None && contents == []
      ensures old(contents) != [] ==> r == Some(old(contents)[0]) && contents == old(contents)[1..]
    {
      if top == null {
        return None;
      }
      var temp := top;
      top := top.next;
      r := Some(temp.data);
      nodes := nodes[1..];
      contents := contents[1..];
    }

    predicate IsEmpty()
      requires Valid()
      reads this, Repr
      ensures IsEmpty() <==> contents == []
    {
      top == null
    }
  }

  class Queue<T> {
    var front: Node?<T>
    var back: Node?<T>
    ghost var nodes: seq<Node<T>>
    ghost var contents: seq<T>
    ghost var Repr: set<Node<T>>

    /** The chain runs from `front` to `back`, each node once; both ends are null together. */
    ghost predicate Valid()
      reads this, Repr
    {
      (forall i :: 0 <= i < |nodes| ==> nodes[i] in Repr) &&
      Chain(nodes, contents) &&
      (forall i, j :: 0 <= i < j < |nodes| ==> nodes[i] != nodes[j]) &&
      (front == null <==> nodes == []) &&
      (back == null <==> nodes == []) &&
      (nodes != [] ==> front == nodes[0] && back == nodes[|nodes| - 1])
    }

    constructor ()
      ensures Valid() && contents == []
    {
      front := null;
      back := null;
      nodes := [];
      contents := [];
      Repr := {};
    }

    /** `enqueue`: link a new node after `back`; it is also the front of an empty queue. */
    method Enqueue(value: T)
      requires Valid()
      modifies this, Repr
      ensures Valid()
      ensures contents == old(contents) + [value]
      ensures old(Repr) <= Repr && fresh(Repr - old(Repr))
    {
      ChainLinked(nodes, contents);
      var newNode := new Node(value);
      if back != null {
        back.next := newNode;
      }
      back := newNode;
      if front == null {
        front := back;
      }
      nodes := nodes + [newNode];
      Repr := Repr + {newNode};
      contents := contents + [value];
      LinkedChain(nodes, contents);
    }

    /** `dequeue`: the earliest value not yet dequeued; `None` (the exception) when empty. */
    method Dequeue() returns (r: Option<T>)
      requires Valid()
      modifies this
      ensures Valid()
      ensures old(contents) == [] ==> r == None && contents == []
      ensures old(contents) != [] ==> r == Some(old(contents)[0]) && contents == old(contents)[1..]
    {
      if front == null {
        return None;
      }
      var temp := front;
      front := front.next;
      r := Some(temp.data);
      if front == null {
        back := null;
      }
      nodes := nodes[1..];
      contents := contents[1..];
    }

    predicate IsEmpty()
      requires Valid()
      reads this, Repr
      ensures IsEmpty() <==> contents == []
      ensures IsEmpty() <==> back == null
    {
      front == null
    }
  }
}
