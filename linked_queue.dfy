/** `LQueue`: the queue of `int` kept as a chain of singly linked nodes from
    `queueFront` to `queueBack`.  The ghost sequence `Nodes` lists the chain's
    nodes from front to back and `Contents` their items. */
module LinkedQueue {
  import opened QueueErrors

  class Node {
    var item: int
    var link: Node?

    constructor (item: int)
      ensures this.item == item && link == null
    {
      this.item := item;
      link := null;
    }
  }

  /** No node occurs twice. */
  ghost predicate Distinct(nodes: seq<Node>) {
    forall i, j :: 0 <= i < j < |nodes| ==> nodes[i] != nodes[j]
  }

  /** Each node links to the next one in the sequence, and the last to null. */
  ghost predicate Linked(nodes: seq<Node>)
    reads nodes
  {
    && (forall i :: 0 <= i < |nodes| - 1 ==> nodes[i].link == nodes[i + 1])
    && (|nodes| > 0 ==> nodes[|nodes| - 1].link == null)
  }

  /** The nodes hold `items`, position by position. */
  ghost predicate Holds(nodes: seq<Node>, items: seq<int>)
    reads nodes
  {
    |nodes| == |items| && forall i :: 0 <= i < |nodes| ==> nodes[i].item == items[i]
  }

  /** Splicing a new node `x` into a chain at position `k`: once the node
      before position `k` (if any) links to `x` and `x` links to the node that
      was at position `k` (or to null), the longer sequence is a chain again
      and holds `v` at position `k`; it starts with `x` when `k` is 0 and
      ends with `x` when `k` is the old length. */
  lemma InsertNode(nodes: seq<Node>, items: seq<int>, k: nat, x: Node, v: int, repr: set<object>)
    requires k <= |nodes| && Distinct(nodes) && x !in nodes && Holds(nodes, items)
    requires forall i :: 0 <= i < |nodes| ==> nodes[i] in repr
    requires forall i :: 0 <= i < |nodes| - 1 && i != k - 1 ==> nodes[i].link == nodes[i + 1]
    requires k > 0 ==> nodes[k - 1].link == x
    requires x.item == v && x.link == if k < |nodes| then nodes[k] else null
    requires k < |nodes| ==> nodes[|nodes| - 1].link == null
    ensures var nodes' := nodes[..k] + [x] + nodes[k..];
            && Distinct(nodes') && Linked(nodes') && Holds(nodes', items[..k] + [v] + items[k..])
            && (forall i :: 0 <= i < |nodes'| ==> nodes'[i] in repr + {x})
            && nodes'[0] == (if k == 0 then x else nodes[0])
            && nodes'[|nodes'| - 1] == (if k == |nodes| then x else nodes[|nodes| - 1])
  {
    var nodes' := nodes[..k] + [x] + nodes[k..];
    assert forall i :: 0 <= i < k ==> nodes'[i] == nodes[i];
    assert nodes'[k] == x;
    assert forall i :: k < i < |nodes'| ==> nodes'[i] == nodes[i - 1];
  }

  class LQueue {
    var queueFront: Node?
    var queueBack: Node?
    var numitems: int

    ghost var Nodes: seq<Node>
    ghost var Contents: seq<int>
    ghost var Repr: set<object>

    /** The chain invariant: following `link` from `queueFront` visits the
        `numitems` distinct nodes of `Nodes` in order, ends at `queueBack`
        and then stops; both ends are null exactly when the queue is empty. */
    ghost predicate Valid()
      reads this, Repr
      ensures Valid() ==> this in Repr
    {
      && this in Repr
      && |Nodes| == numitems
      && (forall i :: 0 <= i < |Nodes| ==> Nodes[i] in Repr)
      && Distinct(Nodes) && Linked(Nodes) && Holds(Nodes, Contents)
      && (numitems == 0 ==> queueFront == null && queueBack == null)
      && (numitems > 0 ==> queueFront == Nodes[0] && queueBack == Nodes[numitems - 1])
    }

    /** An empty queue: both ends null. */
    constructor ()
      ensures Valid() && fresh(Repr)
      ensures Contents == [] && queueFront == null && queueBack == null
    {
      queueFront := null;
      queueBack := null;
      numitems := 0;
      Nodes := [];
      Contents := [];
      Repr := {this};
    }

    /** Walks the chain from the front, unlinking every node, and leaves both
        ends null and the count 0. */
    method Clear()
      requires Valid()
      modifies this
      ensures Valid() && fresh(Repr - old(Repr))
      ensures Contents == [] && queueFront == null && queueBack == null && numitems == 0
    {
      ghost var k := 0;
      while queueFront != null
        invariant 0 <= k <= |Nodes|
        invariant queueFront == if k < |Nodes| then Nodes[k] else null
        modifies this`queueFront
        decreases |Nodes| - k
      {
        queueFront := queueFront.link;
        k := k + 1;
      }
      queueBack := null;
      numitems := 0;
      Nodes := [];
      Contents := [];
      Repr := {this};
    }

    /** Empty exactly when the front is null, which is when the count is 0. */
    function IsEmpty(): (empty: bool)
      reads this, Repr
      requires Valid()
      ensures empty <==> Contents == []
      ensures empty <==> numitems == 0
    {
      queueFront == null
    }

    /** Adds a new node holding `newItem` after the back node, or as the only
        node of an empty queue. */
    method Enqueue(newItem: int)
      requires Valid()
      modifies Repr
      ensures Valid() && fresh(Repr - old(Repr))
      ensures Contents == old(Contents) + [newItem]
      ensures numitems == old(numitems) + 1
      ensures queueBack != null && queueBack.item == newItem && fresh(queueBack)
      ensures old(queueFront) != null ==> queueFront == old(queueFront)
    {
      var newNode := new Node(newItem);
      if queueFront == null {
        queueFront := newNode;
      } else {
        queueBack.link := newNode;
      }
      queueBack := newNode;
      numitems := numitems + 1;
      Nodes := Nodes + [newNode];
      Contents := Contents + [newItem];
      Repr := Repr + {newNode};
    }

    /** The front item, which stays on the queue. */
    function Front(): (r: Result<int>)
      reads this, Repr
      requires Valid()
      ensures Contents == [] ==> r == Throw(EmptyQueueException("LQueue<T>::front()"))
      ensures Contents != [] ==> r == Ok(Contents[0])
    {
      if IsEmpty() then
        Throw(EmptyQueueException("LQueue<T>::front()"))
      else
        Ok(queueFront.item)
    }

    /** Unlinks the front node; when that empties the chain the back becomes
        null too.  On an empty queue nothing changes. */
    method Dequeue() returns (r: Result<()>)
      requires Valid()
      modifies this
      ensures Valid() && Repr == old(Repr)
      ensures old(Contents) == [] ==>
                r == Throw(EmptyQueueException("LQueue<T>::dequeue()")) && unchanged(this)
      ensures old(Contents) != [] ==> r == Ok(()) && Contents == old(Contents)[1..]
      ensures old(Contents) != [] ==> numitems == old(numitems) - 1
      ensures Contents == [] ==> queueFront == null && queueBack == null
    {
      if IsEmpty() {
        r := Throw(EmptyQueueException("LQueue<T>::dequeue()"));
      } else {
        queueFront := queueFront.link;
        if queueFront == null {
          queueBack := null;
        }
        numitems := numitems - 1;
        Nodes := Nodes[1..];
        Contents := Contents[1..];
        r := Ok(());
      }
    }

    /** The number of items held. */
    function Length(): (n: int)
      reads this, Repr
      requires Valid()
      ensures n == |Contents|
    {
      numitems
    }

    /** The item at position `index` from the front (0 is the front), found by
        following `index` links. */
    method At(index: int) returns (r: Result<int>)
      requires Valid()
      ensures (index < 0 || index >= |Contents|) ==>
                r == Throw(InvalidIndexQueueException("LQueue<T>::operator[]"))
      ensures 0 <= index < |Contents| ==> r == Ok(Contents[index])
    {
      if index < 0 || index >= numitems {
        r := Throw(InvalidIndexQueueException("LQueue<T>::operator[]"));
      } else {
        var currentIndex := 0;
        var currentNode := queueFront;
        while currentIndex != index
          invariant 0 <= currentIndex <= index
          invariant currentNode == Nodes[currentIndex]
          decreases index - currentIndex
        {
          currentIndex := currentIndex + 1;
          currentNode := currentNode.link;
        }
        r := Ok(currentNode.item);
      }
    }
  }
}
