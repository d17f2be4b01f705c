/** `PriorityQueues`: an `LQueue` whose `enqueue` of a job inserts a node
    holding the job's priority into the chain by priority instead of
    appending it.  Every other operation is the `LQueue` one.  The node keeps
    only the priority, so what the queue holds is a sequence of `int` and the
    ordering facts below speak of positions.

    `PriorityInsert` says where the new key lands; the lemmas after it say
    what that placement guarantees, and `Enqueue` is the pointer-level
    insertion, proved to produce `PriorityInsert` of the old chain. */
module PriorityQueue {
  import opened Jobs
  import opened LinkedQueue

  /** Keys never increase from front to back. */
  predicate NonIncreasing(s: seq<int>) {
    forall i, j :: 0 <= i < j < |s| ==> s[i] >= s[j]
  }

  /** The first position at or after `from` holding a key strictly smaller
      than `key`, or `|s|` when there is none. */
  function FirstSmaller(s: seq<int>, key: int, from: nat): (k: nat)
    requires from <= |s|
    ensures from <= k <= |s|
    ensures forall i :: from <= i < k ==> s[i] >= key
    ensures k < |s| ==> s[k] < key
    decreases |s| - from
  {
    if from == |s| || s[from] < key then from else FirstSmaller(s, key, from + 1)
  }

  /** The position the new key takes: the front when the chain is empty or
      the key beats the front strictly; otherwise just before the first node
      after the front whose key is strictly smaller, or the back. */
  function InsertionPoint(s: seq<int>, key: int): (k: nat)
    ensures k <= |s|
    ensures k == 0 <==> s == [] || key > s[0]
    ensures forall i :: 0 < i < k ==> s[i] >= key
    ensures 0 < k < |s| ==> s[k] < key
  {
    if s == [] || key > s[0] then 0 else FirstSmaller(s, key, 1)
  }

  /** The chain after the priority enqueue of `key`. */
  function PriorityInsert(s: seq<int>, key: int): (r: seq<int>)
    ensures |r| == |s| + 1
  {
    var k := InsertionPoint(s, key);
    s[..k] + [key] + s[k..]
  }

  /** The priority enqueue adds exactly the new key to what the chain holds. */
  lemma InsertAddsKey(s: seq<int>, key: int)
    ensures multiset(PriorityInsert(s, key)) == multiset(s) + multiset{key}
  {
    var k := InsertionPoint(s, key);
    assert s == s[..k] + s[k..];
  }

  /** Positions before the insertion point keep their keys, the new key
      takes the insertion point, and every later key moves back by one; so
      taking the new key out again gives back the old chain. */
  lemma InsertKeepsOldOrder(s: seq<int>, key: int)
    ensures var k := InsertionPoint(s, key); var r := PriorityInsert(s, key);
            && (forall i :: 0 <= i < k ==> r[i] == s[i])
            && r[k] == key
            && (forall i :: k < i < |r| ==> r[i] == s[i - 1])
            && r[..k] + r[k + 1..] == s
  {
    var k := InsertionPoint(s, key);
    var r := PriorityInsert(s, key);
    assert r[..k] == s[..k];
    assert r[k + 1..] == s[k..];
    assert s == s[..k] + s[k..];
  }

  /** On a non-increasing chain the new key lands after every key that is at
      least as large -- in particular after every key equal to it, so equal
      priorities are served in arrival order -- and before every strictly
      smaller key. */
  lemma InsertAfterEqualKeys(s: seq<int>, key: int)
    requires NonIncreasing(s)
    ensures var k := InsertionPoint(s, key);
            && (forall i :: 0 <= i < k ==> s[i] >= key)
            && (forall i :: k <= i < |s| ==> s[i] < key)
  {
    var k := InsertionPoint(s, key);
    if 0 < k < |s| {
      forall i | k <= i < |s| ensures s[i] < key {
        assert s[i] <= s[k];
      }
    } else if k == 0 && s != [] {
      forall i | 0 <= i < |s| ensures s[i] < key {
        assert s[i] <= s[0];
      }
    }
  }

  /** The priority enqueue keeps a non-increasing chain non-increasing. */
  lemma InsertKeepsNonIncreasing(s: seq<int>, key: int)
    requires NonIncreasing(s)
    ensures NonIncreasing(PriorityInsert(s, key))
  {
    var k := InsertionPoint(s, key);
    var r := PriorityInsert(s, key);
    InsertAfterEqualKeys(s, key);
    InsertKeepsOldOrder(s, key);
    forall i, j | 0 <= i < j < |r| ensures r[i] >= r[j] {
      if i < k {
        assert r[i] == s[i];
      } else if i > k {
        assert r[i] == s[i - 1] && r[j] == s[j - 1];
      }
      if j < k {
        assert r[j] == s[j];
      } else if j > k {
        assert r[j] == s[j - 1];
      }
    }
  }

  /** The chain after priority-enqueueing `keys`, in order, onto `s`. */
  function EnqueueAll(s: seq<int>, keys: seq<int>): (r: seq<int>)
    ensures |r| == |s| + |keys|
    ensures multiset(r) == multiset(s) + multiset(keys)
    decreases |keys|
  {
    if keys == [] then s
    else
      assert keys == [keys[0]] + keys[1..];
      InsertAddsKey(s, keys[0]);
      EnqueueAll(PriorityInsert(s, keys[0]), keys[1..])
  }

  /** Whatever priorities arrive, a chain that starts non-increasing (an
      empty one, for instance) is non-increasing from front to back after
      every enqueue. */
  lemma {:induction false} EnqueueAllNonIncreasing(s: seq<int>, keys: seq<int>)
    requires NonIncreasing(s)
    ensures NonIncreasing(EnqueueAll(s, keys))
    decreases |keys|
  {
    if keys != [] {
      InsertKeepsNonIncreasing(s, keys[0]);
      EnqueueAllNonIncreasing(PriorityInsert(s, keys[0]), keys[1..]);
    }
  }

  /** The six single insertions of the example below. */
  lemma InsertExampleSteps()
    ensures PriorityInsert([], 5) == [5]
    ensures PriorityInsert([5], 10) == [10, 5]
    ensures PriorityInsert([10, 5], 2) == [10, 5, 2]
    ensures PriorityInsert([10, 5, 2], 1) == [10, 5, 2, 1]
    ensures PriorityInsert([10, 5, 2, 1], 3) == [10, 5, 3, 2, 1]
    ensures PriorityInsert([10, 5, 3, 2, 1], 2) == [10, 5, 3, 2, 2, 1]
  {
    var empty: seq<int> := [];
    assert empty[..0] + [5] + empty[0..] == [5];
    assert FirstSmaller([10, 5, 2, 1], 3, 1) == 2;
    assert FirstSmaller([10, 5, 3, 2, 1], 2, 1) == 4;
  }

  /** Enqueueing a first key and then the rest is enqueueing them all. */
  lemma EnqueueAllStep(s: seq<int>, key: int, rest: seq<int>)
    ensures EnqueueAll(s, [key] + rest) == EnqueueAll(PriorityInsert(s, key), rest)
  {
    assert ([key] + rest)[1..] == rest;
  }

  /** Priorities 5, 10, 2, 1, 3, 2 enqueued in that order come out as
      10, 5, 3, 2, 2, 1: the two 2s end up side by side, the one enqueued
      later behind the earlier one. */
  lemma EnqueueExample()
    ensures EnqueueAll([], [5, 10, 2, 1, 3, 2]) == [10, 5, 3, 2, 2, 1]
  {
    InsertExampleSteps();
    var done: seq<int> := [];
    EnqueueAllStep([10, 5, 3, 2, 1], 2, done);
    EnqueueAllStep([10, 5, 2, 1], 3, [2]);
    EnqueueAllStep([10, 5, 2], 1, [3, 2]);
    EnqueueAllStep([10, 5], 2, [1, 3, 2]);
    EnqueueAllStep([5], 10, [2, 1, 3, 2]);
    EnqueueAllStep([], 5, [10, 2, 1, 3, 2]);
  }

  /** The first branch of `Enqueue`: in an empty chain the new node becomes
      both the front and the back. */
  method LinkOnly(pq: LQueue, newNode: Node)
    requires pq.Valid() && pq.queueFront == null
    requires newNode !in pq.Repr && newNode.link == null
    modifies pq
    ensures pq.Valid() && pq.Repr == old(pq.Repr) + {newNode}
    ensures pq.Nodes == [newNode] && pq.Contents == [newNode.item]
    ensures pq.numitems == old(pq.numitems) + 1
  {
    pq.queueFront := newNode;
    pq.queueBack := newNode;
    pq.Nodes, pq.Contents := [newNode], [newNode.item];
    pq.numitems := pq.numitems + 1;
    pq.Repr := pq.Repr + {newNode};
  }

  /** The second branch of `Enqueue`: the new node links to the old front
      and becomes the front. */
  method LinkFirst(pq: LQueue, newNode: Node)
    requires pq.Valid() && pq.queueFront != null
    requires newNode !in pq.Repr && newNode.link == null
    modifies pq, newNode`link
    ensures pq.Valid() && pq.Repr == old(pq.Repr) + {newNode}
    ensures pq.Nodes == [newNode] + old(pq.Nodes)
    ensures pq.Contents == [newNode.item] + old(pq.Contents)
    ensures pq.numitems == old(pq.numitems) + 1
  {
    ghost var nodes, s := pq.Nodes, pq.Contents;
    newNode.link := pq.queueFront;
    pq.queueFront := newNode;
    InsertNode(nodes, s, 0, newNode, newNode.item, pq.Repr);
    assert nodes[..0] + [newNode] + nodes[0..] == [newNode] + nodes;
    assert s[..0] + [newNode.item] + s[0..] == [newNode.item] + s;
    pq.Nodes, pq.Contents := [newNode] + nodes, [newNode.item] + s;
    pq.numitems := pq.numitems + 1;
    pq.Repr := pq.Repr + {newNode};
  }

  /** The splice inside the walk of `Enqueue`: `newNode` goes between the
      node `n` at position `k` and its successor `n2`. */
  method LinkAfter(pq: LQueue, n: Node, n2: Node, newNode: Node, ghost k: nat)
    requires pq.Valid() && k + 1 < |pq.Nodes| && n == pq.Nodes[k] && n2 == pq.Nodes[k + 1]
    requires newNode !in pq.Repr && newNode.link == null
    modifies pq, n`link, newNode`link
    ensures pq.Valid() && pq.Repr == old(pq.Repr) + {newNode}
    ensures pq.Nodes == old(pq.Nodes)[..k + 1] + [newNode] + old(pq.Nodes)[k + 1..]
    ensures pq.Contents == old(pq.Contents)[..k + 1] + [newNode.item] + old(pq.Contents)[k + 1..]
    ensures pq.numitems == old(pq.numitems) + 1
  {
    ghost var nodes, s := pq.Nodes, pq.Contents;
    n.link := newNode;
    newNode.link := n2;
    InsertNode(nodes, s, k + 1, newNode, newNode.item, pq.Repr);
    pq.Nodes := nodes[..k + 1] + [newNode] + nodes[k + 1..];
    pq.Contents := s[..k + 1] + [newNode.item] + s[k + 1..];
    pq.numitems := pq.numitems + 1;
    pq.Repr := pq.Repr + {newNode};
  }

  /** The last branch of `Enqueue`: when the walk finds no smaller key the
      new node is linked after the back node and becomes the back. */
  method LinkLast(pq: LQueue, newNode: Node)
    requires pq.Valid() && pq.queueFront != null
    requires newNode !in pq.Repr && newNode.link == null
    modifies pq, pq.queueBack`link
    ensures pq.Valid() && pq.Repr == old(pq.Repr) + {newNode}
    ensures pq.Nodes == old(pq.Nodes) + [newNode]
    ensures pq.Contents == old(pq.Contents) + [newNode.item]
    ensures pq.numitems == old(pq.numitems) + 1
  {
    ghost var nodes, s := pq.Nodes, pq.Contents;
    pq.queueBack.link := newNode;
    pq.queueBack := newNode;
    InsertNode(nodes, s, |nodes|, newNode, newNode.item, pq.Repr);
    assert nodes[..|nodes|] + [newNode] + nodes[|nodes|..] == nodes + [newNode];
    assert s[..|s|] + [newNode.item] + s[|s|..] == s + [newNode.item];
    pq.Nodes := nodes + [newNode];
    pq.Contents := s + [newNode.item];
    pq.numitems := pq.numitems + 1;
    pq.Repr := pq.Repr + {newNode};
  }

  /** The third branch of `Enqueue`: the walk from the front with the
      trailing pointer `n` and the current pointer `n2` splices the new node
      in before the first node after the front whose key is strictly smaller
      than its own, and failing that links it after the back. */
  method LinkInOrder(pq: LQueue, newNode: Node)
    requires pq.Valid() && pq.queueFront != null
    requires newNode !in pq.Repr && newNode.link == null
    modifies pq.Repr, newNode
    ensures pq.Valid() && pq.Repr == old(pq.Repr) + {newNode}
    ensures var k := FirstSmaller(old(pq.Contents), old(newNode.item), 1);
            pq.Contents == old(pq.Contents)[..k] + [old(newNode.item)] + old(pq.Contents)[k..]
    ensures pq.numitems == old(pq.numitems) + 1
  {
    var inserted := false;
    ghost var s, newItem := pq.Contents, newNode.item;
    var n := pq.queueFront;
    var n2 := n.link;
    ghost var k := 0;
    while n2 != null
      invariant pq.Valid() && pq.Repr == old(pq.Repr) && newNode !in pq.Repr
      invariant pq.Contents == s && pq.numitems == old(pq.numitems)
      invariant newNode.item == newItem && newNode.link == null
      invariant 0 <= k < |pq.Nodes| && n == pq.Nodes[k]
      invariant n2 == if k + 1 < |pq.Nodes| then pq.Nodes[k + 1] else null
      invariant FirstSmaller(s, newItem, 1) == FirstSmaller(s, newItem, k + 1)
      invariant !inserted
      decreases |pq.Nodes| - k
    {
      if n2.item < newNode.item {
        LinkAfter(pq, n, n2, newNode, k);
        inserted := true;
        break;
      }
      n := n.link;
      n2 := n.link;
      k := k + 1;
    }
    if !inserted {
      LinkLast(pq, newNode);
      assert s[..|s|] + [newItem] + s[|s|..] == s + [newItem];
    }
  }

  /** `PriorityQueues::enqueue`: a node holding `newItems`' priority goes in
      front of the front node if its key is strictly larger, and is otherwise
      placed by the walk of `LinkInOrder`. */
  method Enqueue(pq: LQueue, newItems: Job)
    requires pq.Valid()
    modifies pq.Repr
    ensures pq.Valid() && fresh(pq.Repr - old(pq.Repr))
    ensures pq.Contents == PriorityInsert(old(pq.Contents), old(newItems.priority) as int)
    ensures pq.numitems == old(pq.numitems) + 1
  {
    var newItem := newItems.GetPriority() as int;
    var newNode := new Node(newItem);
    ghost var s := pq.Contents;
    if pq.queueFront == null {
      LinkOnly(pq, newNode);
      assert s[..0] + [newItem] + s[0..] == [newItem];
    } else if newItem > pq.queueFront.item {
      LinkFirst(pq, newNode);
      assert s[..0] + [newItem] + s[0..] == [newItem] + s;
    } else {
      LinkInOrder(pq, newNode);
    }
  }
}
