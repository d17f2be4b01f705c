/** The abstract `Queue`: every operation a client can call through a
    `Queue&`, whichever realisation stands behind it.  `QueueRef` is such a
    reference; each operation dispatches to the `AQueue` or `LQueue` member
    of the same name, the way the virtual call does.  A `PriorityQueues`
    object reached through a `Queue&` is an `LQueue`, so its `enqueue` here
    is the plain FIFO append: the priority `enqueue` takes a job, not an
    `int`, and hides the inherited one instead of overriding it.

    `Equals` is `Queue::operator==`, the one operation the base class
    implements itself, by comparing lengths and then items by index. */
module QueueAdt {
  import opened QueueErrors
  import opened ArrayQueue
  import opened LinkedQueue

  datatype QueueRef = ArrayRef(a: AQueue) | LinkedRef(l: LQueue)

  /** The queue object the reference points at. */
  function Target(q: QueueRef): object {
    match q
    case ArrayRef(a) => a
    case LinkedRef(l) => l
  }

  ghost function Footprint(q: QueueRef): set<object>
    reads Target(q)
  {
    match q
    case ArrayRef(a) => a.Repr
    case LinkedRef(l) => l.Repr
  }

  ghost predicate Valid(q: QueueRef)
    reads Target(q), Footprint(q)
  {
    match q
    case ArrayRef(a) => a.Valid()
    case LinkedRef(l) => l.Valid()
  }

  /** The items from front to back. */
  ghost function Contents(q: QueueRef): seq<int>
    reads Target(q)
  {
    match q
    case ArrayRef(a) => a.Contents
    case LinkedRef(l) => l.Contents
  }

  /** `clear`: afterwards the queue is empty. */
  method Clear(q: QueueRef)
    requires Valid(q)
    modifies Footprint(q)
    ensures Valid(q) && fresh(Footprint(q) - old(Footprint(q)))
    ensures Contents(q) == []
  {
    match q
    case ArrayRef(a) => a.Clear();
    case LinkedRef(l) => l.Clear();
  }

  /** `isEmpty`: whether the queue holds nothing; nothing changes. */
  function IsEmpty(q: QueueRef): (empty: bool)
    reads Target(q), Footprint(q)
    requires Valid(q)
    ensures empty <==> Contents(q) == []
  {
    match q
    case ArrayRef(a) => a.IsEmpty()
    case LinkedRef(l) => l.IsEmpty()
  }

  /** `enqueue`: `newItem` goes on the back.  An array queue must have room
      for at least one item before it can grow. */
  method Enqueue(q: QueueRef, newItem: int)
    requires Valid(q)
    requires q.ArrayRef? ==> q.a.allocSize > 0
    modifies Footprint(q)
    ensures Valid(q) && fresh(Footprint(q) - old(Footprint(q)))
    ensures Contents(q) == old(Contents(q)) + [newItem]
  {
    match q
    case ArrayRef(a) => a.Enqueue(newItem);
    case LinkedRef(l) => l.Enqueue(newItem);
  }

  /** `front`: the front item, not removed; an empty queue throws. */
  function Front(q: QueueRef): (r: Result<int>)
    reads Target(q), Footprint(q)
    requires Valid(q)
    ensures Contents(q) == [] ==> r.Throw? && r.exception.EmptyQueueException?
    ensures Contents(q) != [] ==> r == Ok(Contents(q)[0])
  {
    match q
    case ArrayRef(a) => a.Front()
    case LinkedRef(l) => l.Front()
  }

  /** `dequeue`: the front item is removed; an empty queue throws and stays
      as it was. */
  method Dequeue(q: QueueRef) returns (r: Result<()>)
    requires Valid(q)
    modifies Footprint(q)
    ensures Valid(q) && Footprint(q) == old(Footprint(q))
    ensures old(Contents(q)) == [] ==>
              r.Throw? && r.exception.EmptyQueueException? && Contents(q) == []
    ensures old(Contents(q)) != [] ==> r == Ok(()) && Contents(q) == old(Contents(q))[1..]
  {
    match q
    case ArrayRef(a) => r := a.Dequeue();
    case LinkedRef(l) => r := l.Dequeue();
  }

  /** `length`: the number of items on the queue. */
  function Length(q: QueueRef): (n: int)
    reads Target(q), Footprint(q)
    requires Valid(q)
    ensures n == |Contents(q)|
  {
    match q
    case ArrayRef(a) => a.Length()
    case LinkedRef(l) => l.Length()
  }

  /** `operator[]`: the item `index` places behind the front; an index
      outside `[0, length)` throws. */
  method At(q: QueueRef, index: int) returns (r: Result<int>)
    requires Valid(q)
    ensures (index < 0 || index >= |Contents(q)|) ==>
              r.Throw? && r.exception.InvalidIndexQueueException?
    ensures 0 <= index < |Contents(q)| ==> r == Ok(Contents(q)[index])
  {
    match q
    case ArrayRef(a) => r := a.At(index);
    case LinkedRef(l) => r := l.At(index);
  }

  /** `Queue::operator==`: two queues, of either realisation, are equal
      exactly when they have the same length and the same item at every
      index. */
  method Equals(lhs: QueueRef, rhs: QueueRef) returns (eq: bool)
    requires Valid(lhs) && Valid(rhs)
    ensures eq <==> Length(lhs) == Length(rhs) &&
                    forall i :: 0 <= i < Length(lhs) ==> Contents(lhs)[i] == Contents(rhs)[i]
    ensures eq <==> Contents(lhs) == Contents(rhs)
  {
    ghost var left, right := Contents(lhs), Contents(rhs);
    if Length(lhs) != Length(rhs) {
      return false;
    }
    for index := 0 to Length(lhs)
      invariant forall i :: 0 <= i < index ==> left[i] == right[i]
    {
      var x := At(lhs, index);
      var y := At(rhs, index);
      if x.value != y.value {
        return false;
      }
    }
    assert left == right;
    return true;
  }
}
