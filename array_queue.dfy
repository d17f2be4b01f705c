/** `AQueue`: the queue of `int` kept in a circular buffer that doubles when
    it is full.  `frontIndex` is the slot of the front item and `backIndex`
    the slot of the back item (not one past it); logical position `i` lives
    in slot `(frontIndex + i) % allocSize`. */
module ArrayQueue {
  import opened QueueErrors

  /** What `%` yields for the small operands the buffer's index updates use. */
  lemma ModCases(x: int, m: int)
    requires m > 0 && -m <= x < 2 * m
    ensures x % m == if x < 0 then x + m else if x < m then x else x - m
  {
  }

  /** The slot of logical position `i` in a buffer of size `m` whose front
      item is in slot `f`. */
  function Slot(f: int, i: int, m: int): int
    requires m > 0
  {
    (f + i) % m
  }

  /** Distinct positions of a queue that fits the buffer occupy distinct
      slots, and every position's slot is in the buffer. */
  lemma SlotsDistinct(f: int, m: int, n: int)
    requires m > 0 && 0 <= f < m && 0 <= n <= m
    ensures forall i :: 0 <= i < n ==> 0 <= Slot(f, i, m) < m
    ensures forall i, j :: 0 <= i < j < n ==> Slot(f, i, m) != Slot(f, j, m)
  {
    forall i | 0 <= i < n
      ensures Slot(f, i, m) == if f + i < m then f + i else f + i - m
    {
      ModCases(f + i, m);
    }
  }

  /** Moving one position on moves one slot on, wrapping at the end. */
  lemma SlotStep(f: int, i: int, m: int)
    requires m > 0 && 0 <= f < m && -1 <= i < m
    ensures Slot(f, i + 1, m) == (Slot(f, i, m) + 1) % m
  {
    ModCases(f + i, m);
    ModCases(f + i + 1, m);
    ModCases(Slot(f, i, m) + 1, m);
  }

  /** Once the front moves on by one slot, to `g`, position `i` sits where
      position `i + 1` did. */
  lemma SlotsAfterFront(f: int, g: int, m: int, n: int)
    requires m > 0 && 0 <= f < m && 0 <= n < m && g == (f + 1) % m
    ensures 0 <= g < m
    ensures forall i :: -1 <= i < n ==> Slot(g, i, m) == Slot(f, i + 1, m)
  {
    ModCases(f + 1, m);
    forall i | -1 <= i < n
      ensures Slot(g, i, m) == Slot(f, i + 1, m)
    {
      ModCases(g + i, m);
      ModCases(f + i + 1, m);
    }
  }

  /** In a buffer whose front is slot 0, position `i` is slot `i`. */
  lemma SlotsFromZero(m: int)
    requires m > 0
    ensures forall i :: 0 <= i < m ==> Slot(0, i, m) == i
  {
    forall i | 0 <= i < m
      ensures Slot(0, i, m) == i
    {
      ModCases(i, m);
    }
  }

  class AQueue {
    var allocSize: int
    var numitems: int
    var frontIndex: int
    var backIndex: int
    var items: array<int>

    /** The items from front to back. */
    ghost var Contents: seq<int>
    ghost var Repr: set<object>

    /** The circular-buffer invariant.  A buffer of size 0 (what the
        constructors build when asked for no room) holds nothing. */
    ghost predicate Valid()
      reads this, Repr
      ensures Valid() ==> this in Repr
    {
      && this in Repr && items in Repr
      && items.Length == allocSize
      && 0 <= numitems <= allocSize
      && |Contents| == numitems
      && (allocSize == 0 ==> frontIndex == 0 && backIndex == -1)
      && (allocSize > 0 ==>
            && 0 <= frontIndex < allocSize
            && backIndex == Slot(frontIndex, numitems - 1, allocSize))
      && forall i :: 0 <= i < numitems ==> Contents[i] == items[Slot(frontIndex, i, allocSize)]
    }

    /** An empty queue with room for `initialAlloc` items (100 by default). */
    constructor (initialAlloc: int := 100)
      requires initialAlloc >= 0
      ensures Valid() && fresh(Repr)
      ensures Contents == [] && allocSize == initialAlloc
    {
      allocSize := initialAlloc;
      numitems := 0;
      frontIndex := 0;
      backIndex := initialAlloc - 1;
      items := new int[initialAlloc];
      Contents := [];
      Repr := {this, items};
      new;
      if initialAlloc > 0 {
        ModCases(-1, initialAlloc);
      }
    }

    /** A full queue holding the first `numitems` entries of `initItems`, in a
        buffer of exactly that size. */
    constructor FromArray(initItems: array<int>, numitems: int)
      requires 0 <= numitems <= initItems.Length
      ensures Valid() && fresh(Repr)
      ensures Contents == initItems[..numitems] && allocSize == numitems
    {
      allocSize := numitems;
      this.numitems := numitems;
      frontIndex := 0;
      var buffer := new int[numitems];
      for index := 0 to numitems
        invariant buffer[..index] == initItems[..index]
      {
        buffer[index] := initItems[index];
      }
      items := buffer;
      backIndex := numitems - 1;
      Contents := initItems[..numitems];
      Repr := {this, items};
      new;
      if numitems > 0 {
        ModCases(numitems - 1, numitems);
        forall i | 0 <= i < numitems
          ensures Contents[i] == items[Slot(frontIndex, i, allocSize)]
        {
          ModCases(i, numitems);
        }
      }
    }

    /** Back to the empty state; the buffer keeps its size. */
    method Clear()
      requires Valid()
      modifies this
      ensures Valid() && Repr == old(Repr)
      ensures Contents == [] && allocSize == old(allocSize) && items == old(items)
      ensures frontIndex == 0 && backIndex == allocSize - 1 && numitems == 0
    {
      frontIndex := 0;
      backIndex := allocSize - 1;
      numitems := 0;
      Contents := [];
      if allocSize > 0 {
        ModCases(-1, allocSize);
      }
    }

    /** Empty exactly when no item is held. */
    function IsEmpty(): (empty: bool)
      reads this, Repr
      requires Valid()
      ensures empty <==> Contents == []
    {
      numitems == 0
    }

    /** Full exactly when every slot of the buffer holds an item. */
    function IsFull(): (full: bool)
      reads this, Repr
      requires Valid()
      ensures full <==> |Contents| == allocSize
    {
      numitems == allocSize
    }

    /** Adds `newItem` at the back.  A full buffer is first replaced by one of
        twice the size holding the items in order from slot 0.  Doubling a
        buffer of size 0 leaves size 0 and the index update then divides by
        zero, so the buffer must have room for at least one item. */
    method Enqueue(newItem: int)
      requires Valid() && allocSize > 0
      modifies Repr
      ensures Valid() && fresh(Repr - old(Repr))
      ensures Contents == old(Contents) + [newItem]
      ensures numitems == old(numitems) + 1
      ensures old(numitems) == old(allocSize) ==>
                && allocSize == 2 * old(allocSize) && fresh(items)
                && frontIndex == 0 && items[..numitems] == Contents
      ensures old(numitems) < old(allocSize) ==>
                && allocSize == old(allocSize) && items == old(items)
                && frontIndex == old(frontIndex)
      ensures allocSize >= old(allocSize)
    {
      var full := IsFull();
      if full {
        Grow();
      }
      Append(newItem);
      if full {
        SlotsFromZero(allocSize);
        assert forall i :: 0 <= i < numitems ==> items[i] == Contents[i];
      }
    }

    /** The last step of `Enqueue`, once there is a free slot: the back index
        moves on by one slot, wrapping at the end, and the new item goes
        there. */
    method Append(newItem: int)
      requires Valid() && numitems < allocSize
      modifies this, items
      ensures Valid() && Repr == old(Repr)
      ensures Contents == old(Contents) + [newItem] && numitems == old(numitems) + 1
      ensures allocSize == old(allocSize) && items == old(items) && frontIndex == old(frontIndex)
    {
      SlotStep(frontIndex, numitems - 1, allocSize);
      SlotsDistinct(frontIndex, allocSize, numitems + 1);
      ModCases(backIndex + 1, allocSize);
      backIndex := (backIndex + 1) % allocSize;
      numitems := numitems + 1;
      items[backIndex] := newItem;
      Contents := Contents + [newItem];
      forall i | 0 <= i < numitems
        ensures Contents[i] == items[Slot(frontIndex, i, allocSize)]
      {
        if i < numitems - 1 {
          assert Slot(frontIndex, i, allocSize) != Slot(frontIndex, numitems - 1, allocSize);
        }
      }
    }

    /** The growth step of `Enqueue` on a full buffer: a fresh buffer of twice
        the size receives the items in order from slot 0. */
    method Grow()
      requires Valid() && allocSize > 0 && numitems == allocSize
      modifies this
      ensures Valid() && fresh(Repr - old(Repr)) && fresh(items)
      ensures Contents == old(Contents) && numitems == old(numitems)
      ensures allocSize == 2 * old(allocSize)
      ensures frontIndex == 0 && backIndex == numitems - 1
      ensures items[..numitems] == Contents
    {
      var newAllocSize := 2 * allocSize;
      var newItems := new int[newAllocSize];
      var oldIndex := frontIndex;
      for index := 0 to numitems
        invariant oldIndex == Slot(frontIndex, index, allocSize)
        invariant forall j :: 0 <= j < index ==> newItems[j] == Contents[j]
        modifies newItems
      {
        newItems[index] := items[oldIndex];
        SlotStep(frontIndex, index, allocSize);
        oldIndex := (oldIndex + 1) % allocSize;
      }
      frontIndex := 0;
      backIndex := numitems - 1;
      items := newItems;
      allocSize := newAllocSize;
      Repr := Repr + {newItems};
      SlotsFromZero(allocSize);
    }

    /** The front item, which stays on the queue. */
    function Front(): (r: Result<int>)
      reads this, Repr
      requires Valid()
      ensures Contents == [] ==> r == Throw(EmptyQueueException("AQueue<T>::front()"))
      ensures Contents != [] ==> r == Ok(Contents[0])
    {
      if IsEmpty() then
        Throw(EmptyQueueException("AQueue<T>::front()"))
      else
        ModCases(frontIndex, allocSize);
        Ok(items[frontIndex])
    }

    /** Removes the front item; on an empty queue nothing changes. */
    method Dequeue() returns (r: Result<()>)
      requires Valid()
      modifies this
      ensures Valid() && Repr == old(Repr)
      ensures items == old(items) && allocSize == old(allocSize)
      ensures old(Contents) == [] ==>
                r == Throw(EmptyQueueException("Aqueue<T>::dequeue()")) && unchanged(this)
      ensures old(Contents) != [] ==> r == Ok(()) && Contents == old(Contents)[1..]
    {
      if IsEmpty() {
        r := Throw(EmptyQueueException("Aqueue<T>::dequeue()"));
      } else {
        SlotsAfterFront(frontIndex, (frontIndex + 1) % allocSize, allocSize, numitems - 1);
        numitems := numitems - 1;
        frontIndex := (frontIndex + 1) % allocSize;
        Contents := Contents[1..];
        r := Ok(());
      }
    }

    /** The number of items held. */
    function Length(): (n: int)
      reads this, Repr
      requires Valid()
      ensures n == |Contents|
    {
      numitems
    }

    /** The item at position `index` from the front (0 is the front). */
    function At(index: int): (r: Result<int>)
      reads this, Repr
      requires Valid()
      ensures (index < 0 || index >= |Contents|) ==>
                r == Throw(InvalidIndexQueueException("AQueue<T>::operator[]"))
      ensures 0 <= index < |Contents| ==> r == Ok(Contents[index])
    {
      if index < 0 || index >= numitems then
        Throw(InvalidIndexQueueException("AQueue<T>::operator[]"))
      else
        Ok(items[(frontIndex + index) % allocSize])
    }
  }
}
