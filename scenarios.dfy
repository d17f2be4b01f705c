/** The checks of the test driver `assg-11.cpp`, as methods whose
    postconditions are the driver's assertions. */
module Scenarios {
  import opened QueueErrors
  import opened Jobs
  import opened ArrayQueue
  import opened LinkedQueue
  import opened QueueAdt
  import PriorityQueue

  /** The driver's first queue: a linked queue that received 5, 7, 9 and
      11, in that order. */
  method BasicLinkedQueue() returns (aQueue: LQueue)
    ensures aQueue.Valid() && fresh(aQueue.Repr)
    ensures aQueue.Contents == [5, 7, 9, 11]
  {
    aQueue := new LQueue();
    aQueue.Enqueue(5);
    aQueue.Enqueue(7);
    aQueue.Enqueue(9);
    aQueue.Enqueue(11);
  }

  /** The queue it is compared with: an array queue built from the array
      `{5, 7, 9, 11}`. */
  method ExpectedArrayQueue() returns (expectedQueue1: AQueue)
    ensures expectedQueue1.Valid() && fresh(expectedQueue1.Repr)
    ensures expectedQueue1.Contents == [5, 7, 9, 11]
  {
    var expectedInit1 := new int[4];
    expectedInit1[0], expectedInit1[1], expectedInit1[2], expectedInit1[3] := 5, 7, 9, 11;
    assert expectedInit1[..4] == [5, 7, 9, 11];
    expectedQueue1 := new AQueue.FromArray(expectedInit1, 4);
  }

  /** The two queues compare equal, although one is a chain of nodes and
      the other a circular buffer. */
  method LinkedEqualsArray() returns (equal: bool)
    ensures equal
  {
    var aQueue := BasicLinkedQueue();
    var expectedQueue1 := ExpectedArrayQueue();
    equal := Equals(LinkedRef(aQueue), ArrayRef(expectedQueue1));
  }

  /** One step of the driver's priority-queue checks: a new job of priority
      `priority` is enqueued, then the length and the item at `index` are
      read.  `expected` is what the priority insertion makes of the queue. */
  method EnqueueAndProbe(priorityQueue: LQueue, ids: JobIdCounter, priority: int32, index: int,
                         ghost expected: seq<int>)
      returns (length: int, probe: Result<int>)
    requires priorityQueue.Valid() && ids !in priorityQueue.Repr
    requires ids.nextListId < 0x7fff_ffff
    requires PriorityQueue.PriorityInsert(priorityQueue.Contents, priority as int) == expected
    requires 0 <= index < |expected|
    modifies priorityQueue.Repr, ids
    ensures priorityQueue.Valid() && fresh(priorityQueue.Repr - old(priorityQueue.Repr))
    ensures ids !in priorityQueue.Repr && ids.nextListId as int == old(ids.nextListId) as int + 1
    ensures priorityQueue.Contents == expected
    ensures length == |expected| && probe == Ok(expected[index])
  {
    var job := new Job(priority, 0, 0, ids);
    PriorityQueue.Enqueue(priorityQueue, job);
    length := priorityQueue.Length();
    probe := priorityQueue.At(index);
  }

  /** The first three jobs, of priority 5, 10 and 2, into an empty priority
      queue: the first job is at the front, 10 takes the front and 2 goes to
      the back. */
  method FirstJobs(priorityQueue: LQueue, ids: JobIdCounter)
      returns (lengths: seq<int>, probes: seq<Result<int>>)
    requires priorityQueue.Valid() && ids !in priorityQueue.Repr
    requires priorityQueue.Contents == [] && ids.nextListId <= 100
    modifies priorityQueue.Repr, ids
    ensures priorityQueue.Valid() && fresh(priorityQueue.Repr - old(priorityQueue.Repr))
    ensures ids !in priorityQueue.Repr && ids.nextListId as int == old(ids.nextListId) as int + 3
    ensures priorityQueue.Contents == [10, 5, 2]
    ensures lengths == [1, 2, 3] && probes == [Ok(5), Ok(10), Ok(2)]
  {
    assert PriorityQueue.PriorityInsert([], 5) == [5] by {
      PriorityQueue.InsertExampleSteps();
    }
    var length1, probe1 := EnqueueAndProbe(priorityQueue, ids, 5, 0, [5]);
    assert PriorityQueue.PriorityInsert([5], 10) == [10, 5] by {
      PriorityQueue.InsertExampleSteps();
    }
    var length2, probe2 := EnqueueAndProbe(priorityQueue, ids, 10, 0, [10, 5]);
    assert PriorityQueue.PriorityInsert([10, 5], 2) == [10, 5, 2] by {
      PriorityQueue.InsertExampleSteps();
    }
    var length3, probe3 := EnqueueAndProbe(priorityQueue, ids, 2, 2, [10, 5, 2]);
    lengths := [length1, length2, length3];
    probes := [probe1, probe2, probe3];
  }

  /** The last three jobs, of priority 1, 3 and 2: 1 goes to the back, 3
      lands in the middle, and the second 2 lands behind the first. */
  method LaterJobs(priorityQueue: LQueue, ids: JobIdCounter)
      returns (lengths: seq<int>, probes: seq<Result<int>>)
    requires priorityQueue.Valid() && ids !in priorityQueue.Repr
    requires priorityQueue.Contents == [10, 5, 2] && ids.nextListId <= 103
    modifies priorityQueue.Repr, ids
    ensures ids.nextListId as int == old(ids.nextListId) as int + 3
    ensures priorityQueue.Contents == [10, 5, 3, 2, 2, 1]
    ensures lengths == [4, 5, 6] && probes == [Ok(1), Ok(3), Ok(2)]
  {
    assert PriorityQueue.PriorityInsert([10, 5, 2], 1) == [10, 5, 2, 1] by {
      PriorityQueue.InsertExampleSteps();
    }
    var length4, probe4 := EnqueueAndProbe(priorityQueue, ids, 1, 3, [10, 5, 2, 1]);
    assert PriorityQueue.PriorityInsert([10, 5, 2, 1], 3) == [10, 5, 3, 2, 1] by {
      PriorityQueue.InsertExampleSteps();
    }
    var length5, probe5 := EnqueueAndProbe(priorityQueue, ids, 3, 2, [10, 5, 3, 2, 1]);
    assert PriorityQueue.PriorityInsert([10, 5, 3, 2, 1], 2) == [10, 5, 3, 2, 2, 1] by {
      PriorityQueue.InsertExampleSteps();
    }
    var length6, probe6 := EnqueueAndProbe(priorityQueue, ids, 2, 4, [10, 5, 3, 2, 2, 1]);
    lengths := [length4, length5, length6];
    probes := [probe4, probe5, probe6];
  }

  /** Jobs of priority 5, 10, 2, 1, 3 and 2 go into a new, empty priority
      queue one at a time, taking their ids from `ids`; after each, the
      length and one position are read. */
  method PriorityQueueChecks(ids: JobIdCounter) returns (lengths: seq<int>, probes: seq<Result<int>>)
    requires ids.nextListId <= 100
    modifies ids
    ensures ids.nextListId as int == old(ids.nextListId) as int + 6
    ensures lengths == [1, 2, 3, 4, 5, 6]
    ensures probes == [Ok(5), Ok(10), Ok(2), Ok(1), Ok(3), Ok(2)]
  {
    var priorityQueue := new LQueue();
    var firstLengths, firstProbes := FirstJobs(priorityQueue, ids);
    var laterLengths, laterProbes := LaterJobs(priorityQueue, ids);
    lengths := firstLengths + laterLengths;
    probes := firstProbes + laterProbes;
  }

  /** The driver's two priority-queue blocks, one after the other, with ids
      from one counter that starts at 1.  The first block (`priorityQueue`)
      checks the length and one position after each enqueue; the second
      (`jobs`) enqueues jobs of the same six priorities into a second queue
      and checks only the lengths.  The reads of a position it does not
      check change nothing. */
  method DriverPriorityChecks() returns (lengths: seq<int>, probes: seq<Result<int>>, jobLengths: seq<int>)
    ensures lengths == [1, 2, 3, 4, 5, 6]
    ensures probes == [Ok(5), Ok(10), Ok(2), Ok(1), Ok(3), Ok(2)]
    ensures jobLengths == [1, 2, 3, 4, 5, 6]
  {
    var ids := new JobIdCounter();
    lengths, probes := PriorityQueueChecks(ids);
    var jobProbes;
    jobLengths, jobProbes := PriorityQueueChecks(ids);
  }
}
