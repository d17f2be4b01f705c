# Job-Simulation queues in Dafny

This project models the queue library behind a priority-scheduling job simulator.

- **Jobs.** A `Job` has an id, a priority, a service time, a start time and an end time.
  - The id comes from a process-wide counter.
  - Jobs compare by priority alone.
- **Queue interface.** The abstract `Queue` of `int` declares eight pure-virtual operations: `clear`, `isEmpty`, `enqueue`, `front`, `dequeue`, `length`, `tostring` and `operator[]`. All but `tostring` are modelled. It also implements `operator==` itself. It has two realisations:
  - `AQueue` is a circular buffer that doubles when it is full.
  - `LQueue` is a singly linked chain of nodes.
- **Priority queue.** `PriorityQueues` is an `LQueue` whose `enqueue` of a job inserts the job's priority into the chain in priority order.
- **Queue equality.** `Queue::operator==` compares two queues of either kind by length, then item by item.

## Modules

- `QueueErrors` holds the two exception kinds. It also holds `Result<T>`, with which an operation returns the exception it would throw.
- `Jobs` holds `Job`, the id counter, and the 32-bit `int` of the source as `int32`.
- `ArrayQueue.AQueue` is a class over an `array<int>`.
  - A ghost `Contents` lists the items from front to back.
  - `Valid()` ties logical position `i` to slot `(frontIndex + i) % allocSize`.
- `LinkedQueue.LQueue` is a class over `Node` objects.
  - A ghost `Nodes` lists the chain from front to back, and `Contents` lists the nodes' items.
  - `Valid()` says that `link` walks `Nodes` in order, ending at `queueBack` and then at null.
- `PriorityQueue` contains both layers of the sorted insertion:
  - the specification, `PriorityInsert` on sequences, with the lemmas about it;
  - the pointer-level `Enqueue`, proved to produce `PriorityInsert` of the old contents.
- `QueueAdt.QueueRef` is a reference to either realisation.
  - Its operations dispatch the way the virtual calls do.
  - `Equals` there is `Queue::operator==`.
- `Scenarios` holds the queue assertions of the test driver `assg-11.cpp`, as postconditions of methods that perform the driver's calls. These are the equality check and both priority-queue blocks; the simulator runs at the driver's end are left out.

## Model

| member | source | states |
|---|---|---|
| QueueErrors.What | Queue.hpp:110-171 | The message is "Error: ", then the origin, then " attempted on emtpy queue" (EmptyQueueException, Queue.hpp:110-118) or " invalid index request for queue" (InvalidIndexQueueException, Queue.hpp:163-171). |
| Jobs.JobIdCounter.constructor | Queue.cpp:9 | The counter starts at 1. |
| Jobs.Job.Default | Queue.cpp:19-26 | Every field of the default job is 0. |
| Jobs.Job.constructor | Queue.cpp:44-51 | The id is the counter's old value and the counter goes up by exactly 1. The other fields are the arguments, with endTime equal to startTime. A fresh job has wait time 0 and cost 0. |
| Jobs.Job.SetEndTime | Queue.cpp:62-65 | Sets endTime and changes no other field. |
| Jobs.Job.GetId | Queue.cpp:73-76 | The job's id. |
| Jobs.Job.GetServiceTime | Queue.cpp:86-89 | The job's service time. |
| Jobs.Job.GetPriority | Queue.cpp:99-102 | The job's priority. |
| Jobs.Job.Equal | Queue.cpp:157-160 | True exactly when this job's priority equals rhs's priority. |
| Jobs.Job.Less | Queue.cpp:177-180 | True exactly when this job's priority is smaller than rhs's priority. |
| Jobs.Job.Greater | Queue.cpp:197-200 | True exactly when this job's priority is larger than rhs's priority. |
| Jobs.Job.LessOrEqual | Queue.cpp:217-220 | True exactly when this job's priority is not larger than rhs's priority. |
| Jobs.Job.GetWaitTime | Queue.cpp:115-118 | startTime plus the wait time is endTime. |
| Jobs.Job.GetCost | Queue.cpp:138-141 | The cost is priority times (endTime - startTime), and it is 0 when the wait time is 0. |
| Jobs.ComparisonsSeeOnlyPriority | Queue.cpp:157-220 | Two jobs with the same priority give the same answer to all four comparisons, on either side, whatever their other fields. |
| Jobs.ComparisonsAreConsistent | Queue.cpp:157-220 | Exactly one of <, == and > holds. <= is < or ==. a > b is b < a. == is symmetric. |
| ArrayQueue.AQueue.constructor | Queue.cpp:304-311 | An empty, valid queue whose buffer has the requested size (100 by default). |
| ArrayQueue.AQueue.FromArray | Queue.cpp:325-340 | A full, valid queue holding the first numitems entries of the array, in order, in a buffer of exactly that size. |
| ArrayQueue.AQueue.Clear | Queue.cpp:356-361 | The queue is empty and valid, with frontIndex 0 and backIndex allocSize-1. The buffer is unchanged. |
| ArrayQueue.AQueue.IsEmpty | Queue.cpp:370-373 | True exactly when no item is held. |
| ArrayQueue.AQueue.IsFull | Queue.cpp:382-385 | True exactly when the number of items equals the buffer size. |
| ArrayQueue.AQueue.Enqueue | Queue.cpp:395-428 | The contents become old + [newItem] and the count goes up by 1. A full buffer doubles and holds the items in order from slot 0, with frontIndex 0. Otherwise the buffer and frontIndex are unchanged. The capacity never shrinks. |
| ArrayQueue.AQueue.Grow | Queue.cpp:398-422 | A fresh buffer of twice the size holds the same contents at slots 0..numitems-1. frontIndex is 0 and backIndex is numitems-1. |
| ArrayQueue.AQueue.Append | Queue.cpp:424-427 | backIndex moves on one slot, with wrap-around, and the new item is stored there. The contents become old + [newItem] and the buffer invariant still holds. |
| ArrayQueue.AQueue.Front | Queue.cpp:440-451 | On an empty queue: throws EmptyQueueException("AQueue<T>::front()"). Otherwise: the front item. |
| ArrayQueue.AQueue.Dequeue | Queue.cpp:462-474 | On an empty queue: throws EmptyQueueException("Aqueue<T>::dequeue()") and changes nothing. Otherwise: removes exactly the front item. The buffer is kept in both cases. |
| ArrayQueue.AQueue.Length | Queue.cpp:482-485 | The number of items held. |
| ArrayQueue.AQueue.At | Queue.cpp:523-537 | For an index outside [0, length): throws InvalidIndexQueueException("AQueue<T>::operator[]"). Otherwise: the item at that logical position. |
| LinkedQueue.Node.constructor | Queue.hpp:224-228 | A node holding the item and linking to null. |
| LinkedQueue.LQueue.constructor | Queue.cpp:547-552 | An empty, valid chain with both ends null. |
| LinkedQueue.LQueue.Clear | Queue.cpp:569-587 | The walk ends with both ends null, the count 0 and the queue empty. |
| LinkedQueue.LQueue.IsEmpty | Queue.cpp:596-600 | A null front means the contents are empty, and also that the count is 0. |
| LinkedQueue.LQueue.Enqueue | Queue.cpp:610-635 | The new node is the back and holds newItem. The contents become old + [newItem] and the count goes up by 1. A non-empty queue keeps its front node. |
| LinkedQueue.LQueue.Front | Queue.cpp:644-655 | On an empty queue: throws EmptyQueueException("LQueue<T>::front()"). Otherwise: the front item. |
| LinkedQueue.LQueue.Dequeue | Queue.cpp:664-690 | On an empty queue: throws EmptyQueueException("LQueue<T>::dequeue()") and changes nothing. Otherwise: removes exactly the front item and the count goes down by 1. When the queue becomes empty, both ends are null. |
| LinkedQueue.LQueue.Length | Queue.cpp:698-701 | The number of items held. |
| LinkedQueue.LQueue.At | Queue.cpp:739-762 | For an index outside [0, length): throws InvalidIndexQueueException("LQueue<T>::operator[]"). Otherwise: the walk of index links reaches the item at that position. |
| PriorityQueue.FirstSmaller | Queue.cpp:788-801 | The walk's stopping point. Every key from the start of the walk up to that point is at least the new key. The key there, if any, is strictly smaller. |
| PriorityQueue.InsertionPoint | Queue.cpp:776-801 | The position is 0 exactly when the chain is empty or the new key beats the front strictly. No key between the front and that position is smaller than the new key; the key at it, if any, is strictly smaller. |
| PriorityQueue.PriorityInsert | Queue.cpp:765-809 | The chain after a priority enqueue, one key longer. |
| PriorityQueue.InsertAddsKey | Queue.cpp:765-809 | The insertion adds exactly the new key: the multiset of keys is the old one plus the new key. |
| PriorityQueue.InsertKeepsOldOrder | Queue.cpp:786-807 | Keys before the insertion point keep their places, the new key takes that point, and later keys move back by one. Removing the new key gives back the old chain. |
| PriorityQueue.InsertAfterEqualKeys | Queue.cpp:790-798 | On a non-increasing chain the new key lands after every key at least as large, so after every equal key, and before every strictly smaller key. |
| PriorityQueue.InsertKeepsNonIncreasing | Queue.hpp:266-278 | The priority enqueue keeps a non-increasing chain non-increasing. |
| PriorityQueue.EnqueueAll | Queue.hpp:266-278 | Enqueueing a sequence of keys in order adds exactly those keys: the length and the multiset grow by them. |
| PriorityQueue.EnqueueAllNonIncreasing | Queue.hpp:266-278 | Whatever keys arrive, a chain that starts non-increasing (an empty one, for instance) stays non-increasing. |
| PriorityQueue.InsertExampleSteps | assg-11.cpp:79-120 | Where each of the driver's six jobs lands: [5], [10, 5], [10, 5, 2], [10, 5, 2, 1], [10, 5, 3, 2, 1], [10, 5, 3, 2, 2, 1]. |
| PriorityQueue.EnqueueExample | assg-11.cpp:79-120 | Priorities 5, 10, 2, 1, 3, 2, enqueued on an empty queue, give 10, 5, 3, 2, 2, 1. |
| PriorityQueue.LinkOnly | Queue.cpp:776-780 | In an empty chain the new node becomes both front and back. |
| PriorityQueue.LinkFirst | Queue.cpp:781-785 | The new node links to the old front and becomes the front, so the contents become [key] + old. |
| PriorityQueue.LinkAfter | Queue.cpp:792-797 | The new node is spliced in between the nodes at positions k and k+1. |
| PriorityQueue.LinkLast | Queue.cpp:802-806 | The new node is linked after the back node and becomes the back. |
| PriorityQueue.LinkInOrder | Queue.cpp:786-807 | The walk that trails n behind n2 puts the new key at the first position after the front whose key is strictly smaller, or at the back. |
| PriorityQueue.Enqueue | Queue.cpp:765-809 | The new contents are PriorityInsert of the old contents and the job's priority. The chain stays valid and the count goes up by 1. |
| QueueAdt.Clear | Queue.hpp:28-33 | After clear, either realisation is empty. |
| QueueAdt.IsEmpty | Queue.hpp:35-42 | True exactly when the queue holds nothing. It reads the state and changes nothing. |
| QueueAdt.Enqueue | Queue.hpp:44-50 | The new item goes on the back of either realisation. |
| QueueAdt.Front | Queue.hpp:52-61 | The front item, not removed. An empty queue throws EmptyQueueException. |
| QueueAdt.Dequeue | Queue.hpp:63-68 | Removes exactly the front item. An empty queue throws EmptyQueueException and stays empty. |
| QueueAdt.Length | Queue.hpp:70-75 | The number of items on the queue. |
| QueueAdt.At | Queue.hpp:83-86 | The item at the index. An index outside [0, length) throws InvalidIndexQueueException. |
| QueueAdt.Equals | Queue.cpp:256-277 | True exactly when the lengths are equal and the items agree at every index, which is exactly when the contents are equal. Holds for any pair of realisations. |
| Scenarios.BasicLinkedQueue | assg-11.cpp:58-63 | A linked queue that received 5, 7, 9 and 11 holds [5, 7, 9, 11]. |
| Scenarios.ExpectedArrayQueue | assg-11.cpp:67-68 | An array queue built from {5, 7, 9, 11} holds [5, 7, 9, 11]. |
| Scenarios.LinkedEqualsArray | assg-11.cpp:58-69 | The linked queue and the array queue compare equal. |
| Scenarios.EnqueueAndProbe | assg-11.cpp:80-83 | One driver step: enqueue a job of the given priority, then read the length and one position. |
| Scenarios.FirstJobs | assg-11.cpp:80-97 | On an empty queue, after jobs 5, 10 and 2, the counter has moved on by 3, and the checks give: lengths 1, 2, 3, and items 5 at index 0, 10 at index 0, 2 at index 2. |
| Scenarios.LaterJobs | assg-11.cpp:101-120 | After jobs 1, 3 and 2, the counter has moved on by 3, and the checks give: lengths 4, 5, 6, and items 1 at index 3, 3 at index 2, 2 at index 4. |
| Scenarios.PriorityQueueChecks | assg-11.cpp:76-120 | The twelve assertions of the first priority-queue block hold on a new queue: lengths 1 to 6, and items 5, 10, 2, 1, 3 and 2 at the probed positions. Six ids are used. |
| Scenarios.DriverPriorityChecks | assg-11.cpp:76-163 | Both priority-queue blocks hold, with ids from one counter: the twelve assertions of the first and the six length assertions of the second (`jobs`) block. |

## Left out

- `tostring` and every `operator<<` are left out, because they only format strings.
- Destructors and `delete` are left out. A node freed by `dequeue` stays in `LQueue.Repr`; `clear` resets `Repr` to `{this}`. The two throw-away `new Node` allocations in `PriorityQueues::enqueue` are left out too, because nothing ever reads them.
- The default constructors of the two exception classes are left out, because no queue operation uses them.
- The simulator (`JobSimulator.cpp`) is left out, because it uses random numbers, floating point and console output. So are the two `runSimulation` calls at the end of the test driver.
- The driver's commented-out checks on job ids in the second priority-queue block are not modelled. The nodes keep only priorities.
- Queue items are unbounded integers. The 32-bit limit of `allocSize` doubling and of `numitems` is not modelled.
  - Job fields are 32-bit `int32`.
  - The constructor, `GetWaitTime` and `GetCost` require their arithmetic to fit, since signed overflow is undefined in the source.
- ArrayQueue.AQueue.Enqueue requires `allocSize > 0`. A queue built with capacity 0, for example `AQueue(arr, 0)`, doubles 0 to 0 on its first enqueue and then takes `% 0`, which is undefined.
- ArrayQueue.AQueue.constructor requires `initialAlloc >= 0`, and ArrayQueue.AQueue.FromArray requires `numitems >= 0`, since `new int[n]` throws for a negative `n`; that exception is not modelled.
- ArrayQueue.AQueue.FromArray also requires `numitems <= initItems.Length`. A C++ array carries no length, so passing one at least `numitems` long is the caller's duty.
- ArrayQueue.AQueue.Grow and ArrayQueue.AQueue.Append are the two halves of the inline code of `enqueue`.
- PriorityQueue.LinkOnly, PriorityQueue.LinkFirst, PriorityQueue.LinkAfter, PriorityQueue.LinkLast and PriorityQueue.LinkInOrder are the branches of `PriorityQueues::enqueue`. In them, `numitems++` is done inside each branch instead of once at the end.
- PriorityQueue.Enqueue states order by position only. The node keeps only the job's priority, so the job's identity is lost and stability cannot be stated in terms of job ids.
- Through a `Queue&`, a `PriorityQueues` object's `enqueue(int)` is the plain `LQueue` append. The method of the subclass takes a `Job`, so it hides the inherited `enqueue` instead of overriding it. `QueueAdt.Enqueue` therefore models that virtual call as the append.
- Scenarios.LaterJobs does not restate that the chain stays valid. The driver reads nothing after its last assertion.
