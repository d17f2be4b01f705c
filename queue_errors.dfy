/** The two exception kinds a queue throws, and the outcome of an operation
    that may throw one of them.  The queue classes signal an exception by
    returning `Throw(e)` instead of unwinding the stack. */
module QueueErrors {

  /** `EmptyQueueException(origin)` is thrown by `front` and `dequeue` on an
      empty queue, `InvalidIndexQueueException(origin)` by the indexing
      operator on an index outside `[0, length)`.  `origin` is the string the
      throwing member passes to the exception's constructor. */
  datatype QueueException =
    | EmptyQueueException(origin: string)
    | InvalidIndexQueueException(origin: string)

  /** The outcome of a queue operation: a value, or the exception it threw. */
  datatype Result<T> = Ok(value: T) | Throw(exception: QueueException)

  /** The message `what()` returns for an exception built from `origin`. */
  function What(e: QueueException): (message: string)
    ensures |message| > 7 + |e.origin| && message[..7] == "Error: "
    ensures message[7..7 + |e.origin|] == e.origin
    ensures e.EmptyQueueException? ==>
              message[7 + |e.origin|..] == " attempted on emtpy queue"
    ensures e.InvalidIndexQueueException? ==>
              message[7 + |e.origin|..] == " invalid index request for queue"
  {
    match e
    case EmptyQueueException(origin) =>
      "Error: " + origin + " attempted on emtpy queue"
    case InvalidIndexQueueException(origin) =>
      "Error: " + origin + " invalid index request for queue"
  }
}
