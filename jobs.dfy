/** Jobs of the scheduling simulation: a priority, a service time, the time
    the job started waiting and the time it stopped waiting.  Jobs are
    ordered by priority alone. */
module Jobs {

  /** The source's `int`: a signed 32-bit integer.  Signed overflow is
      undefined behaviour in the source, so every arithmetic step that
      produces an `int32` requires its mathematical result to fit. */
  newtype int32 = x: int | -0x8000_0000 <= x < 0x8000_0000

  predicate FitsInt32(x: int) {
    -0x8000_0000 <= x < 0x8000_0000
  }

  /** The process-wide counter `Job::nextListId` from which every job built by
      the three-argument constructor takes its id. */
  class JobIdCounter {
    var nextListId: int32

    /** The counter as the program starts: the first id handed out is 1. */
    constructor ()
      ensures nextListId == 1
    {
      nextListId := 1;
    }
  }

  class Job {
    var id: int32
    var priority: int32
    var serviceTime: int32
    var startTime: int32
    var endTime: int32

    /** The filler job used to pre-fill storage: every field is 0. */
    constructor Default()
      ensures id == 0 && priority == 0 && serviceTime == 0
      ensures startTime == 0 && endTime == 0
    {
      id := 0;
      priority := 0;
      serviceTime := 0;
      startTime := 0;
      endTime := 0;
    }

    /** A live job: it takes the counter's current value as its id, the
        counter moves on by one, and the job has not waited yet. */
    constructor (priority: int32, serviceTime: int32, startTime: int32, ids: JobIdCounter)
      requires ids.nextListId < 0x7fff_ffff
      modifies ids
      ensures id == old(ids.nextListId) && ids.nextListId as int == old(ids.nextListId) as int + 1
      ensures this.priority == priority && this.serviceTime == serviceTime
      ensures this.startTime == startTime && endTime == startTime
      ensures GetWaitTime() == 0 && GetCost() == 0
    {
      id := ids.nextListId;
      ids.nextListId := ids.nextListId + 1;
      this.priority := priority;
      this.serviceTime := serviceTime;
      this.startTime := startTime;
      this.endTime := startTime;
    }

    /** Records the time the job stopped waiting; no other field changes. */
    method SetEndTime(endTime: int32)
      modifies this`endTime
      ensures this.endTime == endTime
    {
      this.endTime := endTime;
    }

    /** The job's id. */
    function GetId(): (id': int32)
      reads this
      ensures id' == id
    {
      id
    }

    /** The job's service time. */
    function GetServiceTime(): (time: int32)
      reads this
      ensures time == serviceTime
    {
      serviceTime
    }

    /** The job's priority. */
    function GetPriority(): (p: int32)
      reads this
      ensures p == priority
    {
      priority
    }

    /** How long the job waited: zero until `SetEndTime` is called. */
    function GetWaitTime(): (wait: int32)
      reads this
      requires FitsInt32(endTime as int - startTime as int)
      ensures wait as int + startTime as int == endTime as int
    {
      endTime - startTime
    }

    /** The job's cost: its priority weighted by how long it waited. */
    function GetCost(): (cost: int32)
      reads this
      requires FitsInt32(endTime as int - startTime as int)
      requires FitsInt32(priority as int * (endTime as int - startTime as int))
      ensures cost as int == priority as int * (endTime as int - startTime as int)
      ensures GetWaitTime() == 0 ==> cost == 0
    {
      priority * GetWaitTime()
    }

    /** The four comparisons look at the priority and at nothing else. */
    function Equal(rhs: Job): (equal: bool)
      reads this, rhs
      ensures equal <==> priority as int == rhs.priority as int
    {
      priority == rhs.priority
    }

    function Less(rhs: Job): (less: bool)
      reads this, rhs
      ensures less <==> priority as int < rhs.priority as int
    {
      priority < rhs.priority
    }

    function Greater(rhs: Job): (greater: bool)
      reads this, rhs
      ensures greater <==> priority as int > rhs.priority as int
    {
      priority > rhs.priority
    }

    function LessOrEqual(rhs: Job): (notGreater: bool)
      reads this, rhs
      ensures notGreater <==> !(priority as int > rhs.priority as int)
    {
      priority <= rhs.priority
    }
  }

  /** Two jobs that share a priority are interchangeable for every comparison,
      whatever their ids, service times and times. */
  lemma ComparisonsSeeOnlyPriority(a: Job, a': Job, b: Job)
    requires a.priority == a'.priority
    ensures a.Equal(b) == a'.Equal(b) && b.Equal(a) == b.Equal(a')
    ensures a.Less(b) == a'.Less(b) && b.Less(a) == b.Less(a')
    ensures a.Greater(b) == a'.Greater(b) && b.Greater(a) == b.Greater(a')
    ensures a.LessOrEqual(b) == a'.LessOrEqual(b) && b.LessOrEqual(a) == b.LessOrEqual(a')
    ensures a.Equal(a')
  {
  }

  /** The comparisons form a total preorder on jobs: exactly one of `<`, `==`,
      `>` holds, `<=` is `<` or `==`, and `>` is `<` seen from the other side. */
  lemma ComparisonsAreConsistent(a: Job, b: Job)
    ensures a.Less(b) || a.Equal(b) || a.Greater(b)
    ensures !(a.Less(b) && a.Equal(b)) && !(a.Less(b) && a.Greater(b)) && !(a.Equal(b) && a.Greater(b))
    ensures a.LessOrEqual(b) <==> a.Less(b) || a.Equal(b)
    ensures a.Greater(b) <==> b.Less(a)
    ensures a.Equal(b) <==> b.Equal(a)
  {
  }
}
