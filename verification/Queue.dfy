/** The queue object: the fields, loops and branches of packages/api/tasks/src/Limiter/Queue.ts,
    each method proved against the function of the same name in QueueSpec. */
module Queues {
  import opened Wrappers
  import opened QueueSpec
  import Spec = QueueSpec

  class Queue {
    const options: QueueOptions
    var queue: seq<Job>
    var refillTimer: bool
    var actualBucketSize: real
    var blocked: bool

    ghost predicate Valid() reads this { options.Valid() && Sorted(queue) && Consistent(queue) }

    function State(): QueueState reads this { QueueState(queue, actualBucketSize, refillTimer, blocked) }

    constructor (options: QueueOptions)
      requires options.Valid()
      ensures Valid() && this.options == options && State() == EmptyQueue(options)
      ensures queue == [] && !blocked && actualBucketSize == options.bucketSize
      ensures refillTimer <==> options.bucketSize > 0.0
    {
      this.options := options;
      queue, actualBucketSize, blocked := [], options.bucketSize, false;
      refillTimer := options.bucketSize > 0.0;
    }

    /** The binary search: the first index with a strictly lower priority. */
    static method LowerBound(jobs: seq<Job>, value: Job) returns (first: nat)
      requires Sorted(jobs)
      ensures first <= |jobs|
      ensures forall k :: 0 <= k < first ==> jobs[k].priority >= value.priority
      ensures forall k :: first <= k < |jobs| ==> jobs[k].priority < value.priority
    {
      first := 0;
      var count := |jobs|;
      while count > 0
        invariant 0 <= count && first + count <= |jobs|
        invariant forall k :: 0 <= k < first ==> jobs[k].priority >= value.priority
        invariant forall k :: first + count <= k < |jobs| ==> jobs[k].priority < value.priority
      {
        var step := count / 2;
        var it := first + step;
        if value.priority - jobs[it].priority <= 0.0 {
          it := it + 1;
          first := it;
          count := count - (step + 1);
        } else {
          count := step;
        }
      }
    }

    method Enqueue(job: Job) returns (accepted: bool, seed: bool)
      requires Valid() && Consistent(queue + [job])
      modifies this
      ensures Valid()
      ensures Spec.Enqueue(options, old(State()), job) == EnqueueResult(State(), accepted, seed)
    {
      hide Sorted, Consistent, MakeRoom, Insert;
      ghost var before := queue;
      accepted := HandleQueueStrategy(job);
      if !accepted {
        return false, false;
      }
      if |queue| > 0 && queue[|queue| - 1].priority >= job.priority {
        LastIsLowest(queue);
        PlaceAt(queue, before, job, |queue|);
        assert queue[..|queue|] + [job] + queue[|queue|..] == queue + [job];
        queue := queue + [job];
      } else {
        var index := LowerBound(queue, job);
        PlaceAt(queue, before, job, index);
        queue := queue[..index] + [job] + queue[index..];
      }
      accepted, seed := true, |queue| == 1;
    }

    method Dequeue() returns (job: Option<Job>)
      requires Valid() && queue != []
      modifies this
      ensures Valid()
      ensures Spec.Dequeue(options, old(State())) == (State(), job)
    {
      var granted := CheckAndDecrementBucketSize(queue[0].weight);
      if granted {
        job := Some(queue[0]);
        queue := queue[1..];
      } else {
        job := None;
      }
    }

    method DropByPriory(priority: Option<real>) returns (dropped: Option<Job>)
      requires Valid()
      modifies this
      ensures Valid()
      ensures Spec.Drop(old(State()), priority) == (State(), dropped)
      ensures forall x :: x in queue ==> x in old(queue)
    {
      hide Sorted, Consistent, FirstWithUuid;
      if |queue| == 0 {
        return None;
      }
      var threshold: real;
      if priority.None? {
        threshold := queue[0].priority;
      } else {
        threshold := priority.value - 1.0;
      }
      var index := FirstAtMost(queue, threshold);
      if index == |queue| {
        return None;
      }
      FoundIsRemoved(queue, threshold);
      dropped := Remove(queue[index].uuid);
    }

    method Remove(uuid: nat) returns (removed: Option<Job>)
      requires Valid()
      modifies this
      ensures Valid()
      ensures Spec.Remove(old(State()), uuid) == (State(), removed)
      ensures forall x :: x in queue ==> x in old(queue)
    {
      hide Sorted, Consistent, FirstWithUuid;
      var index := FirstWithUuid(queue, uuid);
      if index == |queue| {
        return None;
      }
      removed := Some(queue[index]);
      WithoutKeepsOrder(queue, index);
      queue := queue[..index] + queue[index + 1..];
    }

    method Clear()
      requires Valid()
      modifies this
      ensures Valid() && State() == Spec.Clear(options, old(State()))
    {
      queue := [];
      if refillTimer {
        refillTimer := false;
        actualBucketSize := options.bucketSize;
      }
    }

    method CheckAndDecrementBucketSize(weight: real) returns (granted: bool)
      modifies this`actualBucketSize
      ensures granted <==> options.bucketSize <= 0.0 || old(actualBucketSize) >= weight
      ensures actualBucketSize ==
              old(actualBucketSize) - if granted && options.bucketSize > 0.0 then weight else 0.0
    {
      if options.bucketSize <= 0.0 {
        return true;
      }
      if actualBucketSize < weight {
        return false;
      }
      actualBucketSize := actualBucketSize - weight;
      return true;
    }

    method HandleQueueStrategy(job: Job) returns (accepted: bool)
      requires Valid()
      modifies this
      ensures Valid()
      ensures Spec.MakeRoom(options, old(State()), job) == (State(), accepted)
      ensures options.strategy.Block? && !old(blocked) && !options.highWater.Above(old(|queue|)) ==>
                !accepted && blocked
      ensures forall x :: x in queue ==> x in old(queue)
    {
      if blocked {
        return false;
      }
      if options.highWater.Above(|queue|) {
        return true;
      }
      match options.strategy {
        case Leak =>
          var _ := DropByPriory(None);
          accepted := true;
        case OverflowPriority =>
          var dropped := DropByPriory(Some(job.priority));
          accepted := dropped.Some?;
        case Block =>
          Clear();
          blocked := true;
          accepted := false;
        case Overflow =>
          accepted := false;
      }
    }

    method RefillBucket() returns (refilled: bool)
      requires Valid() && refillTimer
      modifies this
      ensures Valid() && Spec.Refill(options, old(State())) == (State(), refilled)
    {
      if actualBucketSize < options.bucketSize {
        actualBucketSize := Min(actualBucketSize + options.tokensPerInterval, options.bucketSize);
        refilled := true;
      } else {
        refilled := false;
      }
      refillTimer := true;
    }

    method PenaltyEnds()
      requires Valid()
      modifies this
      ensures Valid() && State() == Spec.Unblock(old(State()))
    {
      blocked := false;
    }
  }

  /** Removing by uuid hits the very job that the threshold found. */
  lemma FoundIsRemoved(q: seq<Job>, threshold: real)
    requires Consistent(q) && FirstAtMost(q, threshold) < |q|
    ensures FirstWithUuid(q, q[FirstAtMost(q, threshold)].uuid) == FirstAtMost(q, threshold)
  {
    hide FirstAtMost, FirstWithUuid;
    var index := FirstAtMost(q, threshold);
    var i := FirstWithUuid(q, q[index].uuid);
    assert i <= index && q[i].priority == q[index].priority;
  }
}
