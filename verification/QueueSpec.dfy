/** The limiter's job queue: priority order, full-queue strategies and token bucket
    (packages/api/tasks/src/Limiter/Queue.ts).

    The pure part gives the meaning of every operation on a `QueueState`; the class `Queue`
    in module Queues is proved against it. Timers are steps: `Refill` is
    the refill timer firing, `Unblock` the penalty timer. */
module QueueSpec {
  import opened Wrappers

  /** A numeric option that may be Infinity. */
  datatype Limit = Unbounded | AtMost(bound: real)
  {
    predicate Above(n: int) { Unbounded? || n as real < bound }
  }

  datatype Strategy = Leak | Overflow | OverflowPriority | Block

  datatype QueueOptions = QueueOptions(
    highWater: Limit, strategy: Strategy, bucketSize: real, tokensPerInterval: real)
  {
    /** What `checkOptions` enforces. */
    predicate Valid() {
      && (highWater.AtMost? ==> highWater.bound >= 1.0)
      && bucketSize >= 0.0
      && tokensPerInterval >= 0.0
      && (bucketSize > 0.0 ==> 0.0 < tokensPerInterval <= bucketSize)
    }
  }

  /** What the queue reads of a task handler. */
  datatype Job = Job(uuid: nat, priority: real, weight: real)

  datatype QueueState = QueueState(jobs: seq<Job>, tokens: real, refillArmed: bool, blocked: bool)

  function EmptyQueue(o: QueueOptions): QueueState {
    QueueState([], o.bucketSize, o.bucketSize > 0.0, false)
  }

  // ---------------------------------------------------------------- order of the jobs

  ghost predicate Sorted(q: seq<Job>) {
    forall i, j :: 0 <= i < j < |q| ==> q[i].priority >= q[j].priority
  }

  /** A handler's priority never changes, so equal uuids mean equal priorities. */
  ghost predicate Consistent(q: seq<Job>) {
    forall x, y :: x in q && y in q && x.uuid == y.uuid ==> x.priority == y.priority
  }

  /** Stable insertion: behind every job of the same or a higher priority. */
  function Insert(q: seq<Job>, job: Job): (r: seq<Job>)
    ensures |r| == |q| + 1
  {
    if q == [] || q[0].priority < job.priority then [job] + q else [q[0]] + Insert(q[1..], job)
  }

  /** Index of the first job of priority at most `p`, or |q|. */
  function FirstAtMost(q: seq<Job>, p: real): (i: nat)
    ensures i <= |q|
    ensures forall k :: 0 <= k < i ==> q[k].priority > p
    ensures i < |q| ==> q[i].priority <= p
  {
    if q == [] || q[0].priority <= p then 0 else 1 + FirstAtMost(q[1..], p)
  }

  /** Index of the first job with that uuid, or |q|. */
  function FirstWithUuid(q: seq<Job>, uuid: nat): (i: nat)
    ensures i <= |q|
    ensures forall k :: 0 <= k < i ==> q[k].uuid != uuid
    ensures i < |q| ==> q[i].uuid == uuid
  {
    if q == [] || q[0].uuid == uuid then 0 else 1 + FirstWithUuid(q[1..], uuid)
  }

  function Without(q: seq<Job>, i: nat): (r: seq<Job>)
    requires i < |q|
    ensures |r| == |q| - 1
    ensures forall x :: x in r ==> x in q
  {
    q[..i] + q[i+1..]
  }

  lemma WithoutKeepsOrder(q: seq<Job>, i: nat)
    requires i < |q|
    ensures Sorted(q) ==> Sorted(Without(q, i))
    ensures Consistent(q) ==> Consistent(Without(q, i))
  {
  }

  /** In a sorted queue the insertion point is any index that splits it into not lower | lower. */
  lemma {:induction false} InsertAt(q: seq<Job>, job: Job, i: nat)
    requires i <= |q|
    requires forall k :: 0 <= k < i ==> q[k].priority >= job.priority
    requires i < |q| ==> q[i].priority < job.priority
    ensures Insert(q, job) == q[..i] + [job] + q[i..]
  {
    if i == 0 {
      assert q[..0] + [job] + q[0..] == [job] + q;
    } else {
      var r := q[1..];
      InsertAt(r, job, i - 1);
      assert r[..i-1] == q[1..i] && r[i-1..] == q[i..];
      assert [q[0]] + (q[1..i] + [job] + q[i..]) == q[..i] + [job] + q[i..];
    }
  }

  lemma {:induction false} InsertPermutes(q: seq<Job>, job: Job)
    ensures multiset(Insert(q, job)) == multiset(q) + multiset{job}
  {
    if q != [] && q[0].priority >= job.priority {
      InsertPermutes(q[1..], job);
      assert q == [q[0]] + q[1..];
    }
  }

  /** The queue after an insertion at index `i`, read index by index. */
  ghost predicate InsertedAt(q: seq<Job>, job: Job, i: nat, r: seq<Job>) {
    && |r| == |q| + 1 && i <= |q| && r[i] == job
    && (forall k :: 0 <= k < i ==> r[k] == q[k])
    && (forall k :: i < k < |r| ==> r[k] == q[k-1])
  }

  lemma InsertIndexed(q: seq<Job>, job: Job)
    ensures InsertedAt(q, job, InsertionIndex(q, job), Insert(q, job))
  {
  }

  /** Stable insertion keeps the queue sorted. */
  lemma InsertKeepsSorted(q: seq<Job>, job: Job)
    requires Sorted(q)
    ensures Sorted(Insert(q, job))
  {
    InsertIndexed(q, job);
    var i := InsertionIndex(q, job);
    assert forall k :: i <= k < |q| ==> q[k].priority < job.priority;
  }

  lemma InsertMembers(q: seq<Job>, job: Job)
    ensures forall x :: x in Insert(q, job) <==> x in q || x == job
  {
  }

  lemma LastIsLowest(q: seq<Job>)
    requires Sorted(q)
    ensures forall k :: 0 <= k < |q| ==> q[k].priority >= q[|q|-1].priority
  {
  }

  /** Placing a job at the split point of what is left of a queue. */
  lemma PlaceAt(q: seq<Job>, all: seq<Job>, job: Job, i: nat)
    requires Sorted(q) && Consistent(all + [job]) && forall x :: x in q ==> x in all
    requires i <= |q|
    requires forall k :: 0 <= k < i ==> q[k].priority >= job.priority
    requires i < |q| ==> q[i].priority < job.priority
    ensures Insert(q, job) == q[..i] + [job] + q[i..]
    ensures Sorted(Insert(q, job)) && Consistent(Insert(q, job))
  {
    InsertAt(q, job, i);
    InsertKeepsSorted(q, job);
    InsertMembers(q, job);
    assert forall x :: x in Insert(q, job) ==> x in all + [job];
  }

  function InsertionIndex(q: seq<Job>, job: Job): (i: nat)
    ensures i <= |q|
    ensures forall k :: 0 <= k < i ==> q[k].priority >= job.priority
    ensures i < |q| ==> q[i].priority < job.priority
  {
    if q == [] || q[0].priority < job.priority then 0 else 1 + InsertionIndex(q[1..], job)
  }

  // ---------------------------------------------------------------- operations

  predicate HasRoom(o: QueueOptions, s: QueueState) { o.highWater.Above(|s.jobs|) }

  /** `remove`: the first job with that uuid, if any. */
  function Remove(s: QueueState, uuid: nat): (QueueState, Option<Job>) {
    var i := FirstWithUuid(s.jobs, uuid);
    if i == |s.jobs| then (s, None) else (s.(jobs := Without(s.jobs, i)), Some(s.jobs[i]))
  }

  /** `dropByPriory`: drops the first job at or below a threshold: the front's own priority
      when no priority is given, one less than the given priority otherwise. */
  function Drop(s: QueueState, priority: Option<real>): (QueueState, Option<Job>) {
    if s.jobs == [] then (s, None)
    else
      var threshold := if priority.None? then s.jobs[0].priority else priority.value - 1.0;
      var i := FirstAtMost(s.jobs, threshold);
      if i == |s.jobs| then (s, None) else (s.(jobs := Without(s.jobs, i)), Some(s.jobs[i]))
  }

  function Clear(o: QueueOptions, s: QueueState): QueueState {
    if s.refillArmed then s.(jobs := [], refillArmed := false, tokens := o.bucketSize) else s.(jobs := [])
  }

  /** `handleQueueStrategy`: makes room for the job or refuses it. */
  function MakeRoom(o: QueueOptions, s: QueueState, job: Job): (QueueState, bool) {
    if s.blocked then (s, false)
    else if HasRoom(o, s) then (s, true)
    else match o.strategy
      case Leak => (Drop(s, None).0, true)
      case OverflowPriority => var (s', dropped) := Drop(s, Some(job.priority)); (s', dropped.Some?)
      case Block => (Clear(o, s).(blocked := true), false)
      case Overflow => (s, false)
  }

  datatype EnqueueResult = EnqueueResult(state: QueueState, accepted: bool, seed: bool)

  function Enqueue(o: QueueOptions, s: QueueState, job: Job): EnqueueResult {
    var (s', accepted) := MakeRoom(o, s, job);
    if !accepted then EnqueueResult(s', false, false)
    else
      var jobs := Insert(s'.jobs, job);
      EnqueueResult(s'.(jobs := jobs), true, |jobs| == 1)
  }

  /** `dequeue` reads the weight of the front job, so it needs one. */
  function Dequeue(o: QueueOptions, s: QueueState): (QueueState, Option<Job>)
    requires s.jobs != []
  {
    var w := s.jobs[0].weight;
    if o.bucketSize <= 0.0 then (s.(jobs := s.jobs[1..]), Some(s.jobs[0]))
    else if s.tokens < w then (s, None)
    else (s.(jobs := s.jobs[1..], tokens := s.tokens - w), Some(s.jobs[0]))
  }

  /** The refill timer fires; the flag says whether `refill` is emitted. The timer re-arms itself. */
  function Refill(o: QueueOptions, s: QueueState): (QueueState, bool) {
    if s.tokens < o.bucketSize then (s.(tokens := Min(s.tokens + o.tokensPerInterval, o.bucketSize)), true)
    else (s, false)
  }

  function Unblock(s: QueueState): QueueState { s.(blocked := false) }
}
