/** What the queue keeps over every sequence of operations and timer ticks
    (packages/api/tasks/src/Limiter/Queue.ts). */
module QueueRuns {
  import opened Wrappers
  import opened QueueSpec

  datatype Event =
    | EnqueueJob(job: Job)
    | DequeueJob
    | DropJob(priority: Option<real>)
    | RemoveJob(uuid: nat)
    | ClearQueue
    | RefillTick
    | PenaltyEnds

  /** A queue together with every job it ever accepted, in order of arrival. */
  datatype Tracked = Tracked(q: QueueState, log: seq<Job>)

  function Start(o: QueueOptions): Tracked { Tracked(EmptyQueue(o), []) }

  ghost predicate Enabled(t: Tracked, e: Event) {
    match e
    case EnqueueJob(job) => FirstWithUuid(t.log, job.uuid) == |t.log|  // handlers are enqueued once
    case DequeueJob => t.q.jobs != []
    case RefillTick => t.q.refillArmed
    case PenaltyEnds => t.q.blocked
    case _ => true
  }

  function Step(o: QueueOptions, t: Tracked, e: Event): Tracked
    requires Enabled(t, e)
  {
    match e
    case EnqueueJob(job) =>
      var r := Enqueue(o, t.q, job);
      Tracked(r.state, if r.accepted then t.log + [job] else t.log)
    case DequeueJob => t.(q := Dequeue(o, t.q).0)
    case DropJob(priority) => t.(q := Drop(t.q, priority).0)
    case RemoveJob(uuid) => t.(q := Remove(t.q, uuid).0)
    case ClearQueue => t.(q := Clear(o, t.q))
    case RefillTick => t.(q := Refill(o, t.q).0)
    case PenaltyEnds => t.(q := Unblock(t.q))
  }

  ghost predicate Legal(o: QueueOptions, t: Tracked, es: seq<Event>)
    decreases |es|
  {
    es == [] || (Enabled(t, es[0]) && Legal(o, Step(o, t, es[0]), es[1..]))
  }

  function Exec(o: QueueOptions, t: Tracked, es: seq<Event>): Tracked
    requires Legal(o, t, es)
    decreases |es|
  {
    if es == [] then t else Exec(o, Step(o, t, es[0]), es[1..])
  }

  // ---------------------------------------------------------------- the invariant

  function Arrival(log: seq<Job>, job: Job): nat { FirstWithUuid(log, job.uuid) }

  /** `a` is to be served before `b`: higher priority, or the same and longer waiting. */
  ghost predicate Before(log: seq<Job>, a: Job, b: Job) {
    a.priority > b.priority || (a.priority == b.priority && Arrival(log, a) < Arrival(log, b))
  }

  ghost predicate Ordered(q: seq<Job>, log: seq<Job>) {
    && (forall x :: x in q ==> Arrival(log, x) < |log|)
    && (forall i, j :: 0 <= i < j < |q| ==> Before(log, q[i], q[j]))
  }

  ghost predicate Fits(o: QueueOptions, q: seq<Job>) {
    o.highWater.AtMost? ==> |q| as real < o.highWater.bound + 1.0
  }

  ghost predicate Good(o: QueueOptions, t: Tracked) {
    && Ordered(t.q.jobs, t.log)
    && Fits(o, t.q.jobs)
    && (t.q.blocked ==> t.q.jobs == [])
  }

  lemma ArrivalStable(log: seq<Job>, job: Job, x: Job)
    requires Arrival(log, x) < |log|
    ensures Arrival(log + [job], x) == Arrival(log, x)
  {
    assert forall k :: 0 <= k < |log| ==> (log + [job])[k] == log[k];
  }

  lemma OrderedWithout(q: seq<Job>, log: seq<Job>, i: nat)
    requires i < |q| && Ordered(q, log)
    ensures Ordered(Without(q, i), log)
  {
  }

  lemma OrderedInsert(q: seq<Job>, log: seq<Job>, job: Job)
    requires Ordered(q, log) && Arrival(log, job) == |log|
    ensures Ordered(Insert(q, job), log + [job])
  {
    var log' := log + [job];
    var r, m := Insert(q, job), InsertionIndex(q, job);
    InsertIndexed(q, job);
    assert Arrival(log', job) == |log| by {
      assert log'[|log|] == job;
      assert forall k :: 0 <= k < |log| ==> log'[k] == log[k];
    }
    forall x | x in q ensures Arrival(log', x) == Arrival(log, x) < |log| {
      ArrivalStable(log, job, x);
    }
    forall i, j | 0 <= i < j < |r| ensures Before(log', r[i], r[j]) {
      if j == m {
        assert r[i] == q[i];
      } else if i == m {
        assert r[j] == q[j-1] && j - 1 >= m;
        if j - 1 > m { assert Before(log, q[m], q[j-1]); }
      } else {
        var a, b := if i < m then i else i - 1, if j < m then j else j - 1;
        assert r[i] == q[a] && r[j] == q[b] && a < b;
        assert Before(log, q[a], q[b]);
      }
    }
    InsertMembers(q, job);
  }

  /** Making room never breaks the order, and what it accepts leaves room for one more job. */
  lemma MakeRoomKeepsGood(o: QueueOptions, t: Tracked, job: Job)
    requires o.Valid() && Good(o, t)
    ensures var (s', accepted) := MakeRoom(o, t.q, job);
            && Good(o, Tracked(s', t.log))
            && (accepted ==> HasRoom(o, s') && !s'.blocked)
  {
    var s := t.q;
    if !s.blocked && !HasRoom(o, s) {
      var threshold := if o.strategy.Leak? && s.jobs != [] then s.jobs[0].priority else job.priority - 1.0;
      var i := FirstAtMost(s.jobs, threshold);
      if i < |s.jobs| {
        OrderedWithout(s.jobs, t.log, i);
      }
    }
  }

  lemma StepKeepsGood(o: QueueOptions, t: Tracked, e: Event)
    requires o.Valid() && Good(o, t) && Enabled(t, e)
    ensures Good(o, Step(o, t, e))
  {
    match e
    case EnqueueJob(job) =>
      MakeRoomKeepsGood(o, t, job);
      var (s', accepted) := MakeRoom(o, t.q, job);
      if accepted { OrderedInsert(s'.jobs, t.log, job); }
    case DequeueJob =>
      assert t.q.jobs[1..] == Without(t.q.jobs, 0);
      OrderedWithout(t.q.jobs, t.log, 0);
    case DropJob(p) =>
      var threshold := if p.Some? then p.value - 1.0 else if t.q.jobs != [] then t.q.jobs[0].priority else 0.0;
      var i := FirstAtMost(t.q.jobs, threshold);
      if i < |t.q.jobs| { OrderedWithout(t.q.jobs, t.log, i); }
    case RemoveJob(uuid) =>
      var i := FirstWithUuid(t.q.jobs, uuid);
      if i < |t.q.jobs| { OrderedWithout(t.q.jobs, t.log, i); }
    case _ =>
  }

  /** Every reachable queue is in service order, within its high water, and empty while blocked. */
  lemma {:induction false} AlwaysGood(o: QueueOptions, t: Tracked, es: seq<Event>)
    requires o.Valid() && Good(o, t) && Legal(o, t, es)
    ensures Good(o, Exec(o, t, es))
    decreases |es|
  {
    if es != [] {
      StepKeepsGood(o, t, es[0]);
      AlwaysGood(o, Step(o, t, es[0]), es[1..]);
    }
  }

  /** Whatever is handed out after any run comes before everything still waiting. */
  lemma DequeueServesInOrder(o: QueueOptions, es: seq<Event>, job: Job)
    requires o.Valid() && Legal(o, Start(o), es)
    requires Exec(o, Start(o), es).q.jobs != []
    requires Dequeue(o, Exec(o, Start(o), es).q).1 == Some(job)
    ensures forall x :: x in Dequeue(o, Exec(o, Start(o), es).q).0.jobs ==>
              Before(Exec(o, Start(o), es).log, job, x)
  {
    AlwaysGood(o, Start(o), es);
    var t := Exec(o, Start(o), es);
    var rest := Dequeue(o, t.q).0.jobs;
    assert job == t.q.jobs[0] && rest == t.q.jobs[1..];
    forall x | x in rest ensures Before(t.log, job, x) {
      var k :| 0 <= k < |rest| && rest[k] == x;
      assert t.q.jobs[k+1] == x;
    }
  }

  /** With a whole-number high water the size never exceeds it, and a blocked queue is empty. */
  lemma SizeBound(o: QueueOptions, es: seq<Event>, n: nat)
    requires o.Valid() && o.highWater == AtMost(n as real) && Legal(o, Start(o), es)
    ensures |Exec(o, Start(o), es).q.jobs| <= n
    ensures Exec(o, Start(o), es).q.blocked ==> Exec(o, Start(o), es).q.jobs == []
  {
    AlwaysGood(o, Start(o), es);
  }

  // ---------------------------------------------------------------- full-queue strategies

  /** No waiting job is less important than `p` by less than one. */
  ghost predicate NoneJustBelow(q: seq<Job>, p: real) {
    forall x :: x in q ==> !(p - 1.0 < x.priority < p)
  }

  /** Removing the job at `i` and inserting another: in place exactly when nobody is just below it. */
  lemma RemoveAndInsert(q: seq<Job>, job: Job, i: nat)
    requires Sorted(q) && i < |q| && q[i].priority <= job.priority - 1.0
    requires forall k :: 0 <= k < i ==> q[k].priority > job.priority - 1.0
    ensures Insert(Without(q, i), job) == q[i := job] <==> NoneJustBelow(q, job.priority)
  {
    hide Insert, NoneJustBelow, Without, Sorted, InsertedAt;
    var p, rest := job.priority, Without(q, i);
    var m := InsertionIndex(rest, job);
    InsertIndexed(rest, job);
    if m < i {
      ElsewhereIsNotInPlace(q, rest, job, i, m);
      SomebodyJustBelow(q, p, m);
    } else {
      NoLaterPlace(q, rest, job, i, m);
      NobodyJustBelow(q, rest, p, i);
      InPlace(q, rest, job, i);
    }
  }

  lemma ElsewhereIsNotInPlace(q: seq<Job>, rest: seq<Job>, job: Job, i: nat, m: nat)
    requires m < i < |q| && rest == Without(q, i) && InsertedAt(rest, job, m, Insert(rest, job))
    requires rest[m].priority < job.priority
    ensures Insert(rest, job) != q[i := job] && q[m] == rest[m]
  {
  }

  lemma NoLaterPlace(q: seq<Job>, rest: seq<Job>, job: Job, i: nat, m: nat)
    requires Sorted(q) && i < |q| && q[i].priority < job.priority && rest == Without(q, i)
    requires i <= m <= |rest| && forall k :: 0 <= k < m ==> rest[k].priority >= job.priority
    ensures m == i
  {
    WithoutIndexed(q, i);
    assert i < |rest| ==> rest[i] == q[i+1];
  }

  lemma WithoutIndexed(q: seq<Job>, i: nat)
    requires i < |q|
    ensures |Without(q, i)| == |q| - 1
    ensures forall k :: 0 <= k < i ==> Without(q, i)[k] == q[k]
    ensures forall k :: i <= k < |q| - 1 ==> Without(q, i)[k] == q[k+1]
  {
  }

  lemma InPlace(q: seq<Job>, rest: seq<Job>, job: Job, i: nat)
    requires i < |q| && rest == Without(q, i) && InsertedAt(rest, job, i, Insert(rest, job))
    ensures Insert(rest, job) == q[i := job]
  {
  }

  lemma SomebodyJustBelow(q: seq<Job>, p: real, m: nat)
    requires m < |q| && p - 1.0 < q[m].priority < p
    ensures !NoneJustBelow(q, p)
  {
  }

  lemma NobodyJustBelow(q: seq<Job>, rest: seq<Job>, p: real, i: nat)
    requires Sorted(q) && i < |q| && q[i].priority <= p - 1.0 && rest == Without(q, i)
    requires forall k :: 0 <= k < i ==> rest[k].priority >= p
    ensures NoneJustBelow(q, p)
  {
    forall x | x in q ensures !(p - 1.0 < x.priority < p) {
      var k :| 0 <= k < |q| && q[k] == x;
      if k < i { assert rest[k] == q[k]; }
    }
  }

  /** `overflow-priority` on a full queue: refused exactly when nobody waits at `priority - 1` or below;
      otherwise the first such job goes, and the new one takes its very place exactly when no waiting
      job lies strictly between `priority - 1` and `priority`. */
  lemma OverflowPriorityReplaces(o: QueueOptions, s: QueueState, job: Job)
    requires o.Valid() && o.strategy.OverflowPriority? && Sorted(s.jobs) && !s.blocked && !HasRoom(o, s)
    ensures var i := FirstAtMost(s.jobs, job.priority - 1.0);
            var r := Enqueue(o, s, job);
            && (r.accepted <==> exists x :: x in s.jobs && x.priority <= job.priority - 1.0)
            && (!r.accepted ==> r.state == s)
            && (r.accepted ==> i < |s.jobs| && |r.state.jobs| == |s.jobs|)
            && (r.accepted ==> (r.state.jobs == s.jobs[i := job] <==> NoneJustBelow(s.jobs, job.priority)))
  {
    hide Sorted, NoneJustBelow, Insert, Without;
    var i := FirstAtMost(s.jobs, job.priority - 1.0);
    if i == |s.jobs| {
      assert forall x :: x in s.jobs ==> x.priority > job.priority - 1.0;
    } else {
      assert s.jobs[i] in s.jobs;
      RemoveAndInsert(s.jobs, job, i);
    }
  }

  predicate Whole(x: real) { x.Floor as real == x }

  lemma WholeGap(a: real, b: real)
    requires Whole(a) && Whole(b)
    ensures a < b <==> a <= b - 1.0
  {
    assert a < b <==> a.Floor < b.Floor;
  }

  /** With whole-number priorities it is in place, and the dropped job is the first strictly less
      important one, so none of equal or higher priority is ever dropped. */
  lemma WholePrioritiesReplaceInPlace(o: QueueOptions, s: QueueState, job: Job)
    requires o.Valid() && o.strategy.OverflowPriority? && Sorted(s.jobs) && !s.blocked && !HasRoom(o, s)
    requires Whole(job.priority) && forall x :: x in s.jobs ==> Whole(x.priority)
    ensures var i := FirstAtMost(s.jobs, job.priority - 1.0);
            var r := Enqueue(o, s, job);
            && (r.accepted <==> exists x :: x in s.jobs && x.priority < job.priority)
            && (r.accepted ==> i < |s.jobs| && r.state.jobs == s.jobs[i := job])
            && (r.accepted ==> s.jobs[i].priority < job.priority)
            && (forall k :: 0 <= k < i ==> s.jobs[k].priority >= job.priority)
  {
    hide Whole, Sorted;
    forall x | x in s.jobs ensures x.priority < job.priority <==> x.priority <= job.priority - 1.0 {
      WholeGap(x.priority, job.priority);
    }
    OverflowPriorityReplaces(o, s, job);
    assert forall k :: 0 <= k < |s.jobs| ==> s.jobs[k] in s.jobs;
  }

  /** `leak` on a full queue drops the front and always accepts. */
  lemma LeakDropsTheFront(o: QueueOptions, s: QueueState, job: Job)
    requires o.Valid() && o.strategy.Leak? && !s.blocked && !HasRoom(o, s)
    ensures s.jobs != [] && Drop(s, None).1 == Some(s.jobs[0])
    ensures Enqueue(o, s, job).accepted && Enqueue(o, s, job).state.jobs == Insert(s.jobs[1..], job)
  {
    assert FirstAtMost(s.jobs, s.jobs[0].priority) == 0;
    assert Without(s.jobs, 0) == s.jobs[1..];
  }

  /** The job that `leak` drops by its documentation: of those with the lowest priority the oldest. */
  ghost predicate OldestOfTheLowest(t: Tracked, job: Job) {
    job in t.q.jobs && forall x :: x in t.q.jobs ==>
      job.priority < x.priority || (job.priority == x.priority && Arrival(t.log, job) <= Arrival(t.log, x))
  }

  /** After every run: what it drops is that job exactly when all waiting jobs have the same priority. */
  lemma LeakDropsTheLowestIffAllEqual(o: QueueOptions, es: seq<Event>)
    requires o.Valid() && o.strategy.Leak? && Legal(o, Start(o), es) && !HasRoom(o, Exec(o, Start(o), es).q)
    ensures var t := Exec(o, Start(o), es);
            && t.q.jobs != [] && Drop(t.q, None).1.Some?
            && (OldestOfTheLowest(t, Drop(t.q, None).1.value)
                <==> t.q.jobs[0].priority == t.q.jobs[|t.q.jobs| - 1].priority)
  {
    AlwaysGood(o, Start(o), es);
    var t := Exec(o, Start(o), es);
    LeakDropsTheFront(o, t.q.(blocked := false), Job(0, 0.0, 0.0));
    FrontIsLowestIffAllEqual(t);
  }

  lemma FrontIsLowestIffAllEqual(t: Tracked)
    requires t.q.jobs != [] && Ordered(t.q.jobs, t.log)
    ensures OldestOfTheLowest(t, t.q.jobs[0]) <==> t.q.jobs[0].priority == t.q.jobs[|t.q.jobs| - 1].priority
  {
    var q := t.q.jobs;
    assert q[|q| - 1] in q;
    if |q| > 1 { assert Before(t.log, q[0], q[|q| - 1]); }
    forall x | x in q && q[0].priority == q[|q| - 1].priority
      ensures q[0].priority == x.priority && Arrival(t.log, q[0]) <= Arrival(t.log, x)
    {
      var k :| 0 <= k < |q| && q[k] == x;
      if k > 0 { assert Before(t.log, q[0], q[k]); }
      if k < |q| - 1 { assert Before(t.log, q[k], q[|q| - 1]); }
    }
  }

  /** Two priorities are enough to see it: the more important of two waiting jobs goes. */
  lemma LeakDropsTheHighest(o: QueueOptions, low: Job, high: Job)
    requires o.Valid() && o.strategy.Leak? && o.highWater == AtMost(2.0)
    requires low.priority < high.priority && low.uuid != high.uuid
    ensures var es := [EnqueueJob(low), EnqueueJob(high)];
            && Legal(o, Start(o), es) && !HasRoom(o, Exec(o, Start(o), es).q)
            && Drop(Exec(o, Start(o), es).q, None).1 == Some(high)
            && !OldestOfTheLowest(Exec(o, Start(o), es), high)
  {
    var es := [EnqueueJob(low), EnqueueJob(high)];
    var t1 := Step(o, Start(o), EnqueueJob(low));
    assert t1 == Tracked(EmptyQueue(o).(jobs := [low]), [low]);
    var t2 := Step(o, t1, EnqueueJob(high));
    assert t2 == Tracked(EmptyQueue(o).(jobs := [high, low]), [low, high]);
    assert es[1..] == [EnqueueJob(high)] && [EnqueueJob(high)][1..] == [];
    assert Legal(o, t1, [EnqueueJob(high)]) && Exec(o, t1, [EnqueueJob(high)]) == t2;
    assert low in t2.q.jobs;
  }

  /** Removing by uuid takes out the first job that has it, and nothing if none does. */
  lemma RemovesTheFirst(s: QueueState, uuid: nat, i: nat)
    requires i <= |s.jobs| && (forall k :: 0 <= k < i ==> s.jobs[k].uuid != uuid)
    requires i < |s.jobs| ==> s.jobs[i].uuid == uuid
    ensures Remove(s, uuid)
            == if i < |s.jobs| then (s.(jobs := s.jobs[..i] + s.jobs[i+1..]), Some(s.jobs[i])) else (s, None)
  {
    assert i <= FirstWithUuid(s.jobs, uuid) <= i;
  }

  /** A refill adds one interval's tokens, or what is missing, and says so; at a full bucket it does nothing. */
  lemma RefillAddsTokens(o: QueueOptions, s: QueueState)
    requires o.Valid()
    ensures var (s', refilled) := Refill(o, s);
            && (refilled <==> s.tokens < o.bucketSize) && (!refilled ==> s' == s)
            && (refilled ==> s' == s.(tokens := s'.tokens) && s'.tokens <= o.bucketSize
                             && s'.tokens <= s.tokens + o.tokensPerInterval
                             && (s'.tokens == o.bucketSize || s'.tokens == s.tokens + o.tokensPerInterval))
  {
  }

  // ---------------------------------------------------------------- the penalty of a full queue

  /** Under `block` a job that finds the queue full is refused, loses all that wait, and blocks the queue. */
  lemma FullQueueIsBlocked(o: QueueOptions, s: QueueState, job: Job)
    requires o.strategy.Block? && !s.blocked && !HasRoom(o, s)
    ensures var r := Enqueue(o, s, job);
            && !r.accepted && !r.seed && r.state.blocked && r.state.jobs == [] && !r.state.refillArmed
            && r.state.tokens == if s.refillArmed then o.bucketSize else s.tokens
  {
  }

  /** A queue is blocked after a step exactly when the step was refused for a full queue under `block`, or it
      was blocked before and the penalty goes on. */
  lemma BlockedIff(o: QueueOptions, t: Tracked, e: Event)
    requires Enabled(t, e)
    ensures Step(o, t, e).q.blocked
            <==> if t.q.blocked then !e.PenaltyEnds? else e.EnqueueJob? && o.strategy.Block? && !HasRoom(o, t.q)
  {
  }

  /** While the penalty lasts every job is refused, without a trace, whatever else happens to the queue. */
  lemma {:induction false} PenaltyRefusesAll(o: QueueOptions, t: Tracked, es: seq<Event>, job: Job)
    requires t.q.blocked && t.q.jobs == [] && Legal(o, t, es) && PenaltyEnds !in es
    ensures var t' := Exec(o, t, es);
            && t'.q.blocked && t'.q.jobs == [] && t'.log == t.log
            && Enqueue(o, t'.q, job) == EnqueueResult(t'.q, false, false)
    decreases |es|
  {
    hide FirstWithUuid;
    if es != [] {
      BlockedIff(o, t, es[0]);
      assert es[0] in es && PenaltyEnds !in es[1..];
      NothingEntersABlockedQueue(o, t, es[0]);
      PenaltyRefusesAll(o, Step(o, t, es[0]), es[1..], job);
    }
  }

  lemma NothingEntersABlockedQueue(o: QueueOptions, t: Tracked, e: Event)
    requires t.q.blocked && t.q.jobs == [] && Enabled(t, e)
    ensures Step(o, t, e).q.jobs == [] && Step(o, t, e).log == t.log
  {
  }

  /** The whole penalty, from any reachable moment at which a job finds the queue full: that job and every
      later one is refused until the penalty ends, and the first one after it is accepted and alone. */
  lemma PenaltyLastsUntilItEnds(
    o: QueueOptions, es: seq<Event>, full: Job, during: seq<Event>, refused: Job, next: Job)
    requires o.Valid() && o.strategy.Block? && Legal(o, Start(o), es)
    requires var t := Exec(o, Start(o), es); Enabled(t, EnqueueJob(full)) && !t.q.blocked && !HasRoom(o, t.q)
    requires Legal(o, Step(o, Exec(o, Start(o), es), EnqueueJob(full)), during) && PenaltyEnds !in during
    ensures var t := Exec(o, Step(o, Exec(o, Start(o), es), EnqueueJob(full)), during);
            && Enqueue(o, t.q, refused) == EnqueueResult(t.q, false, false)
            && Enabled(t, PenaltyEnds)
            && Enqueue(o, Step(o, t, PenaltyEnds).q, next)
               == EnqueueResult(t.q.(jobs := [next], blocked := false), true, true)
  {
    var t := Exec(o, Start(o), es);
    FullQueueIsBlocked(o, t.q, full);
    PenaltyRefusesAll(o, Step(o, t, EnqueueJob(full)), during, refused);
  }

  // ---------------------------------------------------------------- token bucket

  /** Weight handed out by one step. */
  function Drained(o: QueueOptions, t: Tracked, e: Event): real
    requires Enabled(t, e)
  {
    if e.DequeueJob? && Dequeue(o, t.q).1.Some? then t.q.jobs[0].weight else 0.0
  }

  function TotalDrained(o: QueueOptions, t: Tracked, es: seq<Event>): real
    requires Legal(o, t, es)
    decreases |es|
  {
    if es == [] then 0.0 else Drained(o, t, es[0]) + TotalDrained(o, Step(o, t, es[0]), es[1..])
  }

  function Ticks(es: seq<Event>): nat {
    if es == [] then 0 else (if es[0].RefillTick? then 1 else 0) + Ticks(es[1..])
  }

  function Times(n: nat, x: real): real { if n == 0 then 0.0 else x + Times(n - 1, x) }

  lemma {:induction false} TimesIsProduct(n: nat, x: real)
    ensures Times(n, x) == n as real * x
  {
    if n > 0 {
      TimesIsProduct(n - 1, x);
      var m, k := n as real, (n - 1) as real;
      assert m == k + 1.0 && (k + 1.0) * x == k * x + x;
    }
  }

  /** What clearing may still give back: one bucket, as long as the refill timer lives. */
  function Reserve(o: QueueOptions, s: QueueState): real { if s.refillArmed then o.bucketSize else 0.0 }

  ghost predicate NonNegativeWeights(q: seq<Job>) { forall x :: x in q ==> x.weight >= 0.0 }

  ghost predicate BucketGood(o: QueueOptions, s: QueueState) {
    0.0 <= s.tokens <= o.bucketSize && NonNegativeWeights(s.jobs)
  }

  ghost predicate WeightsAtLeast(es: seq<Event>, low: real) {
    forall e :: e in es && e.EnqueueJob? ==> e.job.weight >= low
  }

  lemma StepKeepsBucket(o: QueueOptions, t: Tracked, e: Event)
    requires o.Valid() && BucketGood(o, t.q) && Enabled(t, e)
    requires e.EnqueueJob? ==> e.job.weight >= 0.0
    ensures BucketGood(o, Step(o, t, e).q)
    ensures o.bucketSize > 0.0 ==>
              Drained(o, t, e) + Step(o, t, e).q.tokens + Reserve(o, Step(o, t, e).q)
              <= t.q.tokens + Reserve(o, t.q) + if e.RefillTick? then o.tokensPerInterval else 0.0
    ensures Step(o, t, e).q.refillArmed ==> t.q.refillArmed
  {
    hide Without, Insert, FirstAtMost, FirstWithUuid, NonNegativeWeights;
    WeightsStayGiven(o, t, e);
  }

  lemma WeightsStayGiven(o: QueueOptions, t: Tracked, e: Event)
    requires NonNegativeWeights(t.q.jobs) && Enabled(t, e) && (e.EnqueueJob? ==> e.job.weight >= 0.0)
    ensures NonNegativeWeights(Step(o, t, e).q.jobs)
    ensures t.q.jobs != [] ==> t.q.jobs[0].weight >= 0.0
  {
    hide Without, Insert, FirstAtMost, FirstWithUuid;
    if e.EnqueueJob? { InsertMembers(MakeRoom(o, t.q, e.job).0.jobs, e.job); }
  }

  /** The level stays within the bucket, and every run hands out at most the level it started with,
      one interval's tokens per refill tick, and one bucket more if clearing disarmed the timer. */
  lemma {:induction false} TokenBound(o: QueueOptions, t: Tracked, es: seq<Event>)
    requires o.Valid() && o.bucketSize > 0.0 && BucketGood(o, t.q) && Legal(o, t, es) && WeightsAtLeast(es, 0.0)
    ensures BucketGood(o, Exec(o, t, es).q)
    ensures TotalDrained(o, t, es) + Exec(o, t, es).q.tokens + Reserve(o, Exec(o, t, es).q)
            <= t.q.tokens + Reserve(o, t.q) + Times(Ticks(es), o.tokensPerInterval)
    ensures Exec(o, t, es).q.refillArmed ==> t.q.refillArmed
    decreases |es|
  {
    hide BucketGood, Step, Reserve, Drained;
    if es != [] {
      StepKeepsBucket(o, t, es[0]);
      TokenBound(o, Step(o, t, es[0]), es[1..]);
    }
  }

  /** A stretch in which the timer is never disarmed: at most a full bucket plus the ticks. */
  lemma StretchBound(o: QueueOptions, t: Tracked, es: seq<Event>)
    requires o.Valid() && o.bucketSize > 0.0 && BucketGood(o, t.q) && Legal(o, t, es) && WeightsAtLeast(es, 0.0)
    requires Exec(o, t, es).q.refillArmed == t.q.refillArmed
    ensures TotalDrained(o, t, es) <= o.bucketSize + Times(Ticks(es), o.tokensPerInterval)
  {
    TokenBound(o, t, es);
  }

  /** A whole run, cleared as often as one likes: at most one bucket more. */
  lemma WholeRunBound(o: QueueOptions, es: seq<Event>)
    requires o.Valid() && o.bucketSize > 0.0 && Legal(o, Start(o), es) && WeightsAtLeast(es, 0.0)
    ensures TotalDrained(o, Start(o), es) <= 2.0 * o.bucketSize + Times(Ticks(es), o.tokensPerInterval)
  {
    TokenBound(o, Start(o), es);
  }

  /** Weights are not validated: with a negative one the bucket overflows. */
  lemma NegativeWeightOverfills(o: QueueOptions, job: Job)
    requires o.Valid() && o.bucketSize > 0.0 && job.weight < 0.0
    ensures Legal(o, Start(o), [EnqueueJob(job), DequeueJob])
    ensures Exec(o, Start(o), [EnqueueJob(job), DequeueJob]).q.tokens > o.bucketSize
  {
    var t1 := Step(o, Start(o), EnqueueJob(job));
    assert t1.q.jobs == [job];
    var es := [EnqueueJob(job), DequeueJob];
    assert es[1..] == [DequeueJob] && [DequeueJob][1..] == [];
    assert Legal(o, t1, [DequeueJob]);
    assert Exec(o, t1, [DequeueJob]) == Step(o, t1, DequeueJob);
  }

  /** So with weights from `low` on, the level stays within the bucket in every run exactly when `low` is
      not negative. */
  lemma LevelStaysIffWeightsNonNegative(o: QueueOptions, low: real)
    requires o.Valid() && o.bucketSize > 0.0
    ensures (forall es :: Legal(o, Start(o), es) && WeightsAtLeast(es, low) ==>
               0.0 <= Exec(o, Start(o), es).q.tokens <= o.bucketSize)
            <==> low >= 0.0
  {
    if low >= 0.0 {
      forall es | Legal(o, Start(o), es) && WeightsAtLeast(es, low)
        ensures 0.0 <= Exec(o, Start(o), es).q.tokens <= o.bucketSize
      {
        assert WeightsAtLeast(es, 0.0);
        TokenBound(o, Start(o), es);
      }
    } else {
      NegativeWeightOverfills(o, Job(0, 0.0, low));
      assert WeightsAtLeast([EnqueueJob(Job(0, 0.0, low)), DequeueJob], low);
    }
  }
}
