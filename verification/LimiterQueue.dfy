/** Underneath every run of a limiter its queue makes a run of its own, so what the queue keeps holds inside
    the limiter too. */
module LimiterQueue {
  import opened Wrappers
  import opened QueueSpec
  import opened LimiterSpec
  import opened LimiterTurns
  import QR = QueueRuns

  /** What an event asks of the queue, besides the jobs the loop takes out. */
  function Command(e: Event): seq<QR.Event> {
    match e
    case ScheduleJob(job) => [QR.EnqueueJob(job)]
    case Tick => [QR.RefillTick]
    case PenaltyOver => [QR.PenaltyEnds]
    case ClearQueue => [QR.ClearQueue]
    case _ => []
  }

  function Commands(es: seq<Event>): seq<QR.Event> {
    if es == [] then [] else Command(es[0]) + Commands(es[1..])
  }

  function WithoutDequeues(qs: seq<QR.Event>): seq<QR.Event> {
    if qs == [] then [] else (if qs[0].DequeueJob? then [] else [qs[0]]) + WithoutDequeues(qs[1..])
  }

  /** No job is scheduled twice, nor one whose uuid is in use. */
  ghost predicate ScheduledOnce(es: seq<Event>, used: set<nat>) {
    es == []
    || match es[0]
       case ScheduleJob(job) => job.uuid !in used && ScheduledOnce(es[1..], used + {job.uuid})
       case _ => ScheduledOnce(es[1..], used)
  }

  ghost predicate Logged(t: QR.Tracked, used: set<nat>) { forall x :: x in t.log ==> x.uuid in used }

  // ---------------------------------------------------------------- joining runs of the queue

  lemma {:induction false} Joined(o: QueueOptions, t: QR.Tracked, a: seq<QR.Event>, b: seq<QR.Event>)
    requires QR.Legal(o, t, a) && QR.Legal(o, QR.Exec(o, t, a), b)
    ensures QR.Legal(o, t, a + b) && QR.Exec(o, t, a + b) == QR.Exec(o, QR.Exec(o, t, a), b)
    ensures WithoutDequeues(a + b) == WithoutDequeues(a) + WithoutDequeues(b)
    decreases |a|
  {
    hide QR.Step, QR.Enabled, WithoutDequeues;
    CommandsJoin(a, b);
    if a == [] {
      assert a + b == b;
    } else {
      Joined(o, QR.Step(o, t, a[0]), a[1..], b);
      assert (a + b)[1..] == a[1..] + b;
    }
  }

  lemma {:induction false} CommandsJoin(a: seq<QR.Event>, b: seq<QR.Event>)
    ensures WithoutDequeues(a + b) == WithoutDequeues(a) + WithoutDequeues(b)
  {
    if a == [] {
      assert a + b == b;
    } else {
      CommandsJoin(a[1..], b);
      assert (a + b)[1..] == a[1..] + b;
    }
  }

  lemma OneEvent(o: QueueOptions, t: QR.Tracked, e: QR.Event)
    requires QR.Enabled(t, e)
    ensures QR.Legal(o, t, [e]) && QR.Exec(o, t, [e]) == QR.Step(o, t, e)
    ensures WithoutDequeues([e]) == if e.DequeueJob? then [] else [e]
  {
    assert [e][1..] == [];
  }

  // ---------------------------------------------------------------- one step of the limiter

  /** A turn of the loop takes jobs from the front, and does nothing else to the queue. */
  lemma {:induction false} TurnDequeues(o: LimiterOptions, s: LimiterState, fates: seq<bool>, t: QR.Tracked)
    returns (qs: seq<QR.Event>)
    requires t.q == s.queue
    ensures QR.Legal(o.queue, t, qs) && QR.Exec(o.queue, t, qs) == t.(q := NextJob(o, s, fates).queue)
    ensures WithoutDequeues(qs) == []
    decreases |s.queue.jobs|
  {
    hide Dequeue, QR.Legal, QR.Exec, WithoutDequeues, Finish;
    var (s1, job) := Take(o, s);
    if job.None? {
      qs := [];
      NoEvents(o.queue, t);
    } else {
      var refused := fates != [] && fates[0];
      var s2 := if refused then Finish(s1, job.value) else s1;
      var s3 := Park(s2, After(o, s1), job.value);
      TakesIff(o, s);
      QueueIsKept(s1, refused, After(o, s1), job.value);
      OneEvent(o.queue, t, QR.DequeueJob);
      qs := [QR.DequeueJob];
      if After(o, s1).GoOn? {
        var t' := t.(q := s3.queue);
        var more := TurnDequeues(o, s3, if fates == [] then [] else fates[1..], t');
        Joined(o.queue, t, qs, more);
        qs := qs + more;
      }
    }
  }

  lemma NoEvents(o: QueueOptions, t: QR.Tracked)
    ensures QR.Legal(o, t, []) && QR.Exec(o, t, []) == t && WithoutDequeues([]) == []
  {
  }

  lemma QueueIsKept(s: LimiterState, refused: bool, next: Next, job: Job)
    ensures Park(if refused then Finish(s, job) else s, next, job).queue == s.queue
  {
  }

  lemma NewToTheLog(t: QR.Tracked, used: set<nat>, job: Job)
    requires Logged(t, used) && job.uuid !in used
    ensures QR.Enabled(t, QR.EnqueueJob(job))
  {
    assert forall k :: 0 <= k < |t.log| ==> t.log[k] in t.log;
  }

  lemma CommandIsObeyed(o: LimiterOptions, s: LimiterState, e: Event, t: QR.Tracked)
    requires Enabled(s, e) && t.q == s.queue && |Command(e)| == 1 && QR.Enabled(t, Command(e)[0])
    ensures QR.Step(o.queue, t, Command(e)[0]).q == Step(o, s, e).queue
    ensures forall x :: x in QR.Step(o.queue, t, Command(e)[0]).log ==>
              x in t.log || (e.ScheduleJob? && x == e.job)
  {
    hide Enqueue;
  }

  /** One step of the limiter on its queue: the command, if it is one, and the jobs its loop takes. */
  lemma StepOnQueue(o: LimiterOptions, s: LimiterState, e: Event, t: QR.Tracked, used: set<nat>)
    returns (qs: seq<QR.Event>)
    requires Enabled(s, e) && t.q == s.queue && Logged(t, used)
    requires e.ScheduleJob? ==> e.job.uuid !in used
    ensures QR.Legal(o.queue, t, qs) && QR.Exec(o.queue, t, qs).q == Step(o, s, e).queue
    ensures WithoutDequeues(qs) == Command(e)
    ensures Logged(QR.Exec(o.queue, t, qs), if e.ScheduleJob? then used + {e.job.uuid} else used)
  {
    hide NextJob, QR.Legal, QR.Exec, QR.Step, WithoutDequeues, Schedule, RefillTick;
    match e {
      case ImmediateFires(fates) => qs := TurnDequeues(o, s.(immediates := s.immediates - 1), fates, t);
      case DelayOver(fates) => qs := TurnDequeues(o, s.(delaying := s.delaying - 1, onDelayTime := false), fates, t);
      case StartLimiter(fates) => qs := TurnDequeues(o, s.(state := Starting), fates, t);
      case LoopResumes(job, fates) =>
        if o.delay > 0.0 {
          qs := [];
          NoEvents(o.queue, t);
        } else {
          qs := TurnDequeues(o, s.(awaiting := s.awaiting - multiset{job}), fates, t);
        }
      case JobDone(_) =>
        qs := [];
        NoEvents(o.queue, t);
      case StopLimiter =>
        qs := [];
        NoEvents(o.queue, t);
      case ScheduleJob(job) =>
        NewToTheLog(t, used, job);
        CommandIsObeyed(o, s, e, t);
        OneEvent(o.queue, t, QR.EnqueueJob(job));
        qs := Command(e);
      case _ =>
        CommandIsObeyed(o, s, e, t);
        OneEvent(o.queue, t, Command(e)[0]);
        qs := Command(e);
    }
  }

  // ---------------------------------------------------------------- whole runs

  /** Every run of a limiter is, on its queue, a run of the queue: the same commands in the same order, with
      the loop's removals between them. */
  lemma {:induction false} QueueMakesItsOwnRun(
    o: LimiterOptions, s: LimiterState, es: seq<Event>, t: QR.Tracked, used: set<nat>) returns (qs: seq<QR.Event>)
    requires Legal(o, s, es) && ScheduledOnce(es, used) && t.q == s.queue && Logged(t, used)
    ensures QR.Legal(o.queue, t, qs) && QR.Exec(o.queue, t, qs).q == Exec(o, s, es).queue
    ensures WithoutDequeues(qs) == Commands(es)
    decreases |es|
  {
    hide Step, Enabled, QR.Legal, QR.Exec, WithoutDequeues, Logged, Command;
    if es == [] {
      qs := [];
      NoEvents(o.queue, t);
    } else {
      var first := StepOnQueue(o, s, es[0], t, used);
      var t' := QR.Exec(o.queue, t, first);
      var rest := QueueMakesItsOwnRun(o, Step(o, s, es[0]), es[1..], t',
        if es[0].ScheduleJob? then used + {es[0].job.uuid} else used);
      Joined(o.queue, t, first, rest);
      qs := first + rest;
    }
  }

  /** So after every run of a limiter the job its loop takes next comes before all others: a higher priority,
      or the same and longer waiting. The queue never passes its high water by a whole job, and a blocked one
      holds nothing. */
  lemma LimiterServesInOrder(o: LimiterOptions, es: seq<Event>) returns (qs: seq<QR.Event>)
    requires o.Valid() && Legal(o, Init(o), es) && ScheduledOnce(es, {})
    ensures QR.Legal(o.queue, QR.Start(o.queue), qs) && WithoutDequeues(qs) == Commands(es)
    ensures var (s, log) := (Exec(o, Init(o), es), QR.Exec(o.queue, QR.Start(o.queue), qs).log);
            && (Take(o, s).1.Some? ==>
                  forall x :: x in Take(o, s).0.queue.jobs ==> QR.Before(log, Take(o, s).1.value, x))
            && (o.queue.highWater.AtMost? ==> |s.queue.jobs| as real < o.queue.highWater.bound + 1.0)
            && (s.queue.blocked ==> s.queue.jobs == [])
  {
    hide Take, QR.Exec, QR.Legal, QR.Before, Exec, Legal, WithoutDequeues;
    var s, t := Exec(o, Init(o), es), QR.Start(o.queue);
    qs := QueueMakesItsOwnRun(o, Init(o), es, t, {});
    TakesIff(o, s);
    QR.AlwaysGood(o.queue, t, qs);
    if Take(o, s).1.Some? { FrontIsFirst(s.queue.jobs, QR.Exec(o.queue, t, qs).log); }
  }

  lemma FrontIsFirst(q: seq<Job>, log: seq<Job>)
    requires q != [] && QR.Ordered(q, log)
    ensures forall x :: x in q[1..] ==> QR.Before(log, q[0], x)
  {
    forall x | x in q[1..] ensures QR.Before(log, q[0], x) {
      var k :| 0 <= k < |q[1..]| && q[1..][k] == x;
      assert q[k+1] == x;
    }
  }
}
