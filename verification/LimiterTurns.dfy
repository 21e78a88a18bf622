/** What one turn of the limiter's loop starts, and how the loops and the `delay` option space the turns. */
module LimiterTurns {
  import opened Wrappers
  import opened QueueSpec
  import opened LimiterSpec

  /** The bucket grants the front job. */
  predicate Grants(o: QueueOptions, q: QueueState) {
    q.jobs != [] && (o.bucketSize <= 0.0 || q.tokens >= q.jobs[0].weight)
  }

  /** A job is taken exactly when fewer run than may, one waits, the limiter is not stopped and the bucket
      grants it; it is the front one, and it is counted and paid for. */
  lemma TakesIff(o: LimiterOptions, s: LimiterState)
    ensures var (s', job) := Take(o, s);
            && (job.Some? <==> o.concurrency.Above(s.pending) && s.state != Stopped && Grants(o.queue, s.queue))
            && (job.None? ==> s' == s)
            && (job.Some? ==>
                  && job.value == s.queue.jobs[0] && s'.queue.jobs == s.queue.jobs[1..]
                  && s'.pending == s.pending + 1 && s'.running == s.running + multiset{job.value}
                  && s'.queue.tokens == s.queue.tokens - (if o.queue.bucketSize > 0.0 then job.value.weight else 0.0)
                  && s'.queue.refillArmed == s.queue.refillArmed && s'.queue.blocked == s.queue.blocked
                  && s' == s.(queue := s'.queue, pending := s'.pending, running := s'.running))
  {
  }

  // ---------------------------------------------------------------- a turn with a delay

  /** With a delay a turn starts at most one job. If it starts one, its loop awaits the job when no more may
      run, and otherwise waits for the delay, with the flag set; nothing else is started or queued. */
  lemma DelayedTurnStartsOne(o: LimiterOptions, s: LimiterState, fates: seq<bool>)
    requires o.delay > 0.0
    ensures var s' := NextJob(o, s, fates);
            && (s'.queue.jobs == s.queue.jobs || (s.queue.jobs != [] && s'.queue.jobs == s.queue.jobs[1..]))
            && (s'.queue.jobs == s.queue.jobs <==> Take(o, s).1.None?)
            && (s'.queue.jobs == s.queue.jobs ==> s' == s)
            && s'.immediates == s.immediates && s'.state == s.state
    ensures var s' := NextJob(o, s, fates);
            Take(o, s).1.Some? ==>
              var job := s.queue.jobs[0];
              var refused := fates != [] && fates[0];
              && s'.running == (if refused then s.running else s.running + multiset{job})
              && s'.pending == (if refused then s.pending else s.pending + 1)
              && (if o.concurrency.Above(s.pending + 1)
                  then s'.awaiting == s.awaiting && s'.delaying == s.delaying + 1 && s'.onDelayTime
                  else s'.awaiting == s.awaiting + multiset{job} && s'.delaying == s.delaying
                       && s'.onDelayTime == s.onDelayTime)
  {
    hide Dequeue;
    TakesIff(o, s);
    if Take(o, s).1.Some? { assert |s.queue.jobs[1..]| == |s.queue.jobs| - 1; }
  }

  /** With a delay a resumed loop starts nothing: it waits, with the flag set. */
  lemma ResumedLoopWaits(o: LimiterOptions, s: LimiterState, job: Job, fates: seq<bool>)
    requires o.delay > 0.0 && job in s.awaiting
    ensures var s' := Resume(o, s, job, fates);
            && s'.queue == s.queue && s'.running == s.running && s'.pending == s.pending
            && s'.immediates == s.immediates && s'.state == s.state
            && s'.awaiting == s.awaiting - multiset{job} && s'.delaying == s.delaying + 1 && s'.onDelayTime
  {
  }

  /** Neither a new job nor a refill queues a loop while a delay runs; otherwise the first job of an empty
      queue does, and so does every refill that adds tokens while a job waits or none runs. */
  lemma LoopQueuedIff(o: LimiterOptions, s: LimiterState, job: Job)
    ensures var s' := Schedule(o, s, job).0;
            s'.immediates == s.immediates
              + if !s.onDelayTime && Enqueue(o.queue, s.queue, job).seed then 1 else 0
    ensures var s' := RefillTick(o, s);
            s'.immediates == s.immediates
              + if !s.onDelayTime && s.queue.tokens < o.queue.bucketSize && (s.pending == 0 || s.queue.jobs != [])
                then 1 else 0
  {
  }

  // ---------------------------------------------------------------- a turn without a delay

  /** Those of the jobs a turn started that were not refused on the spot. */
  function Kept(jobs: seq<Job>, fates: seq<bool>): multiset<Job> {
    if jobs == [] then multiset{}
    else (if fates != [] && fates[0] then multiset{} else multiset{jobs[0]})
         + Kept(jobs[1..], if fates == [] then [] else fates[1..])
  }

  function Weight(jobs: seq<Job>): real { if jobs == [] then 0.0 else jobs[0].weight + Weight(jobs[1..]) }

  lemma OneMoreJob(jobs: seq<Job>, n: nat, fates: seq<bool>)
    requires n < |jobs|
    ensures Weight(jobs[..n+1]) == jobs[0].weight + Weight(jobs[1..][..n])
    ensures Kept(jobs[..n+1], fates)
            == (if fates != [] && fates[0] then multiset{} else multiset{jobs[0]})
               + Kept(jobs[1..][..n], if fates == [] then [] else fates[1..])
    ensures jobs[n+1..] == jobs[1..][n..]
    ensures jobs[1..][..0] == [] && Weight([]) == 0.0 && Kept([], fates) == multiset{}
  {
    assert jobs[..n+1][1..] == jobs[1..][..n];
  }

  lemma OneJob(jobs: seq<Job>, fates: seq<bool>)
    requires jobs != []
    ensures Weight(jobs[..1]) == jobs[0].weight
    ensures Kept(jobs[..1], fates) == if fates != [] && fates[0] then multiset{} else multiset{jobs[0]}
  {
    hide Kept, Weight;
    OneMoreJob(jobs, 0, fates);
    OneMoreJob(jobs, 0, if fates == [] then [] else fates[1..]);
  }

  /** From `s` to `s'` the first `n` jobs were started and nothing else changed but where the loop is. */
  ghost predicate Started(o: LimiterOptions, s: LimiterState, s': LimiterState, n: nat, fates: seq<bool>) {
    && n <= |s.queue.jobs|
    && s'.queue.jobs == s.queue.jobs[n..]
    && s'.queue.tokens == s.queue.tokens - (if o.queue.bucketSize > 0.0 then Weight(s.queue.jobs[..n]) else 0.0)
    && s'.running == s.running + Kept(s.queue.jobs[..n], fates)
    && s'.pending == s.pending + |Kept(s.queue.jobs[..n], fates)|
    && s'.delaying == s.delaying && s'.onDelayTime == s.onDelayTime && s'.immediates == s.immediates
    && s'.state == s.state
  }

  /** A job that was run and a loop that went on or parked on it. */
  lemma RanAndParked(s: LimiterState, refused: bool, next: Next, job: Job)
    requires !next.WaitDelay?
    ensures var s' := Park(if refused then Finish(s, job) else s, next, job);
            && s'.queue == s.queue && s'.delaying == s.delaying && s'.onDelayTime == s.onDelayTime
            && s'.immediates == s.immediates && s'.state == s.state
            && s'.running == (if refused then s.running - multiset{job} else s.running)
            && s'.pending == (if refused then s.pending - 1 else s.pending)
            && s'.awaiting == if next.GoOn? then s.awaiting else s.awaiting + multiset{job}
  {
  }

  /** The first job is out of the queue and paid for, and runs unless it was refused. */
  ghost predicate OneRan(o: LimiterOptions, s: LimiterState, s': LimiterState, refused: bool) {
    && s.queue.jobs != [] && s'.queue.jobs == s.queue.jobs[1..]
    && s'.queue.tokens == s.queue.tokens - (if o.queue.bucketSize > 0.0 then s.queue.jobs[0].weight else 0.0)
    && s'.running == (if refused then s.running else s.running + multiset{s.queue.jobs[0]})
    && s'.pending == (if refused then s.pending else s.pending + 1)
    && s'.delaying == s.delaying && s'.onDelayTime == s.onDelayTime && s'.immediates == s.immediates
    && s'.state == s.state
  }

  lemma OneRanIsStarted(o: LimiterOptions, s: LimiterState, s': LimiterState, fates: seq<bool>)
    requires OneRan(o, s, s', fates != [] && fates[0])
    ensures Started(o, s, s', 1, fates)
  {
    hide Kept, Weight;
    OneJob(s.queue.jobs, fates);
  }

  lemma FirstRan(o: LimiterOptions, s: LimiterState, refused: bool)
    requires o.delay <= 0.0 && Take(o, s).1.Some?
    ensures var (s1, job) := Take(o, s);
            var s3 := Park(if refused then Finish(s1, job.value) else s1, After(o, s1), job.value);
            && OneRan(o, s, s3, refused)
            && s3.awaiting == (if After(o, s1).GoOn? then s.awaiting else s.awaiting + multiset{s.queue.jobs[0]})
  {
    hide Take, AtCapacity, Park, Finish;
    TakesIff(o, s);
    var (s1, job) := Take(o, s);
    RanAndParked(s1, refused, After(o, s1), job.value);
    assert s.running + multiset{job.value} - multiset{job.value} == s.running;
  }

  lemma StartedAddsUp(
    o: LimiterOptions, s: LimiterState, t: LimiterState, s': LimiterState, n: nat, fates: seq<bool>)
    requires s.queue.jobs != [] && Started(o, s, t, 1, fates)
    requires Started(o, t, s', n, if fates == [] then [] else fates[1..])
    ensures Started(o, s, s', n + 1, fates)
  {
    hide Kept, Weight;
    OneJob(s.queue.jobs, fates);
    OneMoreJob(s.queue.jobs, n, fates);
  }

  /** Without a delay a turn starts jobs from the front until it may start no more, or until the one it
      started fills the limiter, and then its loop awaits that job. */
  lemma {:induction false} WholeTurn(o: LimiterOptions, s: LimiterState, fates: seq<bool>) returns (n: nat)
    requires o.delay <= 0.0
    ensures var s' := NextJob(o, s, fates);
            && n <= |s.queue.jobs| && Started(o, s, s', n, fates)
            && if s'.awaiting == s.awaiting then Take(o, s').1.None?
               else n > 0 && s'.awaiting == s.awaiting + multiset{s.queue.jobs[n-1]}
    decreases |s.queue.jobs|
  {
    hide Take, Started, Park, Finish, OneRan;
    TakesIff(o, s);
    var (s1, job) := Take(o, s);
    if job.None? {
      n := 0;
      NoneIsStarted(o, s, fates);
    } else {
      var refused := fates != [] && fates[0];
      FirstRan(o, s, refused);
      var s3 := Park(if refused then Finish(s1, job.value) else s1, After(o, s1), job.value);
      OneRanIsStarted(o, s, s3, fates);
      n := 1;
      if After(o, s1).GoOn? {
        var later := if fates == [] then [] else fates[1..];
        ShorterQueue(o, s, s3, fates);
        var m := WholeTurn(o, s3, later);
        StartedAddsUp(o, s, s3, NextJob(o, s3, later), m, fates);
        n := m + 1;
        assert m > 0 ==> s3.queue.jobs[m-1] == s.queue.jobs[m];
      }
    }
  }

  /** A loop whose job has ended takes such a turn. */
  lemma ResumedLoopTurns(o: LimiterOptions, s: LimiterState, job: Job, fates: seq<bool>) returns (n: nat)
    requires o.delay <= 0.0 && job in s.awaiting
    ensures var (was, s') := (s.(awaiting := s.awaiting - multiset{job}), Resume(o, s, job, fates));
            && n <= |s.queue.jobs| && Started(o, was, s', n, fates)
            && if s'.awaiting == was.awaiting then Take(o, s').1.None?
               else n > 0 && s'.awaiting == was.awaiting + multiset{s.queue.jobs[n-1]}
  {
    hide Take, Started, NextJob;
    n := WholeTurn(o, s.(awaiting := s.awaiting - multiset{job}), fates);
  }

  lemma NoneIsStarted(o: LimiterOptions, s: LimiterState, fates: seq<bool>)
    ensures Started(o, s, s, 0, fates)
  {
  }

  lemma ShorterQueue(o: LimiterOptions, s: LimiterState, s': LimiterState, fates: seq<bool>)
    requires Started(o, s, s', 1, fates)
    ensures s'.queue.jobs == s.queue.jobs[1..]
  {
  }

  // ---------------------------------------------------------------- stopping

  /** Jobs a step takes out of the queue to start them. */
  function StartedBy(o: LimiterOptions, s: LimiterState, e: Event): nat
    requires Enabled(s, e)
  {
    var left := |Step(o, s, e).queue.jobs|;
    if !e.ScheduleJob? && !e.ClearQueue? && left <= |s.queue.jobs| then |s.queue.jobs| - left else 0
  }

  function TotalStarted(o: LimiterOptions, s: LimiterState, es: seq<Event>): nat
    requires Legal(o, s, es)
    decreases |es|
  {
    if es == [] then 0 else StartedBy(o, s, es[0]) + TotalStarted(o, Step(o, s, es[0]), es[1..])
  }

  lemma {:induction false} TurnKeepsStop(o: LimiterOptions, s: LimiterState, fates: seq<bool>)
    requires s.state.Stopped?
    ensures NextJob(o, s, fates) == s
  {
    TakesIff(o, s);
  }

  /** Only `start` and `stop` change whether the limiter runs. */
  lemma StateFollowsTheCommands(o: LimiterOptions, s: LimiterState, e: Event)
    requires Enabled(s, e) && s.state.Stopped?
    ensures Step(o, s, StopLimiter).state.Stopped?
    ensures !e.StartLimiter? ==>
              && Step(o, s, e).state.Stopped? && StartedBy(o, s, e) == 0 && Step(o, s, e).running <= s.running
  {
    hide NextJob, Enqueue, Refill;
    match e
    case ImmediateFires(fates) => TurnKeepsStop(o, s.(immediates := s.immediates - 1), fates);
    case DelayOver(fates) => TurnKeepsStop(o, s.(delaying := s.delaying - 1, onDelayTime := false), fates);
    case LoopResumes(job, fates) => TurnKeepsStop(o, s.(awaiting := s.awaiting - multiset{job}), fates);
    case Tick => RefillKeepsJobs(o, s);
    case _ =>
  }

  lemma RefillKeepsJobs(o: LimiterOptions, s: LimiterState)
    ensures var s' := RefillTick(o, s); s'.queue.jobs == s.queue.jobs && s'.running == s.running && s'.state == s.state
  {
  }

  /** From `stop` to the next `start` no job is started, whatever else happens. */
  lemma {:induction false} StoppedStartsNothing(o: LimiterOptions, s: LimiterState, es: seq<Event>)
    requires Legal(o, Step(o, s, StopLimiter), es) && forall e :: e in es ==> !e.StartLimiter?
    ensures var was := Step(o, s, StopLimiter);
            && TotalStarted(o, was, es) == 0 && Exec(o, was, es).state.Stopped? && Exec(o, was, es).running <= s.running
  {
    RestsWhileStopped(o, Step(o, s, StopLimiter), es);
  }

  lemma {:induction false} RestsWhileStopped(o: LimiterOptions, s: LimiterState, es: seq<Event>)
    requires s.state.Stopped? && Legal(o, s, es) && forall e :: e in es ==> !e.StartLimiter?
    ensures TotalStarted(o, s, es) == 0 && Exec(o, s, es).state.Stopped? && Exec(o, s, es).running <= s.running
    decreases |es|
  {
    hide Step, Enabled, StartedBy;
    if es != [] {
      assert es[0] in es;
      StateFollowsTheCommands(o, s, es[0]);
      RestsWhileStopped(o, Step(o, s, es[0]), es[1..]);
    }
  }

  // ---------------------------------------------------------------- runs with a delay

  function DelaysOver(es: seq<Event>): nat {
    if es == [] then 0 else DelaysOver(es[1..]) + if es[0].DelayOver? then 1 else 0
  }

  /** Loops between the start of a job and the end of the delay behind it. */
  function Held(s: LimiterState): nat { |s.awaiting| + s.delaying }

  lemma StepHoldsOneForEachStart(o: LimiterOptions, s: LimiterState, e: Event)
    requires o.delay > 0.0 && Enabled(s, e)
    ensures Held(Step(o, s, e)) + (if e.DelayOver? then 1 else 0) == Held(s) + StartedBy(o, s, e)
    ensures StartedBy(o, s, e) <= if e.ImmediateFires? || e.DelayOver? || e.StartLimiter? then 1 else 0
  {
    hide NextJob, Enqueue, Resume, Refill, Clear, Held;
    match e
    case ImmediateFires(fates) => DelayedTurnHolds(o, s, s.(immediates := s.immediates - 1), fates);
    case DelayOver(fates) =>
      DelayedTurnHolds(o, s, s.(delaying := s.delaying - 1, onDelayTime := false), fates);
    case StartLimiter(fates) => DelayedTurnHolds(o, s, s.(state := Starting), fates);
    case LoopResumes(job, fates) => ResumedLoopIsHeld(o, s, job, fates);
    case _ => OtherStepsHold(o, s, e);
  }

  lemma DelayedTurnHolds(o: LimiterOptions, was: LimiterState, s: LimiterState, fates: seq<bool>)
    requires o.delay > 0.0 && s.queue == was.queue && s.awaiting == was.awaiting
    ensures |s.queue.jobs| - 1 <= |NextJob(o, s, fates).queue.jobs| <= |s.queue.jobs|
    ensures Held(NextJob(o, s, fates)) - s.delaying
            == Held(was) - was.delaying + |s.queue.jobs| - |NextJob(o, s, fates).queue.jobs|
  {
    hide NextJob, Take;
    DelayedTurnStartsOne(o, s, fates);
  }

  lemma ResumedLoopIsHeld(o: LimiterOptions, s: LimiterState, job: Job, fates: seq<bool>)
    requires o.delay > 0.0 && job in s.awaiting
    ensures Held(Resume(o, s, job, fates)) == Held(s) && Resume(o, s, job, fates).queue == s.queue
  {
    hide Resume;
    ResumedLoopWaits(o, s, job, fates);
  }

  lemma OtherStepsHold(o: LimiterOptions, s: LimiterState, e: Event)
    requires Enabled(s, e) && !e.ImmediateFires? && !e.LoopResumes? && !e.DelayOver? && !e.StartLimiter?
    ensures Held(Step(o, s, e)) == Held(s)
    ensures e.ScheduleJob? || e.ClearQueue? || Step(o, s, e).queue.jobs == s.queue.jobs
  {
    hide Enqueue, NextJob;
  }

  /** With a delay every started job holds a loop until a delay behind it is over: over every run, jobs
      started and loops held balance exactly, so beyond the loops queued from outside no job is started
      but by the end of a delay. */
  lemma {:induction false} EveryStartIsFollowedByItsDelay(o: LimiterOptions, s: LimiterState, es: seq<Event>)
    requires o.delay > 0.0 && Legal(o, s, es)
    ensures Held(Exec(o, s, es)) + DelaysOver(es) == Held(s) + TotalStarted(o, s, es)
    decreases |es|
  {
    hide Step, Enabled, Held, StartedBy;
    if es != [] {
      StepHoldsOneForEachStart(o, s, es[0]);
      EveryStartIsFollowedByItsDelay(o, Step(o, s, es[0]), es[1..]);
    }
  }
}
