/** What the limiter keeps over every interleaving of schedules, loops, completions, ticks, starts and stops. */
module LimiterRuns {
  import opened QueueSpec
  import opened LimiterSpec

  /** A loop awaits this job, and the job has not ended. */
  ghost predicate Witness(s: LimiterState, job: Job) { job in s.awaiting && job in s.running }

  ghost predicate SomebodyAwaits(s: LimiterState) { exists job :: Witness(s, job) }

  /** The counter is the number of started, unfinished jobs and never passes the limit by a whole job;
      at capacity a loop awaits a job that still runs; the delay flag means a loop is in its delay. */
  ghost predicate Inv(o: LimiterOptions, s: LimiterState) {
    && s.pending == |s.running|
    && (o.concurrency.AtMost? ==> s.pending as real < o.concurrency.bound + 1.0)
    && (AtCapacity(o, s) ==> SomebodyAwaits(s))
    && (s.onDelayTime ==> s.delaying > 0)
  }

  ghost predicate WeightsFit(o: LimiterOptions, q: seq<Job>) {
    forall x :: x in q ==> FitsBucket(o, x)
  }

  predicate FitsBucket(o: LimiterOptions, job: Job) { o.queue.bucketSize > 0.0 ==> job.weight <= o.queue.bucketSize }

  /** Some instance of the loop is outstanding. */
  ghost predicate LoopOutstanding(s: LimiterState) {
    s.immediates > 0 || s.awaiting != multiset{} || s.delaying > 0
  }

  /** The refill timer will emit `refill` when it fires. */
  predicate RefillComing(o: LimiterOptions, s: LimiterState) {
    s.queue.refillArmed && s.queue.tokens < o.queue.bucketSize
  }

  ghost predicate Awake(o: LimiterOptions, s: LimiterState) {
    s.queue.jobs != [] && s.state != Stopped ==> LoopOutstanding(s) || RefillComing(o, s)
  }

  /** The refill timer is alive, or no bucket is used. */
  predicate TimerAlive(o: LimiterOptions, s: LimiterState) { o.queue.bucketSize == 0.0 || s.queue.refillArmed }

  // ---------------------------------------------------------------- one turn of the loop

  /** Starting a job and parking the loop keeps the invariant. */
  lemma TakeKeepsInv(o: LimiterOptions, s: LimiterState, refused: bool)
    requires o.Valid() && Inv(o, s) && Take(o, s).1.Some?
    ensures var (s1, job) := Take(o, s);
            var s2 := if refused then Finish(s1, job.value) else s1;
            var s3 := Park(s2, After(o, s1), job.value);
            Inv(o, s3) && (After(o, s1).GoOn? || LoopOutstanding(s3))
  {
    var (s1, job) := Take(o, s);
    var s2 := if refused then Finish(s1, job.value) else s1;
    var s3 := Park(s2, After(o, s1), job.value);
    assert job.value in s1.running;
    if AtCapacity(o, s1) {
      assert job.value in s3.awaiting;
      if !refused { assert Witness(s3, job.value); }
    }
  }

  /** The invariant; `fit` says whether all jobs of the run fit the bucket. */
  ghost predicate Good(o: LimiterOptions, s: LimiterState, fit: bool) {
    && Inv(o, s)
    && (fit ==> WeightsFit(o, s.queue.jobs))
    && (fit && TimerAlive(o, s) ==> Awake(o, s))
  }

  /** When a turn starts nothing, there is a reason, and the reason keeps the limiter awake. */
  lemma NothingTaken(o: LimiterOptions, s: LimiterState)
    requires o.Valid() && Inv(o, s) && WeightsFit(o, s.queue.jobs) && Take(o, s).1.None?
    ensures TimerAlive(o, s) ==> Awake(o, s)
  {
    if AtCapacity(o, s) {
      var job :| Witness(s, job);
      assert s.awaiting != multiset{};
    } else if s.queue.jobs != [] {
      assert FitsBucket(o, s.queue.jobs[0]);
    }
  }

  lemma OutstandingIsAwake(o: LimiterOptions, s: LimiterState)
    requires LoopOutstanding(s)
    ensures Awake(o, s)
  {
  }

  /** One whole turn of the loop. */
  lemma {:induction false} NextJobKeepsGood(o: LimiterOptions, s: LimiterState, fates: seq<bool>, fit: bool)
    requires o.Valid() && Inv(o, s) && (fit ==> WeightsFit(o, s.queue.jobs))
    ensures Good(o, NextJob(o, s, fates), fit)
    decreases |s.queue.jobs|
  {
    hide Inv, Awake, LoopOutstanding, Finish, After, FitsBucket, TimerAlive, CanProcessMore;
    var (s1, job) := Take(o, s);
    if job.None? {
      if fit { NothingTaken(o, s); }
    } else {
      var refused := fates != [] && fates[0];
      TakeKeepsInv(o, s, refused);
      var s2 := if refused then Finish(s1, job.value) else s1;
      var next := After(o, s1);
      var s3 := Park(s2, next, job.value);
      TakesTheFront(o, s);
      FinishAndParkKeepQueue(s1, refused, next, job.value);
      if next.GoOn? {
        NextJobKeepsGood(o, s3, if fates == [] then [] else fates[1..], fit);
      } else {
        OutstandingIsAwake(o, s3);
      }
    }
  }

  lemma TakesTheFront(o: LimiterOptions, s: LimiterState)
    requires Take(o, s).1.Some?
    ensures s.queue.jobs != [] && Take(o, s).1.value == s.queue.jobs[0]
    ensures Take(o, s).0.queue.jobs == s.queue.jobs[1..]
    ensures Take(o, s).0.queue.refillArmed == s.queue.refillArmed
    ensures Take(o, s).0.running == s.running + multiset{s.queue.jobs[0]}
  {
  }

  lemma FinishAndParkKeepQueue(s1: LimiterState, refused: bool, next: Next, job: Job)
    ensures Park(if refused then Finish(s1, job) else s1, next, job).queue == s1.queue
  {
  }

  lemma ScheduleKeepsGood(o: LimiterOptions, s: LimiterState, job: Job, fit: bool)
    requires o.Valid() && Good(o, s, fit) && (fit ==> FitsBucket(o, job))
    ensures Good(o, Schedule(o, s, job).0, fit)
  {
    hide FitsBucket, SomebodyAwaits;
    var q' := MakeRoom(o.queue, s.queue, job).0;
    InsertMembers(q'.jobs, job);
    MakeRoomShrinks(o.queue, s.queue, job);
    var s' := Schedule(o, s, job).0;
    assert forall x :: x in s'.queue.jobs ==> x in s.queue.jobs || x == job;
    SameLoops(s, s');
  }

  lemma SameLoops(s: LimiterState, s': LimiterState)
    requires s.awaiting == s'.awaiting && s.running == s'.running
    ensures SomebodyAwaits(s) <==> SomebodyAwaits(s')
  {
    if SomebodyAwaits(s) { var j :| Witness(s, j); assert Witness(s', j); }
    if SomebodyAwaits(s') { var j :| Witness(s', j); assert Witness(s, j); }
  }

  /** Making room adds no job and never re-arms the timer. */
  lemma MakeRoomShrinks(o: QueueOptions, s: QueueState, job: Job)
    ensures var s' := MakeRoom(o, s, job).0;
            && (forall x :: x in s'.jobs ==> x in s.jobs)
            && (s'.refillArmed ==> s'.tokens == s.tokens && s.refillArmed)
            && (s'.jobs != [] ==> s.jobs != [])
  {
  }

  /** Every completion takes the counter below the limit. */
  lemma JobDoneKeepsGood(o: LimiterOptions, s: LimiterState, job: Job, fit: bool)
    requires o.Valid() && Good(o, s, fit) && job in s.running
    ensures Good(o, Finish(s, job), fit)
    ensures !AtCapacity(o, Finish(s, job))
  {
  }

  lemma ResumeKeepsGood(o: LimiterOptions, s: LimiterState, job: Job, fates: seq<bool>, fit: bool)
    requires o.Valid() && Good(o, s, fit) && job in s.awaiting && job !in s.running
    ensures Good(o, Resume(o, s, job, fates), fit)
  {
    var s' := s.(awaiting := s.awaiting - multiset{job});
    assert SomebodyAwaits(s) ==> SomebodyAwaits(s') by {
      if SomebodyAwaits(s) { var j :| Witness(s, j); assert Witness(s', j); }
    }
    if o.delay > 0.0 {
      SameLoops(s', Resume(o, s, job, fates));
    } else {
      NextJobKeepsGood(o, s', fates, fit);
    }
  }

  lemma StepKeepsGood(o: LimiterOptions, s: LimiterState, e: Event, fit: bool)
    requires o.Valid() && Good(o, s, fit) && Enabled(s, e)
    requires fit && e.ScheduleJob? ==> FitsBucket(o, e.job)
    ensures Good(o, Step(o, s, e), fit)
  {
    hide NextJob, SomebodyAwaits, FitsBucket, Schedule, Resume;
    match e
    case ScheduleJob(job) => ScheduleKeepsGood(o, s, job, fit);
    case ImmediateFires(fates) =>
      var s' := s.(immediates := s.immediates - 1);
      SameLoops(s, s');
      NextJobKeepsGood(o, s', fates, fit);
    case JobDone(job) => JobDoneKeepsGood(o, s, job, fit);
    case LoopResumes(job, fates) => ResumeKeepsGood(o, s, job, fates, fit);
    case DelayOver(fates) =>
      var s' := s.(delaying := s.delaying - 1, onDelayTime := false);
      SameLoops(s, s');
      NextJobKeepsGood(o, s', fates, fit);
    case StartLimiter(fates) =>
      var s' := s.(state := Starting);
      SameLoops(s, s');
      NextJobKeepsGood(o, s', fates, fit);
    case _ =>
      SameLoops(s, Step(o, s, e));
  }

  // ---------------------------------------------------------------- whole runs

  ghost predicate JobsFit(o: LimiterOptions, es: seq<Event>) {
    forall e :: e in es && e.ScheduleJob? ==> FitsBucket(o, e.job)
  }

  lemma {:induction false} AlwaysGood(o: LimiterOptions, s: LimiterState, es: seq<Event>, fit: bool)
    requires o.Valid() && Good(o, s, fit) && Legal(o, s, es) && (fit ==> JobsFit(o, es))
    ensures Good(o, Exec(o, s, es), fit)
    decreases |es|
  {
    hide Good, Step, Enabled, FitsBucket;
    if es != [] {
      StepKeepsGood(o, s, es[0], fit);
      assert forall e :: e in es[1..] ==> e in es;
      AlwaysGood(o, Step(o, s, es[0]), es[1..], fit);
    }
  }

  /** In every interleaving the counter equals the number of started, unfinished jobs and stays below
      the limit plus one; at capacity some loop awaits a
      job that still runs; and the delay flag is never left set without a loop that will clear it. */
  lemma PendingCountsRunning(o: LimiterOptions, es: seq<Event>)
    requires o.Valid() && Legal(o, Init(o), es)
    ensures var s := Exec(o, Init(o), es);
            && s.pending == |s.running|
            && (o.concurrency.AtMost? ==> |s.running| as real < o.concurrency.bound + 1.0)
            && (AtCapacity(o, s) ==> exists job :: job in s.awaiting && job in s.running)
            && (s.onDelayTime ==> s.delaying > 0)
  {
    AlwaysGood(o, Init(o), es, false);
    var s := Exec(o, Init(o), es);
    if AtCapacity(o, s) {
      var job :| Witness(s, job);
      assert job in s.awaiting && job in s.running;
    }
  }

  /** A whole-number limit is never exceeded. */
  lemma ConcurrencyBound(o: LimiterOptions, es: seq<Event>, n: nat)
    requires o.Valid() && Legal(o, Init(o), es) && o.concurrency == AtMost(n as real)
    ensures |Exec(o, Init(o), es).running| <= n
  {
    PendingCountsRunning(o, es);
  }

  /** No lost wake-up: whatever the interleaving, a running limiter with a waiting job has a loop
      outstanding or a refill coming, as long as jobs fit the bucket and the refill timer is alive. */
  lemma NoLostWakeUp(o: LimiterOptions, es: seq<Event>)
    requires o.Valid() && Legal(o, Init(o), es) && JobsFit(o, es)
    requires TimerAlive(o, Exec(o, Init(o), es))
    requires Exec(o, Init(o), es).queue.jobs != [] && Exec(o, Init(o), es).state != Stopped
    ensures LoopOutstanding(Exec(o, Init(o), es)) || RefillComing(o, Exec(o, Init(o), es))
  {
    AlwaysGood(o, Init(o), es, true);
  }

  /** Only clearing kills the timer: `clear` itself, or the block strategy on a full queue. */
  ghost predicate NeverCleared(o: LimiterOptions, es: seq<Event>) {
    !o.queue.strategy.Block? && ClearQueue !in es
  }

  lemma {:induction false} NextJobKeepsTimer(o: LimiterOptions, s: LimiterState, fates: seq<bool>)
    ensures NextJob(o, s, fates).queue.refillArmed == s.queue.refillArmed
    decreases |s.queue.jobs|
  {
    hide Take, Finish, Park, After;
    var (s1, job) := Take(o, s);
    if job.Some? {
      TakesTheFront(o, s);
      FinishAndParkKeepQueue(s1, fates != [] && fates[0], After(o, s1), job.value);
      var s2 := if fates != [] && fates[0] then Finish(s1, job.value) else s1;
      var s3 := Park(s2, After(o, s1), job.value);
      if After(o, s1).GoOn? { NextJobKeepsTimer(o, s3, if fates == [] then [] else fates[1..]); }
    }
  }

  lemma StepKeepsTimer(o: LimiterOptions, s: LimiterState, e: Event)
    requires Enabled(s, e) && e != ClearQueue && !o.queue.strategy.Block?
    ensures Step(o, s, e).queue.refillArmed == s.queue.refillArmed
  {
    hide NextJob;
    match e
    case ImmediateFires(fates) => NextJobKeepsTimer(o, s.(immediates := s.immediates - 1), fates);
    case LoopResumes(job, fates) => NextJobKeepsTimer(o, s.(awaiting := s.awaiting - multiset{job}), fates);
    case DelayOver(fates) => NextJobKeepsTimer(o, s.(delaying := s.delaying - 1, onDelayTime := false), fates);
    case StartLimiter(fates) => NextJobKeepsTimer(o, s.(state := Starting), fates);
    case _ =>
  }

  lemma {:induction false} TimerStaysAlive(o: LimiterOptions, s: LimiterState, es: seq<Event>)
    requires Legal(o, s, es) && NeverCleared(o, es)
    ensures Exec(o, s, es).queue.refillArmed == s.queue.refillArmed
    decreases |es|
  {
    hide Step, Enabled;
    if es != [] {
      assert es[0] in es;
      StepKeepsTimer(o, s, es[0]);
      TimerStaysAlive(o, Step(o, s, es[0]), es[1..]);
    }
  }

  /** Runs that never clear: awake at every moment, for every option set. */
  lemma UnclearedRunsStayAwake(o: LimiterOptions, es: seq<Event>)
    requires o.Valid() && Legal(o, Init(o), es) && JobsFit(o, es) && NeverCleared(o, es)
    ensures Awake(o, Exec(o, Init(o), es))
  {
    TimerStaysAlive(o, Init(o), es);
    AlwaysGood(o, Init(o), es, true);
  }

  // ---------------------------------------------------------------- where a wake-up is lost

  lemma {:induction false} OneMore(o: LimiterOptions, s: LimiterState, es: seq<Event>, e: Event)
    requires Legal(o, s, es) && Enabled(Exec(o, s, es), e)
    ensures Legal(o, s, es + [e]) && Exec(o, s, es + [e]) == Step(o, Exec(o, s, es), e)
    decreases |es|
  {
    hide Step, Enabled;
    if es == [] {
      assert [e][1..] == [];
      assert Legal(o, Step(o, s, e), []);
      assert Exec(o, Step(o, s, e), []) == Step(o, s, e);
      assert es + [e] == [e];
    } else {
      OneMore(o, Step(o, s, es[0]), es[1..], e);
      assert (es + [e])[1..] == es[1..] + [e];
    }
  }

  /** Nothing waits, runs or is outstanding, the bucket is empty and its timer dead. */
  ghost predicate Drained(s: LimiterState) {
    && s.queue == QueueState([], 0.0, false, false)
    && s.pending == 0 && s.running == multiset{} && s.state == Starting
    && !s.onDelayTime && !LoopOutstanding(s)
  }

  /** One job of full weight waits, a loop is queued for it, and the timer is dead. */
  ghost predicate OneQueued(o: LimiterOptions, s: LimiterState, job: Job) {
    && s.queue == QueueState([job], o.queue.bucketSize, false, false)
    && s.pending == 0 && s.running == multiset{} && s.state == Starting && !s.onDelayTime
    && s.immediates == 1 && s.awaiting == multiset{} && s.delaying == 0
  }

  lemma QueueAfterClear(o: LimiterOptions, job: Job) returns (es: seq<Event>)
    requires o.Valid() && o.queue.bucketSize > 0.0 && job.weight == o.queue.bucketSize
    ensures Legal(o, Init(o), es) && JobsFit(o, es) && OneQueued(o, Exec(o, Init(o), es), job)
  {
    var s0 := Init(o);
    es := [];
    OneMore(o, s0, es, StartLimiter([])); es := es + [StartLimiter([])];
    OneMore(o, s0, es, ClearQueue); es := es + [ClearQueue];
    OneMore(o, s0, es, ScheduleJob(job)); es := es + [ScheduleJob(job)];
    assert Exec(o, s0, es).queue.jobs == [job];
  }

  /** The job has run, the bucket is spent; at most its loop is left. */
  ghost predicate JustDone(s: LimiterState, job: Job) {
    && s.queue == QueueState([], 0.0, false, false)
    && s.pending == 0 && s.running == multiset{} && s.state == Starting && s.immediates == 0
    && (s.onDelayTime ==> s.delaying > 0)
    && ((s.awaiting == multiset{job} && s.delaying == 0) || (s.awaiting == multiset{} && s.delaying <= 1))
  }

  lemma StartTheOneJob(o: LimiterOptions, s: LimiterState, job: Job)
    requires o.Valid() && o.queue.bucketSize > 0.0 && job.weight == o.queue.bucketSize && OneQueued(o, s, job)
    ensures var s1 := Take(o, s.(immediates := 0)).0;
            && s1.running == multiset{job} && s1.pending == 1
            && Step(o, s, ImmediateFires([])) == Park(s1, After(o, s1), job)
  {
    var (s1, j) := Take(o, s.(immediates := 0));
    assert s1.running == multiset{job} && s1.queue.jobs == [];
    var s3 := Park(s1, After(o, s1), job);
    if After(o, s1).GoOn? { assert NextJob(o, s3, []) == s3; }
    assert Step(o, s, ImmediateFires([])) == NextJob(o, s.(immediates := 0), []);
  }

  lemma RunTheOneJob(o: LimiterOptions, s: LimiterState, job: Job)
    requires o.Valid() && o.queue.bucketSize > 0.0 && job.weight == o.queue.bucketSize && OneQueued(o, s, job)
    ensures Enabled(s, ImmediateFires([])) && Enabled(Step(o, s, ImmediateFires([])), JobDone(job))
    ensures JustDone(Step(o, Step(o, s, ImmediateFires([])), JobDone(job)), job)
  {
    hide NextJob, After;
    StartTheOneJob(o, s, job);
    var s3 := Step(o, s, ImmediateFires([]));
    assert s3.running == multiset{job};
    assert Finish(s3, job).running == multiset{};
  }

  /** Clear a fresh limiter, then run one job of full weight. */
  lemma DrainAfterClear(o: LimiterOptions, job: Job) returns (es: seq<Event>)
    requires o.Valid() && o.queue.bucketSize > 0.0 && job.weight == o.queue.bucketSize
    ensures Legal(o, Init(o), es) && JobsFit(o, es) && Drained(Exec(o, Init(o), es))
  {
    hide Step, Enabled, Legal, Exec, OneQueued, JustDone, Drained;
    var s0 := Init(o);
    es := QueueAfterClear(o, job);
    RunTheOneJob(o, Exec(o, s0, es), job);
    OneMore(o, s0, es, ImmediateFires([]));
    es := es + [ImmediateFires([])];
    OneMore(o, s0, es, JobDone(job));
    es := es + [JobDone(job)];
    es := LetTheLoopEnd(o, es, job);
  }

  lemma ResumedLoopEnds(o: LimiterOptions, s: LimiterState, job: Job)
    requires JustDone(s, job) && s.awaiting != multiset{}
    ensures Enabled(s, LoopResumes(job, []))
    ensures var s' := Step(o, s, LoopResumes(job, [])); JustDone(s', job) && s'.awaiting == multiset{}
  {
    var s' := s.(awaiting := s.awaiting - multiset{job});
    assert s'.awaiting == multiset{};
    assert NextJob(o, s', []) == s';
  }

  lemma DelayedLoopEnds(o: LimiterOptions, s: LimiterState, job: Job)
    requires JustDone(s, job) && s.awaiting == multiset{} && s.delaying > 0
    ensures Enabled(s, DelayOver([])) && Drained(Step(o, s, DelayOver([])))
  {
  }

  lemma NothingLeftIsDrained(s: LimiterState, job: Job)
    requires JustDone(s, job) && s.awaiting == multiset{} && s.delaying == 0
    ensures Drained(s)
  {
  }

  lemma LetTheLoopEnd(o: LimiterOptions, es: seq<Event>, job: Job) returns (es': seq<Event>)
    requires Legal(o, Init(o), es) && JobsFit(o, es) && JustDone(Exec(o, Init(o), es), job)
    ensures Legal(o, Init(o), es') && JobsFit(o, es') && Drained(Exec(o, Init(o), es'))
  {
    hide Step, Enabled, Legal, Exec, JustDone, Drained;
    var s0 := Init(o);
    es' := es;
    if Exec(o, s0, es').awaiting != multiset{} {
      ResumedLoopEnds(o, Exec(o, s0, es'), job);
      OneMore(o, s0, es', LoopResumes(job, []));
      es' := es' + [LoopResumes(job, [])];
    }
    if Exec(o, s0, es').delaying > 0 {
      DelayedLoopEnds(o, Exec(o, s0, es'), job);
      OneMore(o, s0, es', DelayOver([]));
      es' := es' + [DelayOver([])];
    } else {
      NothingLeftIsDrained(Exec(o, s0, es'), job);
    }
  }

  /** A cleared limiter with a bucket can lose a wake-up: with the timer dead and the bucket spent, the
      next job waits for ever. So with clearing allowed, staying awake is exactly having no bucket. */
  lemma ClearingIsSafeIffNoBucket(o: LimiterOptions)
    requires o.Valid()
    ensures (forall es :: Legal(o, Init(o), es) && JobsFit(o, es) ==> Awake(o, Exec(o, Init(o), es)))
            <==> o.queue.bucketSize == 0.0
  {
    if o.queue.bucketSize == 0.0 {
      forall es | Legal(o, Init(o), es) && JobsFit(o, es) ensures Awake(o, Exec(o, Init(o), es)) {
        AlwaysGood(o, Init(o), es, true);
      }
    } else {
      var job := Job(0, 0.0, o.queue.bucketSize);
      var es := DrainAfterClear(o, job);
      LateJobIsLost(o, es, Job(1, 0.0, o.queue.bucketSize));
    }
  }

  lemma LateJobIsLost(o: LimiterOptions, es: seq<Event>, job: Job)
    requires o.Valid() && Legal(o, Init(o), es) && JobsFit(o, es) && Drained(Exec(o, Init(o), es))
    requires job.weight == o.queue.bucketSize > 0.0
    ensures exists es' :: Legal(o, Init(o), es') && JobsFit(o, es') && !Awake(o, Exec(o, Init(o), es'))
  {
    hide Step, Enabled, Legal, Exec, Drained, Awake;
    LateJobStays(o, Exec(o, Init(o), es), job);
    OneMore(o, Init(o), es, ScheduleJob(job));
    var es1 := es + [ScheduleJob(job)];
    OneMore(o, Init(o), es1, ImmediateFires([]));
    var es2 := es1 + [ImmediateFires([])];
    assert JobsFit(o, es2);
    assert !Awake(o, Exec(o, Init(o), es2));
  }

  lemma LateJobStays(o: LimiterOptions, s: LimiterState, job: Job)
    requires o.Valid() && Drained(s) && job.weight == o.queue.bucketSize > 0.0
    ensures Enabled(s, ScheduleJob(job)) && Enabled(Step(o, s, ScheduleJob(job)), ImmediateFires([]))
    ensures !Awake(o, Step(o, Step(o, s, ScheduleJob(job)), ImmediateFires([])))
  {
    var s1 := Step(o, s, ScheduleJob(job));
    assert s1 == s.(queue := s.queue.(jobs := [job]), immediates := 1);
    assert Step(o, s1, ImmediateFires([])) == s1.(immediates := 0);
  }

  /** A job heavier than the bucket is never started and nothing wakes for it: without the limit on
      weights, staying awake is again exactly having no bucket, even if the queue is never cleared. */
  lemma AnyWeightIsSafeIffNoBucket(o: LimiterOptions)
    requires o.Valid() && !o.queue.strategy.Block?
    ensures (forall es :: Legal(o, Init(o), es) && NeverCleared(o, es) ==> Awake(o, Exec(o, Init(o), es)))
            <==> o.queue.bucketSize == 0.0
  {
    if o.queue.bucketSize == 0.0 {
      forall es | Legal(o, Init(o), es) && NeverCleared(o, es) ensures Awake(o, Exec(o, Init(o), es)) {
        AlwaysGood(o, Init(o), es, true);
      }
    } else {
      HeavyJobIsLost(o, Job(0, 0.0, o.queue.bucketSize + 1.0));
    }
  }

  lemma HeavyJobIsLost(o: LimiterOptions, job: Job)
    requires o.Valid() && !o.queue.strategy.Block? && 0.0 < o.queue.bucketSize < job.weight
    ensures exists es :: Legal(o, Init(o), es) && NeverCleared(o, es) && !Awake(o, Exec(o, Init(o), es))
  {
    hide Step, Enabled, Awake, Legal, Exec;
    var s0 := Init(o);
    HeavyJobStays(o, job);
    NoEvents(o, s0);
    OneMore(o, s0, [], StartLimiter([]));
    var es1 := [] + [StartLimiter([])];
    OneMore(o, s0, es1, ScheduleJob(job));
    var es2 := es1 + [ScheduleJob(job)];
    OneMore(o, s0, es2, ImmediateFires([]));
    var es3 := es2 + [ImmediateFires([])];
    assert NeverCleared(o, es3) && !Awake(o, Exec(o, s0, es3));
  }

  lemma NoEvents(o: LimiterOptions, s: LimiterState)
    ensures Legal(o, s, []) && Exec(o, s, []) == s
  {
  }

  /** Started, given the heavy job, and looked at once by its loop. */
  lemma HeavyJobStays(o: LimiterOptions, job: Job)
    requires o.Valid() && !o.queue.strategy.Block? && 0.0 < o.queue.bucketSize < job.weight
    ensures Enabled(Init(o), StartLimiter([]))
    ensures var s1 := Step(o, Init(o), StartLimiter([]));
            && Enabled(s1, ScheduleJob(job)) && Enabled(Step(o, s1, ScheduleJob(job)), ImmediateFires([]))
            && !Awake(o, Step(o, Step(o, s1, ScheduleJob(job)), ImmediateFires([])))
  {
    var s1 := Step(o, Init(o), StartLimiter([]));
    assert s1 == Init(o).(state := Starting);
    var s2 := Step(o, s1, ScheduleJob(job));
    assert s2 == s1.(queue := s1.queue.(jobs := [job]), immediates := 1);
    assert Step(o, s2, ImmediateFires([])) == s2.(immediates := 0);
  }
}
