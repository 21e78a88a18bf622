/** Nothing waits for ever: from every reachable state the limiter can serve its whole queue without help
    from outside, and in every fair run it does. */
module LimiterProgress {
  import opened Wrappers
  import opened QueueSpec
  import opened LimiterSpec
  import opened LimiterRuns
  import QR = QueueRuns

  /** Steps the event loop makes by itself: jobs end, loops go on, delays end, the refill timer ticks. */
  predicate Internal(e: Event) {
    match e
    case ImmediateFires(fates) => fates == []
    case LoopResumes(_, fates) => fates == []
    case DelayOver(fates) => fates == []
    case JobDone(_) => true
    case Tick => true
    case _ => false
  }

  /** `es` leads from `s` to `s'` by internal steps. */
  ghost predicate Leads(o: LimiterOptions, s: LimiterState, es: seq<Event>, s': LimiterState) {
    Legal(o, s, es) && Exec(o, s, es) == s' && forall e :: e in es ==> Internal(e)
  }

  lemma OneStep(o: LimiterOptions, s: LimiterState, e: Event)
    requires Enabled(s, e) && Internal(e)
    ensures Leads(o, s, [e], Step(o, s, e))
  {
    hide Step, Enabled;
    assert [e][1..] == [];
    assert Legal(o, Step(o, s, e), []) && Exec(o, Step(o, s, e), []) == Step(o, s, e);
  }

  lemma {:induction false} Join(
    o: LimiterOptions, s: LimiterState, es: seq<Event>, s1: LimiterState, more: seq<Event>, s2: LimiterState)
    requires Leads(o, s, es, s1) && Leads(o, s1, more, s2)
    ensures Leads(o, s, es + more, s2)
    decreases |es|
  {
    hide Step, Enabled, Internal;
    if es == [] {
      assert es + more == more;
    } else {
      Join(o, Step(o, s, es[0]), es[1..], s1, more, s2);
      assert (es + more)[1..] == es[1..] + more;
    }
  }

  /** A started limiter in a state its runs can reach, whose timer, if it needs one, is alive. */
  ghost predicate Working(o: LimiterOptions, s: LimiterState) {
    o.Valid() && Good(o, s, true) && TimerAlive(o, s) && s.state != Stopped
  }

  lemma {:induction false} TurnKeepsState(o: LimiterOptions, s: LimiterState)
    ensures var s' := NextJob(o, s, []);
            && s'.state == s.state && s'.queue.refillArmed == s.queue.refillArmed
            && |s'.queue.jobs| <= |s.queue.jobs| && (Take(o, s).1.Some? ==> |s'.queue.jobs| < |s.queue.jobs|)
    decreases |s.queue.jobs|
  {
    hide Take, After;
    var (s1, job) := Take(o, s);
    if job.Some? {
      TakesTheFront(o, s);
      TakeKeepsState(o, s);
      var s3 := Park(s1, After(o, s1), job.value);
      if After(o, s1).GoOn? { TurnKeepsState(o, s3); }
    }
  }

  lemma TakeKeepsState(o: LimiterOptions, s: LimiterState)
    ensures Take(o, s).0.state == s.state
  {
  }

  lemma StepKeepsWorking(o: LimiterOptions, s: LimiterState, e: Event)
    requires Working(o, s) && Enabled(s, e) && Internal(e)
    ensures Working(o, Step(o, s, e)) && |Step(o, s, e).queue.jobs| <= |s.queue.jobs|
  {
    hide NextJob, Good, TimerAlive;
    StepKeepsGood(o, s, e, true);
    match e {
      case ImmediateFires(_) => TurnKeepsState(o, s.(immediates := s.immediates - 1));
      case LoopResumes(job, _) => TurnKeepsState(o, s.(awaiting := s.awaiting - multiset{job}));
      case DelayOver(_) => TurnKeepsState(o, s.(delaying := s.delaying - 1, onDelayTime := false));
      case _ =>
    }
    TimerStays(o, s, Step(o, s, e));
  }

  lemma TimerStays(o: LimiterOptions, s: LimiterState, s': LimiterState)
    requires TimerAlive(o, s) && s'.queue.refillArmed == s.queue.refillArmed
    ensures TimerAlive(o, s')
  {
  }

  /** First every started job ends. */
  lemma {:induction false} EndAllJobs(o: LimiterOptions, s: LimiterState) returns (es: seq<Event>, s': LimiterState)
    requires Working(o, s)
    ensures Leads(o, s, es, s') && Working(o, s') && s'.running == multiset{} && s'.queue == s.queue
    decreases |s.running|
  {
    hide Working;
    if s.running == multiset{} {
      es, s' := [], s;
    } else {
      var job :| job in s.running;
      StepKeepsWorking(o, s, JobDone(job));
      OneStep(o, s, JobDone(job));
      var s1 := Step(o, s, JobDone(job));
      var more;
      more, s' := EndAllJobs(o, s1);
      es := [JobDone(job)] + more;
      Join(o, s, [JobDone(job)], s1, more, s');
    }
  }

  ghost predicate Granted(o: LimiterOptions, s: LimiterState) {
    s.queue.jobs != [] && (o.queue.bucketSize == 0.0 || s.queue.tokens >= s.queue.jobs[0].weight)
  }

  /** Then the bucket fills until it grants the front job: `n` intervals are enough. */
  lemma {:induction false} FillBucket(o: LimiterOptions, s: LimiterState, n: nat)
    returns (es: seq<Event>, s': LimiterState)
    requires Working(o, s) && s.running == multiset{} && s.queue.jobs != []
    requires o.queue.bucketSize != 0.0 ==>
               s.queue.tokens + QR.Times(n, o.queue.tokensPerInterval) >= s.queue.jobs[0].weight
    ensures Leads(o, s, es, s') && Working(o, s') && s'.running == multiset{} && s'.queue.jobs == s.queue.jobs
    ensures Granted(o, s')
    decreases n
  {
    hide Working, Leads;
    if Granted(o, s) {
      es, s' := [], s;
      NoSteps(o, s);
    } else {
      FrontFits(o, s);
      var s1 := Step(o, s, Tick);
      TickAdds(o, s);
      if n > 1 { TimesIsNoLess(n - 1, o.queue.tokensPerInterval); }
      StepKeepsWorking(o, s, Tick);
      OneStep(o, s, Tick);
      var more;
      more, s' := FillBucket(o, s1, n - 1);
      es := [Tick] + more;
      Join(o, s, [Tick], s1, more, s');
    }
  }

  lemma {:induction false} TimesIsNoLess(n: nat, x: real)
    requires x >= 0.0
    ensures QR.Times(n, x) >= 0.0
  {
    if n > 0 { TimesIsNoLess(n - 1, x); }
  }

  lemma NoSteps(o: LimiterOptions, s: LimiterState)
    ensures Leads(o, s, [], s)
  {
  }

  lemma FrontFits(o: LimiterOptions, s: LimiterState)
    requires Working(o, s) && s.queue.jobs != [] && o.queue.bucketSize != 0.0
    ensures s.queue.jobs[0].weight <= o.queue.bucketSize && s.queue.refillArmed && o.queue.tokensPerInterval > 0.0
  {
    assert FitsBucket(o, s.queue.jobs[0]);
  }

  lemma TickAdds(o: LimiterOptions, s: LimiterState)
    requires s.queue.refillArmed
    ensures var s1 := Step(o, s, Tick);
            && s1.running == s.running && s1.queue.jobs == s.queue.jobs && s1.queue.refillArmed
            && s1.queue.tokens == if s.queue.tokens >= o.queue.bucketSize then s.queue.tokens
                                  else Min(s.queue.tokens + o.queue.tokensPerInterval, o.queue.bucketSize)
  {
  }

  lemma EnoughIntervals(need: real, x: real) returns (n: nat)
    requires x > 0.0
    ensures QR.Times(n, x) >= need
  {
    n := if need <= 0.0 then 0 else (need / x).Floor + 1;
    QR.TimesIsProduct(n, x);
    if need > 0.0 { assert n as real * x >= (need / x) * x == need; }
  }

  /** With nobody running and the front job granted, a turn of the loop starts it. */
  lemma TurnStarts(o: LimiterOptions, s: LimiterState)
    requires o.Valid() && s.pending == 0 && s.state != Stopped && Granted(o, s)
    ensures Take(o, s).1.Some?
  {
  }

  /** And some loop does turn: the one outstanding, or the one the next tick queues. */
  lemma SomeLoopTurns(o: LimiterOptions, s: LimiterState) returns (es: seq<Event>, s': LimiterState)
    requires Working(o, s) && s.running == multiset{} && Granted(o, s)
    ensures Leads(o, s, es, s') && Working(o, s') && |s'.queue.jobs| < |s.queue.jobs|
  {
    hide Leads, Good, Take, NextJob;
    NobodyPending(o, s);
    if s.immediates > 0 {
      es, s' := ImmediateTurns(o, s);
    } else if s.delaying > 0 {
      es, s' := DelayTurns(o, s);
    } else if s.awaiting != multiset{} {
      var job :| job in s.awaiting;
      var e := LoopResumes(job, []);
      StepKeepsWorking(o, s, e);
      OneStep(o, s, e);
      es, s' := [e], Step(o, s, e);
      if o.delay > 0.0 {
        var more, s2 := DelayTurns(o, s');
        Join(o, s, es, s', more, s2);
        es, s' := es + more, s2;
      } else {
        var t := s.(awaiting := s.awaiting - multiset{job});
        TurnStarts(o, t);
        TurnKeepsState(o, t);
      }
    } else {
      StepKeepsWorking(o, s, Tick);
      OneStep(o, s, Tick);
      TickAdds(o, s);
      var s1 := Step(o, s, Tick);
      var more;
      more, s' := ImmediateTurns(o, s1);
      es := [Tick] + more;
      Join(o, s, [Tick], s1, more, s');
    }
  }

  lemma NobodyPending(o: LimiterOptions, s: LimiterState)
    requires Working(o, s) && s.running == multiset{}
    ensures s.pending == 0 && (s.onDelayTime ==> s.delaying > 0)
    ensures s.queue.jobs != [] && !LoopOutstanding(s) ==> RefillComing(o, s)
  {
  }

  lemma ImmediateTurns(o: LimiterOptions, s: LimiterState) returns (es: seq<Event>, s': LimiterState)
    requires Working(o, s) && s.pending == 0 && Granted(o, s) && s.immediates > 0
    ensures Leads(o, s, es, s') && Working(o, s') && |s'.queue.jobs| < |s.queue.jobs|
  {
    hide Leads, Good, Take, NextJob;
    var e := ImmediateFires([]);
    StepKeepsWorking(o, s, e);
    OneStep(o, s, e);
    es, s' := [e], Step(o, s, e);
    var t := s.(immediates := s.immediates - 1);
    TurnStarts(o, t);
    TurnKeepsState(o, t);
  }

  lemma DelayTurns(o: LimiterOptions, s: LimiterState) returns (es: seq<Event>, s': LimiterState)
    requires Working(o, s) && s.pending == 0 && Granted(o, s) && s.delaying > 0
    ensures Leads(o, s, es, s') && Working(o, s') && |s'.queue.jobs| < |s.queue.jobs|
  {
    hide Leads, Good, Take, NextJob;
    var e := DelayOver([]);
    StepKeepsWorking(o, s, e);
    OneStep(o, s, e);
    es, s' := [e], Step(o, s, e);
    var t := s.(delaying := s.delaying - 1, onDelayTime := false);
    TurnStarts(o, t);
    TurnKeepsState(o, t);
  }

  lemma {:induction false} ServeAll(o: LimiterOptions, s: LimiterState) returns (es: seq<Event>, s': LimiterState)
    requires Working(o, s)
    ensures Leads(o, s, es, s') && s'.queue.jobs == []
    decreases |s.queue.jobs|
  {
    hide Leads, Working, Granted;
    if s.queue.jobs == [] {
      es, s' := [], s;
      NoSteps(o, s);
    } else {
      var e1, s1 := EndAllJobs(o, s);
      var n := 0;
      if o.queue.bucketSize != 0.0 {
        FrontFits(o, s1);
        n := EnoughIntervals(s1.queue.jobs[0].weight - s1.queue.tokens, o.queue.tokensPerInterval);
      }
      var e2, s2 := FillBucket(o, s1, n);
      var e3, s3 := SomeLoopTurns(o, s2);
      var e4;
      e4, s' := ServeAll(o, s3);
      Join(o, s, e1, s1, e2, s2);
      Join(o, s, e1 + e2, s2, e3, s3);
      Join(o, s, e1 + e2 + e3, s3, e4, s');
      es := e1 + e2 + e3 + e4;
    }
  }

  /** From every reachable state of a started limiter whose timer is alive, by jobs ending, loops turning,
      delays ending and ticks alone, the queue can run empty. */
  lemma QueueCanBeServed(o: LimiterOptions, es: seq<Event>) returns (more: seq<Event>)
    requires o.Valid() && Legal(o, Init(o), es) && JobsFit(o, es)
    requires TimerAlive(o, Exec(o, Init(o), es)) && Exec(o, Init(o), es).state != Stopped
    ensures Legal(o, Exec(o, Init(o), es), more) && forall e :: e in more ==> Internal(e)
    ensures Exec(o, Exec(o, Init(o), es), more).queue.jobs == []
  {
    hide Good, TimerAlive, Legal, Exec, JobsFit;
    NewIsGood(o);
    AlwaysGood(o, Init(o), es, true);
    var s';
    more, s' := ServeAll(o, Exec(o, Init(o), es));
  }

  lemma NewIsGood(o: LimiterOptions)
    requires o.Valid()
    ensures Good(o, Init(o), true)
  {
  }

  // ---------------------------------------------------------------- every fair run

  /** One moment of a run without help from outside; nothing may happen in it. */
  ghost predicate Moves(o: LimiterOptions, s: LimiterState, e: Option<Event>, s': LimiterState) {
    match e
    case None => s' == s
    case Some(e) => Enabled(s, e) && Internal(e) && s' == Step(o, s, e)
  }

  ghost predicate Follows(o: LimiterOptions, run: nat -> LimiterState, ev: nat -> Option<Event>) {
    forall i: nat :: Moves(o, run(i), ev(i), run(i + 1))
  }

  ghost predicate Eventually(ev: nat -> Option<Event>, i: nat, e: Event) { exists j: nat :: j >= i && ev(j) == Some(e) }

  /** Started jobs end, queued loops fire, delays end, loops whose job has ended resume, and an armed refill
      timer ticks, each sooner or later. */
  ghost predicate Fair(run: nat -> LimiterState, ev: nat -> Option<Event>) {
    && (forall i: nat, job :: job in run(i).running ==> Eventually(ev, i, JobDone(job)))
    && (forall i: nat :: run(i).immediates > 0 ==> Eventually(ev, i, ImmediateFires([])))
    && (forall i: nat :: run(i).delaying > 0 ==> Eventually(ev, i, DelayOver([])))
    && (forall i: nat, job :: job in run(i).awaiting && job !in run(i).running ==>
          Eventually(ev, i, LoopResumes(job, [])))
    && (forall i: nat :: run(i).queue.refillArmed ==> Eventually(ev, i, Tick))
  }

  /** Nothing was started, and nothing is further from being so. */
  ghost predicate Calm(s: LimiterState, s': LimiterState) {
    && s'.queue.jobs == s.queue.jobs && s'.running <= s.running
    && s'.queue.tokens >= s.queue.tokens && s'.queue.refillArmed == s.queue.refillArmed
  }

  ghost predicate Fewer(s: LimiterState, s': LimiterState) { |s'.queue.jobs| < |s.queue.jobs| }

  lemma TurnIsCalm(o: LimiterOptions, s: LimiterState)
    ensures Fewer(s, NextJob(o, s, [])) || NextJob(o, s, []) == s
  {
    hide Take, NextJob;
    TurnKeepsState(o, s);
    if Take(o, s).1.None? { NoTurn(o, s); }
  }

  lemma NoTurn(o: LimiterOptions, s: LimiterState)
    requires Take(o, s).1.None?
    ensures NextJob(o, s, []) == s
  {
  }

  /** Every step starts a job or is calm. */
  lemma StepIsCalm(o: LimiterOptions, s: LimiterState, e: Event)
    requires Working(o, s) && Enabled(s, e) && Internal(e)
    ensures Fewer(s, Step(o, s, e)) || Calm(s, Step(o, s, e))
  {
    hide Step, Working, Enabled, Calm, Fewer;
    match e
    case Tick => TickIsCalm(o, s);
    case JobDone(job) => EndIsCalm(o, s, job);
    case _ => LoopStepIsCalm(o, s, e);
  }

  lemma LoopStepIsCalm(o: LimiterOptions, s: LimiterState, e: Event)
    requires Enabled(s, e) && Internal(e) && !e.Tick? && !e.JobDone?
    ensures Fewer(s, Step(o, s, e)) || Calm(s, Step(o, s, e))
  {
    hide NextJob, Take;
    match e
    case ImmediateFires(_) => TurnIsCalm(o, s.(immediates := s.immediates - 1));
    case LoopResumes(job, _) => TurnIsCalm(o, s.(awaiting := s.awaiting - multiset{job}));
    case DelayOver(_) => TurnIsCalm(o, s.(delaying := s.delaying - 1, onDelayTime := false));
  }

  lemma EndIsCalm(o: LimiterOptions, s: LimiterState, job: Job)
    requires Enabled(s, JobDone(job))
    ensures Calm(s, Step(o, s, JobDone(job)))
  {
  }

  lemma TickIsCalm(o: LimiterOptions, s: LimiterState)
    requires Working(o, s) && Enabled(s, Tick)
    ensures Calm(s, Step(o, s, Tick))
  {
    hide Good;
    TickAdds(o, s);
  }

  /** So is every stretch of a run. */
  lemma {:induction false} Between(
    o: LimiterOptions, run: nat -> LimiterState, ev: nat -> Option<Event>, i: nat, j: nat)
    requires Follows(o, run, ev) && Working(o, run(i)) && i <= j
    ensures Working(o, run(j)) && |run(j).queue.jobs| <= |run(i).queue.jobs|
    ensures Fewer(run(i), run(j)) || Calm(run(i), run(j))
    decreases j - i
  {
    hide Working, Step, Enabled, Internal;
    if i < j {
      Between(o, run, ev, i, j - 1);
      assert Moves(o, run(j - 1), ev(j - 1), run(j - 1 + 1));
      if ev(j - 1).Some? {
        StepKeepsWorking(o, run(j - 1), ev(j - 1).value);
        StepIsCalm(o, run(j - 1), ev(j - 1).value);
      }
    }
  }

  lemma When(ev: nat -> Option<Event>, i: nat, e: Event) returns (j: nat)
    requires Eventually(ev, i, e)
    ensures j >= i && ev(j) == Some(e)
  {
    j :| j >= i && ev(j) == Some(e);
  }

  lemma Happens(o: LimiterOptions, run: nat -> LimiterState, ev: nat -> Option<Event>, k: nat, e: Event)
    requires Follows(o, run, ev) && ev(k) == Some(e)
    ensures Enabled(run(k), e) && Internal(e) && run(k + 1) == Step(o, run(k), e)
  {
    assert Moves(o, run(k), ev(k), run(k + 1));
  }

  /** Either something is started, or there comes a moment when no started job is left. */
  lemma {:induction false} AllJobsEnd(o: LimiterOptions, run: nat -> LimiterState, ev: nat -> Option<Event>, i: nat)
    returns (j: nat)
    requires Follows(o, run, ev) && Fair(run, ev) && Working(o, run(i))
    ensures j >= i && (Fewer(run(i), run(j)) || (run(j).running == multiset{} && Calm(run(i), run(j))))
    decreases |run(i).running|
  {
    hide Working, Step, Enabled, Internal;
    j := i;
    if run(i).running != multiset{} {
      var job :| job in run(i).running;
      var k := When(ev, i, JobDone(job));
      Between(o, run, ev, i, k);
      if Calm(run(i), run(k)) {
        Happens(o, run, ev, k, JobDone(job));
        EndTakesOne(o, run(k), job);
        Between(o, run, ev, k, k + 1);
        FewerRunning(run(i).running, run(k).running, run(k + 1).running, job);
        j := AllJobsEnd(o, run, ev, k + 1);
      } else {
        j := k;
      }
    }
  }

  lemma EndTakesOne(o: LimiterOptions, s: LimiterState, job: Job)
    requires Enabled(s, JobDone(job))
    ensures job in s.running && Step(o, s, JobDone(job)).running == s.running - multiset{job}
    ensures Step(o, s, JobDone(job)).queue == s.queue
  {
  }

  lemma FewerRunning(a: multiset<Job>, b: multiset<Job>, c: multiset<Job>, job: Job)
    requires b <= a && job in b && c == b - multiset{job}
    ensures |c| < |a|
  {
    assert a == b + (a - b) && b == c + multiset{job};
  }

  /** Then either something is started, or there comes a moment when the bucket grants the front job. */
  lemma {:induction false} BucketFills(
    o: LimiterOptions, run: nat -> LimiterState, ev: nat -> Option<Event>, i: nat, n: nat)
    returns (j: nat)
    requires Follows(o, run, ev) && Fair(run, ev) && Working(o, run(i))
    requires run(i).running == multiset{} && run(i).queue.jobs != []
    requires o.queue.bucketSize != 0.0 ==>
               run(i).queue.tokens + QR.Times(n, o.queue.tokensPerInterval) >= run(i).queue.jobs[0].weight
    ensures j >= i && (Fewer(run(i), run(j)) || (Granted(o, run(j)) && Calm(run(i), run(j))))
    decreases n
  {
    hide Working, Step, Enabled, Internal;
    j := i;
    if !Granted(o, run(i)) {
      FrontFits(o, run(i));
      var k := When(ev, i, Tick);
      Between(o, run, ev, i, k);
      j := k;
      if Calm(run(i), run(k)) && !Granted(o, run(k)) {
        Happens(o, run, ev, k, Tick);
        TickAdds(o, run(k));
        Between(o, run, ev, k, k + 1);
        if n > 1 { TimesIsNoLess(n - 1, o.queue.tokensPerInterval); }
        j := BucketFills(o, run, ev, k + 1, n - 1);
      }
    }
  }

  /** Nobody runs, and a loop that turned would start the front job. */
  ghost predicate Ready(o: LimiterOptions, s: LimiterState) { s.running == multiset{} && Granted(o, s) }

  lemma StaysReady(o: LimiterOptions, s: LimiterState, s': LimiterState)
    requires Ready(o, s) && Calm(s, s')
    ensures Ready(o, s')
  {
  }

  lemma ReadyTurnStarts(o: LimiterOptions, s: LimiterState, t: LimiterState)
    requires Working(o, s) && Ready(o, s) && t.queue == s.queue && t.pending == s.pending && t.state == s.state
    ensures Fewer(s, NextJob(o, t, []))
  {
    hide NextJob, Good, Take;
    NobodyPending(o, s);
    TurnStarts(o, t);
    TurnKeepsState(o, t);
  }

  lemma ImmediateServes(o: LimiterOptions, run: nat -> LimiterState, ev: nat -> Option<Event>, i: nat) returns (j: nat)
    requires Follows(o, run, ev) && Fair(run, ev) && Working(o, run(i)) && Ready(o, run(i)) && run(i).immediates > 0
    ensures j >= i && Fewer(run(i), run(j))
  {
    hide Working, Enabled, Internal, NextJob, Ready;
    j := When(ev, i, ImmediateFires([]));
    Between(o, run, ev, i, j);
    if Calm(run(i), run(j)) {
      Happens(o, run, ev, j, ImmediateFires([]));
      StaysReady(o, run(i), run(j));
      ReadyTurnStarts(o, run(j), run(j).(immediates := run(j).immediates - 1));
      j := j + 1;
    }
  }

  lemma DelayServes(o: LimiterOptions, run: nat -> LimiterState, ev: nat -> Option<Event>, i: nat) returns (j: nat)
    requires Follows(o, run, ev) && Fair(run, ev) && Working(o, run(i)) && Ready(o, run(i)) && run(i).delaying > 0
    ensures j >= i && Fewer(run(i), run(j))
  {
    hide Working, Internal, NextJob, Ready;
    j := When(ev, i, DelayOver([]));
    Between(o, run, ev, i, j);
    if Calm(run(i), run(j)) {
      Happens(o, run, ev, j, DelayOver([]));
      StaysReady(o, run(i), run(j));
      ReadyTurnStarts(o, run(j), run(j).(delaying := run(j).delaying - 1, onDelayTime := false));
      j := j + 1;
    }
  }

  lemma ResumptionServes(o: LimiterOptions, run: nat -> LimiterState, ev: nat -> Option<Event>, i: nat, job: Job)
    returns (j: nat)
    requires Follows(o, run, ev) && Fair(run, ev) && Working(o, run(i)) && Ready(o, run(i)) && job in run(i).awaiting
    ensures j >= i && Fewer(run(i), run(j))
  {
    hide Working, NextJob, Internal;
    j := When(ev, i, LoopResumes(job, []));
    Between(o, run, ev, i, j);
    if Calm(run(i), run(j)) {
      Happens(o, run, ev, j, LoopResumes(job, []));
      StaysReady(o, run(i), run(j));
      if o.delay > 0.0 {
        Between(o, run, ev, j, j + 1);
        StaysReady(o, run(j), run(j + 1));
        j := DelayServes(o, run, ev, j + 1);
      } else {
        ReadyTurnStarts(o, run(j), run(j).(awaiting := run(j).awaiting - multiset{job}));
        j := j + 1;
      }
    }
  }

  lemma OutstandingServes(o: LimiterOptions, run: nat -> LimiterState, ev: nat -> Option<Event>, i: nat)
    returns (j: nat)
    requires Follows(o, run, ev) && Fair(run, ev) && Working(o, run(i)) && Ready(o, run(i)) && LoopOutstanding(run(i))
    ensures j >= i && Fewer(run(i), run(j))
  {
    hide Working, Follows, Fair, Ready;
    if run(i).immediates > 0 {
      j := ImmediateServes(o, run, ev, i);
    } else if run(i).delaying > 0 {
      j := DelayServes(o, run, ev, i);
    } else {
      var job :| job in run(i).awaiting;
      j := ResumptionServes(o, run, ev, i, job);
    }
  }

  /** Then some loop turns: one that is outstanding, or the one the next tick queues. */
  lemma LoopServes(o: LimiterOptions, run: nat -> LimiterState, ev: nat -> Option<Event>, i: nat) returns (j: nat)
    requires Follows(o, run, ev) && Fair(run, ev) && Working(o, run(i)) && Ready(o, run(i))
    ensures j >= i && Fewer(run(i), run(j))
  {
    hide Working, LoopOutstanding, Enabled, Internal, Step;
    NobodyPending(o, run(i));
    if LoopOutstanding(run(i)) {
      j := OutstandingServes(o, run, ev, i);
    } else {
      j := When(ev, i, Tick);
      Between(o, run, ev, i, j);
      if Calm(run(i), run(j)) {
        StaysReady(o, run(i), run(j));
        NobodyPending(o, run(j));
        if LoopOutstanding(run(j)) {
          j := OutstandingServes(o, run, ev, j);
        } else {
          Happens(o, run, ev, j, Tick);
          TickQueuesLoop(o, run(j));
          Between(o, run, ev, j, j + 1);
          StaysReady(o, run(j), run(j + 1));
          j := ImmediateServes(o, run, ev, j + 1);
        }
      }
    }
  }

  lemma TickQueuesLoop(o: LimiterOptions, s: LimiterState)
    requires Enabled(s, Tick) && RefillComing(o, s) && !LoopOutstanding(s) && s.queue.jobs != []
    requires s.onDelayTime ==> s.delaying > 0
    ensures Step(o, s, Tick).immediates > 0 && Step(o, s, Tick).queue.jobs == s.queue.jobs
  {
  }

  lemma {:induction false} RunServes(o: LimiterOptions, run: nat -> LimiterState, ev: nat -> Option<Event>, i: nat)
    returns (j: nat)
    requires Follows(o, run, ev) && Fair(run, ev) && Working(o, run(i))
    ensures j >= i && run(j).queue.jobs == []
    decreases |run(i).queue.jobs|
  {
    hide Working, Follows, Fair, Granted;
    j := i;
    if run(i).queue.jobs != [] {
      var k := SomethingStarts(o, run, ev, i);
      Between(o, run, ev, i, k);
      j := RunServes(o, run, ev, k);
    }
  }

  lemma SomethingStarts(o: LimiterOptions, run: nat -> LimiterState, ev: nat -> Option<Event>, i: nat) returns (j: nat)
    requires Follows(o, run, ev) && Fair(run, ev) && Working(o, run(i)) && run(i).queue.jobs != []
    ensures j >= i && Fewer(run(i), run(j))
  {
    hide Working, Follows, Fair, Granted;
    j := AllJobsEnd(o, run, ev, i);
    Between(o, run, ev, i, j);
    if !Fewer(run(i), run(j)) {
      var n := 0;
      if o.queue.bucketSize != 0.0 {
        FrontFits(o, run(j));
        n := EnoughIntervals(run(j).queue.jobs[0].weight - run(j).queue.tokens, o.queue.tokensPerInterval);
      }
      var k := BucketFills(o, run, ev, j, n);
      Between(o, run, ev, j, k);
      if Fewer(run(j), run(k)) {
        j := k;
      } else {
        j := LoopServes(o, run, ev, k);
      }
    }
  }

  /** Nothing waits for ever: in every fair run without help from outside, from whatever state a started
      limiter with a live timer has reached, there is a moment from which on its queue is empty. */
  lemma NothingWaitsForEver(
    o: LimiterOptions, es: seq<Event>, run: nat -> LimiterState, ev: nat -> Option<Event>) returns (j: nat)
    requires o.Valid() && Legal(o, Init(o), es) && JobsFit(o, es) && run(0) == Exec(o, Init(o), es)
    requires TimerAlive(o, run(0)) && run(0).state != Stopped && Follows(o, run, ev) && Fair(run, ev)
    ensures forall k :: k >= j ==> run(k).queue.jobs == []
  {
    hide Good, TimerAlive, Legal, Exec, JobsFit, Follows, Fair;
    NewIsGood(o);
    AlwaysGood(o, Init(o), es, true);
    j := RunServes(o, run, ev, 0);
    Between(o, run, ev, 0, j);
    forall k | k >= j ensures run(k).queue.jobs == [] { Between(o, run, ev, j, k); }
  }
}
