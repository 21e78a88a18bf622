/** What the two levels of limiters keep together over every run. */
module SchedulerRuns {
  import opened QueueSpec
  import opened LimiterSpec
  import opened LimiterRuns
  import opened SchedulerSpec
  import SS = SchedulerSpec

  // ---------------------------------------------------------------- each limiter alone

  function WithFates(e: Event, fates: seq<bool>): Event {
    match e
    case ImmediateFires(_) => ImmediateFires(fates)
    case LoopResumes(job, _) => LoopResumes(job, fates)
    case DelayOver(_) => DelayOver(fates)
    case StartLimiter(_) => StartLimiter(fates)
    case _ => e
  }

  /** The loop of a piped limiter is the loop of a single one, with the refusals it met as fates. */
  lemma {:induction false} PumpIsNextJob(mo: LimiterOptions, ro: LimiterOptions, main: LimiterState, res: LimiterState)
    ensures Pump(mo, ro, main, res).resource == NextJob(ro, res, Pump(mo, ro, main, res).fates)
    decreases |res.queue.jobs|
  {
    hide Take, Finish, Park, After, Schedule;
    var (s1, job) := Take(ro, res);
    if job.Some? {
      TakesTheFront(ro, res);
      var (main', accepted) := Schedule(mo, main, job.value);
      FinishAndParkKeepQueue(s1, !accepted, After(ro, s1), job.value);
      var s2 := if accepted then s1 else Finish(s1, job.value);
      var s3 := Park(s2, After(ro, s1), job.value);
      if After(ro, s1).GoOn? {
        PumpIsNextJob(mo, ro, main', s3);
        var p := Pump(mo, ro, main', s3);
        assert ([!accepted] + p.fates)[1..] == p.fates;
      }
    }
  }

  /** So a resource limiter inside the system makes a step of a single limiter. */
  lemma ResourceMakesItsOwnStep(o: SystemOptions, s: System, r: nat, e: Event) returns (e': Event)
    requires Possible(o, s, OnResource(r, e))
    ensures Enabled(s.resources[r], e') && (e'.ScheduleJob? <==> e.ScheduleJob?) && (e.ScheduleJob? ==> e' == e)
    ensures SystemStep(o, s, OnResource(r, e)).resources
            == s.resources[r := Step(o.resources[r], s.resources[r], e')]
  {
    hide Pump, NextJob, Schedule;
    var (res, runs) := Prepare(o.resources[r], s.resources[r], e);
    if runs {
      PumpIsNextJob(o.main, o.resources[r], s.main, res);
      e' := WithFates(e, Pump(o.main, o.resources[r], s.main, res).fates);
    } else {
      e' := e;
    }
  }

  /** Every limiter of the system keeps the invariant of a single limiter. */
  ghost predicate AllGood(o: SystemOptions, s: System, fit: bool) {
    && |s.resources| == |o.resources|
    && Good(o.main, s.main, fit)
    && (forall r :: 0 <= r < |s.resources| ==> Good(o.resources[r], s.resources[r], fit))
    && (fit ==> forall r :: 0 <= r < |s.resources| ==> WeightsFit(o.main, s.resources[r].queue.jobs))
  }

  /** The jobs a step schedules fit the bucket of their own limiter and of the main one. */
  ghost predicate Fitting(o: SystemOptions, e: SystemEvent) {
    match e
    case OnMain(e) => e.ScheduleJob? ==> FitsBucket(o.main, e.job)
    case OnResource(r, e) =>
      e.ScheduleJob? && r < |o.resources| ==> FitsBucket(o.main, e.job) && FitsBucket(o.resources[r], e.job)
    case _ => true
  }

  lemma {:induction false} PumpKeepsMainGood(
    mo: LimiterOptions, ro: LimiterOptions, main: LimiterState, res: LimiterState, fit: bool)
    requires mo.Valid() && Good(mo, main, fit) && (fit ==> WeightsFit(mo, res.queue.jobs))
    ensures Good(mo, Pump(mo, ro, main, res).main, fit)
    ensures forall x :: x in Pump(mo, ro, main, res).resource.queue.jobs ==> x in res.queue.jobs
    decreases |res.queue.jobs|
  {
    hide Take, Finish, Park, After, Schedule, Good, FitsBucket;
    var (s1, job) := Take(ro, res);
    if job.Some? {
      TakesTheFront(ro, res);
      assert job.value in res.queue.jobs;
      ScheduleKeepsGood(mo, main, job.value, fit);
      var (main', accepted) := Schedule(mo, main, job.value);
      FinishAndParkKeepQueue(s1, !accepted, After(ro, s1), job.value);
      var s2 := if accepted then s1 else Finish(s1, job.value);
      var s3 := Park(s2, After(ro, s1), job.value);
      if After(ro, s1).GoOn? { PumpKeepsMainGood(mo, ro, main', s3, fit); }
    }
  }

  lemma PrepareKeepsQueue(ro: LimiterOptions, res: LimiterState, e: Event)
    requires Enabled(res, e) && Prepare(ro, res, e).1
    ensures Prepare(ro, res, e).0.queue == res.queue
  {
  }

  /** No step adds a job to a queue but the one it schedules. */
  lemma QueueGrowsByScheduling(o: LimiterOptions, s: LimiterState, e: Event)
    requires Enabled(s, e) && !Prepare(o, s, e).1
    ensures forall x :: x in Prepare(o, s, e).0.queue.jobs ==> x in s.queue.jobs || (e.ScheduleJob? && x == e.job)
  {
    match e
    case ScheduleJob(job) =>
      InsertMembers(MakeRoom(o.queue, s.queue, job).0.jobs, job);
    case _ =>
  }

  lemma SystemStepKeepsAllGood(o: SystemOptions, s: System, e: SystemEvent, fit: bool)
    requires o.Valid() && AllGood(o, s, fit) && Possible(o, s, e) && (fit ==> Fitting(o, e))
    ensures AllGood(o, SystemStep(o, s, e), fit)
  {
    hide Good, Step, Pump, Prepare, Finish, FitsBucket;
    match e
    case OnMain(e') => StepKeepsGood(o.main, s.main, e', fit);
    case OnResource(r, e') =>
      OnResourceKeepsAllGood(o, s, r, e', fit);
    case TaskDone(r, job) =>
      JobDoneKeepsGood(o.main, s.main, job, fit);
      JobDoneKeepsGood(o.resources[r], s.resources[r], job, fit);
      FinishKeepsQueue(s.resources[r], job);
  }

  lemma FinishKeepsQueue(s: LimiterState, job: Job)
    ensures Finish(s, job).queue == s.queue
  {
  }

  lemma OnResourceKeepsAllGood(o: SystemOptions, s: System, r: nat, e: Event, fit: bool)
    requires o.Valid() && AllGood(o, s, fit) && Possible(o, s, OnResource(r, e))
    requires fit ==> Fitting(o, OnResource(r, e))
    ensures AllGood(o, SystemStep(o, s, OnResource(r, e)), fit)
  {
    hide Good, Step, Pump, Prepare, FitsBucket, Enabled;
    var e' := ResourceMakesItsOwnStep(o, s, r, e);
    StepKeepsGood(o.resources[r], s.resources[r], e', fit);
    var (res, runs) := Prepare(o.resources[r], s.resources[r], e);
    var s' := SystemStep(o, s, OnResource(r, e));
    if runs {
      PrepareKeepsQueue(o.resources[r], s.resources[r], e);
      PumpKeepsMainGood(o.main, o.resources[r], s.main, res, fit);
    } else {
      QueueGrowsByScheduling(o.resources[r], s.resources[r], e);
    }
    if fit {
      assert forall x :: x in s'.resources[r].queue.jobs ==> FitsBucket(o.main, x);
    }
  }

  ghost predicate AllFitting(o: SystemOptions, es: seq<SystemEvent>) {
    forall e :: e in es ==> Fitting(o, e)
  }

  lemma {:induction false} AlwaysAllGood(o: SystemOptions, s: System, es: seq<SystemEvent>, fit: bool)
    requires o.Valid() && AllGood(o, s, fit) && SS.Legal(o, s, es) && (fit ==> AllFitting(o, es))
    ensures AllGood(o, SS.Exec(o, s, es), fit)
    decreases |es|
  {
    hide AllGood, SystemStep, Possible, Fitting;
    if es != [] {
      assert es[0] in es;
      SystemStepKeepsAllGood(o, s, es[0], fit);
      assert forall e :: e in es[1..] ==> e in es;
      AlwaysAllGood(o, SystemStep(o, s, es[0]), es[1..], fit);
    }
  }

  lemma StartIsAllGood(o: SystemOptions, fit: bool)
    requires o.Valid()
    ensures AllGood(o, Start(o), fit)
  {
  }

  /** No lost wake-up on either level: no limiter of the system sleeps over a waiting job. */
  lemma BothLevelsStayAwake(o: SystemOptions, es: seq<SystemEvent>)
    requires o.Valid() && SS.Legal(o, Start(o), es) && AllFitting(o, es)
    ensures var s := SS.Exec(o, Start(o), es);
            && (TimerAlive(o.main, s.main) ==> Awake(o.main, s.main))
            && |s.resources| == |o.resources|
            && (forall r :: 0 <= r < |s.resources| && TimerAlive(o.resources[r], s.resources[r]) ==>
                  Awake(o.resources[r], s.resources[r]))
  {
    StartIsAllGood(o, true);
    AlwaysAllGood(o, Start(o), es, true);
  }

  // ---------------------------------------------------------------- conservation

  /** Everything the main limiter holds: waiting or executing. */
  function Held(main: LimiterState): multiset<Job> { multiset(main.queue.jobs) + main.running }

  /** Everything the resource limiters count as started. */
  function Started(rs: seq<LimiterState>): multiset<Job> {
    if rs == [] then multiset{} else rs[0].running + Started(rs[1..])
  }

  function TotalPending(rs: seq<LimiterState>): int {
    if rs == [] then 0 else rs[0].pending + TotalPending(rs[1..])
  }

  lemma Regroup(a: multiset<Job>, b: multiset<Job>, c: multiset<Job>, d: multiset<Job>, e: multiset<Job>)
    requires b + c == d + e
    ensures (a + b) + c == (a + d) + e
  {
    assert (a + b) + c == a + (b + c);
    assert (a + d) + e == a + (d + e);
  }

  lemma Cancel(a: multiset<Job>, b: multiset<Job>, c: multiset<Job>)
    requires a + c == b + c
    ensures a == b
  {
    assert a == (a + c) - c && b == (b + c) - c;
  }

  lemma {:induction false} StartedUpdate(rs: seq<LimiterState>, r: nat, x: LimiterState)
    requires r < |rs|
    ensures Started(rs[r := x]) + rs[r].running == Started(rs) + x.running
  {
    var rs' := rs[r := x];
    if r == 0 {
      assert rs'[1..] == rs[1..];
    } else {
      StartedUpdate(rs[1..], r - 1, x);
      Regroup(rs[0].running, Started(rs[1..][r - 1 := x]), rs[r].running, Started(rs[1..]), x.running);
      assert rs'[1..] == rs[1..][r - 1 := x] && rs[1..][r - 1] == rs[r] && rs'[0] == rs[0];
    }
  }

  /** The main limiter, as it stands, takes or refuses this job without dropping another. */
  ghost predicate NoDrop(o: QueueOptions, q: QueueState, job: Job) {
    || q.blocked || HasRoom(o, q) || o.strategy.Overflow?
    || (o.strategy.OverflowPriority? && forall x :: x in q.jobs ==> x.priority > job.priority - 1.0)
  }

  /** Without a drop, the queue keeps its jobs while room is made. */
  lemma NoDropKeepsQueue(o: QueueOptions, q: QueueState, job: Job)
    requires NoDrop(o, q, job)
    ensures MakeRoom(o, q, job).0.jobs == q.jobs
  {
  }

  lemma DropShrinksQueue(o: QueueOptions, q: QueueState, job: Job)
    requires o.Valid() && !NoDrop(o, q, job)
    ensures |MakeRoom(o, q, job).0.jobs| < |q.jobs|
  {
  }

  lemma HeldAfterOffer(o: LimiterOptions, main: LimiterState, job: Job)
    ensures var (main', accepted) := Schedule(o, main, job);
            var (q', _) := MakeRoom(o.queue, main.queue, job);
            Held(main') == multiset(q'.jobs) + main.running + (if accepted then multiset{job} else multiset{})
  {
    InsertPermutes(MakeRoom(o.queue, main.queue, job).0.jobs, job);
  }

  /** One offer keeps every held job exactly when nothing is dropped for it. */
  lemma OfferKeepsJobsIffNoDrop(o: LimiterOptions, main: LimiterState, job: Job)
    requires o.Valid()
    ensures var (main', accepted) := Schedule(o, main, job);
            Held(main') == Held(main) + (if accepted then multiset{job} else multiset{})
            <==> NoDrop(o.queue, main.queue, job)
  {
    hide Schedule, MakeRoom, NoDrop;
    HeldAfterOffer(o, main, job);
    if NoDrop(o.queue, main.queue, job) {
      NoDropKeepsQueue(o.queue, main.queue, job);
    } else {
      DropShrinksQueue(o.queue, main.queue, job);
      var more := if Schedule(o, main, job).1 then multiset{job} else multiset{};
      assert |Held(Schedule(o, main, job).0)| < |Held(main) + more|;
    }
  }

  // ---------------------------------------------------------------- nothing executes that nobody started

  lemma WithoutIsPart(q: seq<Job>, i: nat)
    requires i < |q|
    ensures multiset(Without(q, i)) <= multiset(q)
  {
    assert q == q[..i] + [q[i]] + q[i+1..];
  }

  lemma MakeRoomIsPart(o: QueueOptions, s: QueueState, job: Job)
    ensures multiset(MakeRoom(o, s, job).0.jobs) <= multiset(s.jobs)
  {
    hide Without, FirstAtMost;
    var threshold := if o.strategy.Leak? && s.jobs != [] then s.jobs[0].priority else job.priority - 1.0;
    var i := FirstAtMost(s.jobs, threshold);
    if i < |s.jobs| { WithoutIsPart(s.jobs, i); }
  }

  lemma OfferCovers(o: LimiterOptions, main: LimiterState, job: Job)
    ensures var (main', accepted) := Schedule(o, main, job);
            Held(main') <= Held(main) + (if accepted then multiset{job} else multiset{})
  {
    hide Schedule, MakeRoom;
    HeldAfterOffer(o, main, job);
    MakeRoomIsPart(o.queue, main.queue, job);
  }

  /** One loop of a resource limiter: the main limiter gets no more jobs than the resource counts started. */
  lemma {:induction false} PumpCovers(mo: LimiterOptions, ro: LimiterOptions, main: LimiterState, res: LimiterState)
    ensures var p := Pump(mo, ro, main, res);
            Held(p.main) + res.running <= Held(main) + p.resource.running
    decreases |res.queue.jobs|
  {
    hide Schedule, After, Take, Held;
    var (s1, job) := Take(ro, res);
    if job.Some? {
      TakesTheFront(ro, res);
      var (main', accepted) := Schedule(mo, main, job.value);
      OfferCovers(mo, main, job.value);
      FinishAndParkKeepQueue(s1, !accepted, After(ro, s1), job.value);
      var s2 := if accepted then s1 else Finish(s1, job.value);
      var s3 := Park(s2, After(ro, s1), job.value);
      var given := if accepted then multiset{job.value} else multiset{};
      assert s3.running == res.running + given;
      if After(ro, s1).GoOn? {
        PumpCovers(mo, ro, main', s3);
        var p := Pump(mo, ro, main', s3);
        Forward(Held(p.main), res.running, given, Held(main'), Held(main), p.resource.running);
      } else {
        Regroup(Held(main), multiset{}, res.running + given, given, res.running);
      }
    }
  }

  lemma Forward(
    hp: multiset<Job>, r: multiset<Job>, given: multiset<Job>, h': multiset<Job>, h: multiset<Job>, pr: multiset<Job>)
    requires hp + (r + given) <= h' + pr && h' <= h + given
    ensures hp + r <= h + pr
  {
    forall j ensures (hp + r)[j] <= (h + pr)[j] {
      assert (hp + (r + given))[j] <= (h' + pr)[j] && h'[j] <= (h + given)[j];
    }
  }

  /** Every job the main limiter holds is one some resource limiter has started. */
  ghost predicate Covered(s: System) { Held(s.main) <= Started(s.resources) }

  /** A job given to the main limiter from outside, not by one of its resources. */
  ghost predicate Direct(e: SystemEvent) { e.OnMain? && e.e.ScheduleJob? }

  lemma Settle(
    hp: multiset<Job>, r: multiset<Job>, h: multiset<Job>, pr: multiset<Job>, st: multiset<Job>, st': multiset<Job>)
    requires hp + r <= h + pr && h <= st && st' + r == st + pr
    ensures hp <= st'
  {
    forall j ensures hp[j] <= st'[j] {
      assert (hp + r)[j] <= (h + pr)[j] && h[j] <= st[j] && (st' + r)[j] == (st + pr)[j];
    }
  }

  /** The main limiter's own loop only moves jobs from waiting to executing. */
  lemma {:induction false} NextJobKeepsHeld(o: LimiterOptions, s: LimiterState)
    ensures Held(NextJob(o, s, [])) == Held(s)
    decreases |s.queue.jobs|
  {
    hide After;
    var (s1, job) := Take(o, s);
    if job.Some? {
      TakesTheFront(o, s);
      assert s.queue.jobs == [s.queue.jobs[0]] + s.queue.jobs[1..];
      assert Held(s1) == Held(s);
      var s3 := Park(s1, After(o, s1), job.value);
      if After(o, s1).GoOn? { NextJobKeepsHeld(o, s3); }
    }
  }

  lemma MainStepKeepsHeld(o: LimiterOptions, s: LimiterState, e: Event)
    requires Enabled(s, e) && Plain(e) && !e.JobDone? && !e.ScheduleJob? && !e.ClearQueue?
    ensures Held(Step(o, s, e)) == Held(s)
  {
    hide NextJob;
    match e
    case ImmediateFires(_) => NextJobKeepsHeld(o, s.(immediates := s.immediates - 1));
    case LoopResumes(job, _) => NextJobKeepsHeld(o, s.(awaiting := s.awaiting - multiset{job}));
    case DelayOver(_) => NextJobKeepsHeld(o, s.(delaying := s.delaying - 1, onDelayTime := false));
    case StartLimiter(_) => NextJobKeepsHeld(o, s.(state := Starting));
    case _ =>
  }

  /** Clearing throws away exactly the waiting jobs, so it keeps all that is held when none waits. */
  lemma ClearingKeepsHeldIffNothingWaits(o: LimiterOptions, s: LimiterState)
    ensures Held(Step(o, s, ClearQueue)) == s.running
    ensures Held(Step(o, s, ClearQueue)) == Held(s) <==> s.queue.jobs == []
  {
    assert Held(s) == s.running ==> |multiset(s.queue.jobs)| == 0 by {
      assert |Held(s)| == |multiset(s.queue.jobs)| + |s.running|;
    }
  }

  lemma PrepareKeepsRunning(ro: LimiterOptions, res: LimiterState, e: Event)
    requires Enabled(res, e) && !e.JobDone?
    ensures Prepare(ro, res, e).0.running == res.running && Prepare(ro, res, e).0.pending == res.pending
  {
  }

  /** A task that ends leaves both levels by one. */
  lemma TaskDoneTakesOne(s: System, r: nat, job: Job)
    requires r < |s.resources| && job in s.main.running && job in s.resources[r].running
    ensures Held(Finish(s.main, job)) + multiset{job} == Held(s.main)
    ensures Started(s.resources[r := Finish(s.resources[r], job)]) + multiset{job} == Started(s.resources)
  {
    var res := Finish(s.resources[r], job);
    var after := Started(s.resources[r := res]);
    StartedUpdate(s.resources, r, res);
    assert s.resources[r].running == res.running + multiset{job};
    assert (after + multiset{job}) + res.running == after + s.resources[r].running;
    Cancel(after + multiset{job}, Started(s.resources), res.running);
  }

  lemma SystemStepCovers(o: SystemOptions, s: System, e: SystemEvent)
    requires Covered(s) && Possible(o, s, e) && !Direct(e)
    ensures Covered(SystemStep(o, s, e))
  {
    hide Step, Pump, Prepare, Enabled, Finish, Started, Held;
    match e
    case OnMain(e') =>
      if e'.ClearQueue? { ClearingShrinks(o.main, s.main); } else { MainStepKeepsHeld(o.main, s.main, e'); }
    case OnResource(r, e') =>
      var (res, runs) := Prepare(o.resources[r], s.resources[r], e');
      PrepareKeepsRunning(o.resources[r], s.resources[r], e');
      if runs {
        PumpCovers(o.main, o.resources[r], s.main, res);
        var p := Pump(o.main, o.resources[r], s.main, res);
        StartedUpdate(s.resources, r, p.resource);
        Settle(Held(p.main), res.running, Held(s.main), p.resource.running,
          Started(s.resources), Started(s.resources[r := p.resource]));
      } else {
        StartedUpdate(s.resources, r, res);
        Cancel(Started(s.resources[r := res]), Started(s.resources), res.running);
      }
    case TaskDone(r, job) =>
      TaskDoneTakesOne(s, r, job);
      Settle(Held(Finish(s.main, job)), multiset{job}, Held(s.main), multiset{},
        Started(s.resources), Started(s.resources[r := Finish(s.resources[r], job)]));
  }

  lemma ClearingShrinks(o: LimiterOptions, s: LimiterState)
    ensures Held(Step(o, s, ClearQueue)) <= Held(s)
  {
  }

  lemma {:induction false} AlwaysCovered(o: SystemOptions, s: System, es: seq<SystemEvent>)
    requires Covered(s) && SS.Legal(o, s, es) && forall e :: e in es ==> !Direct(e)
    ensures Covered(SS.Exec(o, s, es))
    decreases |es|
  {
    hide Covered, SystemStep, Possible, Direct;
    if es != [] {
      assert es[0] in es;
      SystemStepCovers(o, s, es[0]);
      assert forall e :: e in es[1..] ==> e in es;
      AlwaysCovered(o, SystemStep(o, s, es[0]), es[1..]);
    }
  }

  lemma {:induction false} NothingStarted(rs: seq<LimiterState>)
    requires forall r :: 0 <= r < |rs| ==> rs[r].running == multiset{}
    ensures Started(rs) == multiset{}
  {
    if rs != [] { NothingStarted(rs[1..]); }
  }

  function SumOf(parts: seq<multiset<Job>>): multiset<Job> {
    if parts == [] then multiset{} else parts[0] + SumOf(parts[1..])
  }

  /** What is covered by all of the resources splits into shares covered by each. */
  lemma {:induction false} SplitAmong(m: multiset<Job>, rs: seq<LimiterState>) returns (parts: seq<multiset<Job>>)
    requires m <= Started(rs)
    ensures |parts| == |rs| && SumOf(parts) == m
    ensures forall r :: 0 <= r < |rs| ==> parts[r] <= rs[r].running
  {
    parts := [];
    if rs != [] {
      var first := m * rs[0].running;
      assert m - first <= Started(rs[1..]);
      var rest := SplitAmong(m - first, rs[1..]);
      parts := [first] + rest;
      assert parts[1..] == rest;
    }
  }

  lemma {:induction false} PartIsSmaller(a: multiset<Job>, b: multiset<Job>)
    requires a <= b
    ensures |a| <= |b| && (|a| == |b| ==> a == b)
  {
    assert b == a + (b - a);
    if |a| == |b| { assert |b - a| == 0; }
  }

  /** In every run in which the main limiter gets jobs from its resources only, whatever it drops or clears:
      the executing tasks keep within the main limit, and they split into shares, one for each resource, of
      tasks that resource has started, each share within that resource's own limit. */
  lemma ExecutingWithinBothLimits(o: SystemOptions, es: seq<SystemEvent>) returns (shares: seq<multiset<Job>>)
    requires o.Valid() && SS.Legal(o, Start(o), es) && forall e :: e in es ==> !Direct(e)
    ensures var s := SS.Exec(o, Start(o), es);
            && (o.main.concurrency.AtMost? ==> |s.main.running| as real < o.main.concurrency.bound + 1.0)
            && |shares| == |s.resources| == |o.resources| && SumOf(shares) == s.main.running
            && (forall r :: 0 <= r < |shares| ==> shares[r] <= s.resources[r].running)
            && (forall r :: 0 <= r < |shares| && o.resources[r].concurrency.AtMost? ==>
                  |shares[r]| as real < o.resources[r].concurrency.bound + 1.0)
  {
    NothingStarted(Start(o).resources);
    AlwaysCovered(o, Start(o), es);
    StartIsAllGood(o, false);
    AlwaysAllGood(o, Start(o), es, false);
    var s := SS.Exec(o, Start(o), es);
    assert s.main.running <= Held(s.main);
    shares := SplitAmong(s.main.running, s.resources);
    forall r | 0 <= r < |shares| && o.resources[r].concurrency.AtMost?
      ensures |shares[r]| as real < o.resources[r].concurrency.bound + 1.0
    {
      PartIsSmaller(shares[r], s.resources[r].running);
      assert Good(o.resources[r], s.resources[r], false);
    }
  }

  // ---------------------------------------------------------------- when nothing is lost either

  ghost predicate Conserved(s: System) { Held(s.main) == Started(s.resources) }

  /** Steps that put jobs into the main limiter from outside, or throw waiting ones away. */
  ghost predicate Meddles(e: SystemEvent) { e.OnMain? && (e.e.ScheduleJob? || e.e.ClearQueue?) }

  ghost predicate Unmeddled(es: seq<SystemEvent>) { forall e :: e in es ==> !Meddles(e) }

  /** The least whole number not below `x`: what a count that must stay below `x` can reach. */
  function Ceil(x: real): int { -((-x).Floor) }

  lemma CeilBound(n: int, x: real)
    ensures n as real < x <==> n < Ceil(x)
  {
  }

  ghost predicate Bounded(os: seq<LimiterOptions>) { forall r :: 0 <= r < |os| ==> os[r].concurrency.AtMost? }

  /** How many tasks the resources can have started together. */
  ghost function TotalSlots(os: seq<LimiterOptions>): int
    requires Bounded(os)
  {
    if os == [] then 0 else (assert os[0].concurrency.AtMost?; Ceil(os[0].concurrency.bound)) + TotalSlots(os[1..])
  }

  /** The main queue has room for all that the resources can start. */
  ghost predicate EnoughRoom(o: SystemOptions) {
    || o.main.queue.highWater.Unbounded?
    || (Bounded(o.resources) && TotalSlots(o.resources) <= Ceil(o.main.queue.highWater.bound))
  }

  ghost predicate NeverDrops(o: SystemOptions) { o.main.queue.strategy.Overflow? || EnoughRoom(o) }

  /** The same for one resource, beside `held` jobs in the main limiter of which it has `running`. */
  predicate SlotsFit(mo: LimiterOptions, ro: LimiterOptions, held: int, running: int) {
    || mo.queue.strategy.Overflow? || mo.queue.highWater.Unbounded?
    || (ro.concurrency.AtMost? && held - running + Ceil(ro.concurrency.bound) <= Ceil(mo.queue.highWater.bound))
  }

  lemma FreeSlotMeansRoom(mo: LimiterOptions, ro: LimiterOptions, main: LimiterState, res: LimiterState, job: Job)
    requires SlotsFit(mo, ro, |Held(main)|, |res.running|) && res.pending == |res.running| && !AtCapacity(ro, res)
    ensures NoDrop(mo.queue, main.queue, job)
  {
    assert |Held(main)| == |main.queue.jobs| + |main.running|;
    if ro.concurrency.AtMost? { CeilBound(res.pending, ro.concurrency.bound); }
    if mo.queue.highWater.AtMost? { CeilBound(|main.queue.jobs|, mo.queue.highWater.bound); }
  }

  lemma TakesBelowCapacity(ro: LimiterOptions, res: LimiterState)
    requires Take(ro, res).1.Some?
    ensures !AtCapacity(ro, res) && Take(ro, res).0.pending == res.pending + 1
  {
  }

  /** One loop of a resource limiter that fits moves as many jobs as it counts started. */
  lemma {:induction false} PumpCounts(mo: LimiterOptions, ro: LimiterOptions, main: LimiterState, res: LimiterState)
    requires mo.Valid() && SlotsFit(mo, ro, |Held(main)|, |res.running|) && res.pending == |res.running|
    ensures var p := Pump(mo, ro, main, res);
            && |Held(p.main)| + |res.running| == |Held(main)| + |p.resource.running|
            && p.main.state == main.state && p.main.queue.refillArmed == main.queue.refillArmed
    decreases |res.queue.jobs|
  {
    hide Schedule, NoDrop, After, Take, Held, SlotsFit, AtCapacity, Finish, Park;
    var (s1, job) := Take(ro, res);
    if job.Some? {
      TakesTheFront(ro, res);
      TakesBelowCapacity(ro, res);
      var (main', accepted) := Schedule(mo, main, job.value);
      FreeSlotMeansRoom(mo, ro, main, res, job.value);
      OfferCounts(mo, main, job.value);
      FinishAndParkKeepQueue(s1, !accepted, After(ro, s1), job.value);
      var s2 := if accepted then s1 else Finish(s1, job.value);
      var s3 := Park(s2, After(ro, s1), job.value);
      var given := if accepted then 1 else 0;
      StartCounts(ro, res, accepted);
      if After(ro, s1).GoOn? {
        StillFits(mo, ro, |Held(main)|, |res.running|, given);
        PumpCounts(mo, ro, main', s3);
      }
    }
  }

  lemma OfferCounts(o: LimiterOptions, main: LimiterState, job: Job)
    requires o.Valid() && NoDrop(o.queue, main.queue, job)
    ensures |Held(Schedule(o, main, job).0)| == |Held(main)| + if Schedule(o, main, job).1 then 1 else 0
    ensures Schedule(o, main, job).0.state == main.state
    ensures Schedule(o, main, job).0.queue.refillArmed == main.queue.refillArmed
  {
    hide Schedule, Held, NoDrop;
    OfferKeepsJobsIffNoDrop(o, main, job);
    OfferKeepsTimer(o, main, job);
  }

  lemma OfferKeepsTimer(o: LimiterOptions, main: LimiterState, job: Job)
    requires NoDrop(o.queue, main.queue, job)
    ensures Schedule(o, main, job).0.state == main.state
    ensures Schedule(o, main, job).0.queue.refillArmed == main.queue.refillArmed
  {
  }

  lemma StartCounts(ro: LimiterOptions, res: LimiterState, accepted: bool)
    requires Take(ro, res).1.Some? && res.pending == |res.running|
    ensures var (s1, job) := Take(ro, res);
            var s2 := if accepted then s1 else Finish(s1, job.value);
            var s3 := Park(s2, After(ro, s1), job.value);
            |s3.running| == |res.running| + (if accepted then 1 else 0) && s3.pending == |s3.running|
  {
    hide Take;
    TakesTheFront(ro, res);
    TakesBelowCapacity(ro, res);
  }

  lemma StillFits(mo: LimiterOptions, ro: LimiterOptions, held: int, running: int, more: int)
    requires SlotsFit(mo, ro, held, running)
    ensures SlotsFit(mo, ro, held + more, running + more)
  {
  }

  ghost predicate WithinSlots(os: seq<LimiterOptions>, rs: seq<LimiterState>) {
    |os| == |rs| && forall r :: 0 <= r < |os| && os[r].concurrency.AtMost? ==>
      |rs[r].running| <= Ceil(os[r].concurrency.bound)
  }

  /** Beside what the others have started there is room for all slots of one. */
  lemma {:induction false} SlotsAddUp(os: seq<LimiterOptions>, rs: seq<LimiterState>, r: int)
    requires Bounded(os) && WithinSlots(os, rs) && r < |os|
    ensures |Started(rs)| <= TotalSlots(os)
    ensures r >= 0 ==> |Started(rs)| - |rs[r].running| + Ceil(os[r].concurrency.bound) <= TotalSlots(os)
  {
    if os != [] {
      assert |Started(rs)| == |rs[0].running| + |Started(rs[1..])|;
      SlotsAddUp(os[1..], rs[1..], r - 1);
    }
  }

  lemma GoodWithinSlots(o: SystemOptions, s: System)
    requires AllGood(o, s, false)
    ensures WithinSlots(o.resources, s.resources)
    ensures forall r :: 0 <= r < |s.resources| ==> s.resources[r].pending == |s.resources[r].running|
  {
    forall r | 0 <= r < |s.resources|
      ensures s.resources[r].pending == |s.resources[r].running|
      ensures o.resources[r].concurrency.AtMost? ==> |s.resources[r].running| <= Ceil(o.resources[r].concurrency.bound)
    {
      assert Good(o.resources[r], s.resources[r], false);
      if o.resources[r].concurrency.AtMost? {
        CeilBound(|s.resources[r].running| - 1, o.resources[r].concurrency.bound);
      }
    }
  }

  lemma ResourceFits(o: SystemOptions, s: System, r: nat)
    requires NeverDrops(o) && AllGood(o, s, false) && Conserved(s) && r < |s.resources|
    ensures SlotsFit(o.main, o.resources[r], |Held(s.main)|, |s.resources[r].running|)
  {
    GoodWithinSlots(o, s);
    if !o.main.queue.strategy.Overflow? && o.main.queue.highWater.AtMost? { SlotsAddUp(o.resources, s.resources, r); }
  }

  lemma SystemStepConserves(o: SystemOptions, s: System, e: SystemEvent)
    requires o.Valid() && NeverDrops(o) && AllGood(o, s, false) && Conserved(s) && Possible(o, s, e) && !Meddles(e)
    ensures Conserved(SystemStep(o, s, e))
  {
    hide Step, Pump, Prepare, Enabled, Finish, Started, Held, AllGood, NeverDrops;
    SystemStepCovers(o, s, e);
    match e
    case OnMain(e') => MainStepKeepsHeld(o.main, s.main, e');
    case OnResource(r, e') => ResourceStepConserves(o, s, r, e');
    case TaskDone(r, job) =>
      TaskDoneTakesOne(s, r, job);
      Cancel(Held(Finish(s.main, job)), Started(s.resources[r := Finish(s.resources[r], job)]), multiset{job});
  }

  lemma ResourceStepConserves(o: SystemOptions, s: System, r: nat, e: Event)
    requires o.Valid() && NeverDrops(o) && AllGood(o, s, false) && Conserved(s) && Possible(o, s, OnResource(r, e))
    requires Covered(SystemStep(o, s, OnResource(r, e)))
    ensures Conserved(SystemStep(o, s, OnResource(r, e)))
  {
    hide Step, Pump, Prepare, Enabled, Started, Held, AllGood, NeverDrops, SlotsFit;
    var (res, runs) := Prepare(o.resources[r], s.resources[r], e);
    PrepareKeepsRunning(o.resources[r], s.resources[r], e);
    if runs {
      ResourceFits(o, s, r);
      GoodWithinSlots(o, s);
      PumpCounts(o.main, o.resources[r], s.main, res);
      var p := Pump(o.main, o.resources[r], s.main, res);
      StartedUpdate(s.resources, r, p.resource);
      var after := Started(s.resources[r := p.resource]);
      assert |after| + |res.running| == |after + res.running| == |Started(s.resources) + p.resource.running|;
      PartIsSmaller(Held(p.main), after);
    } else {
      StartedUpdate(s.resources, r, res);
      Cancel(Started(s.resources[r := res]), Started(s.resources), res.running);
    }
  }

  lemma {:induction false} AlwaysConserved(o: SystemOptions, s: System, es: seq<SystemEvent>)
    requires o.Valid() && NeverDrops(o) && AllGood(o, s, false) && Conserved(s) && SS.Legal(o, s, es) && Unmeddled(es)
    ensures Conserved(SS.Exec(o, s, es))
    decreases |es|
  {
    hide Conserved, SystemStep, Possible, Meddles, AllGood, NeverDrops;
    if es != [] {
      assert es[0] in es;
      SystemStepConserves(o, s, es[0]);
      SystemStepKeepsAllGood(o, s, es[0], false);
      assert forall e :: e in es[1..] ==> e in es;
      AlwaysConserved(o, SystemStep(o, s, es[0]), es[1..]);
    }
  }

  lemma {:induction false} CountStarted(rs: seq<LimiterState>)
    requires forall r :: 0 <= r < |rs| ==> rs[r].pending == |rs[r].running|
    ensures TotalPending(rs) == |Started(rs)|
  {
    if rs != [] { CountStarted(rs[1..]); }
  }

  /** Two-level conservation: with a main limiter that only refuses, or has room for all that the resources
      can start, in every run without jobs or clearing from elsewhere, it holds exactly the jobs the
      resource limiters have started, and its size plus its pending count is the sum of theirs. */
  lemma TwoLevelConservation(o: SystemOptions, es: seq<SystemEvent>)
    requires o.Valid() && NeverDrops(o) && SS.Legal(o, Start(o), es) && Unmeddled(es)
    ensures var s := SS.Exec(o, Start(o), es);
            && Held(s.main) == Started(s.resources)
            && |s.main.queue.jobs| + s.main.pending == TotalPending(s.resources)
  {
    NothingStarted(Start(o).resources);
    StartIsAllGood(o, false);
    AlwaysConserved(o, Start(o), es);
    AlwaysAllGood(o, Start(o), es, false);
    var s := SS.Exec(o, Start(o), es);
    GoodWithinSlots(o, s);
    CountStarted(s.resources);
    assert |Held(s.main)| == |s.main.queue.jobs| + |s.main.running|;
  }
}
