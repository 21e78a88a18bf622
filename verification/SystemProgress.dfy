/** Nothing waits for ever on either level: in every fair run of the piped system without jobs from outside,
    both levels' queues run empty. */
module SystemProgress {
  import opened Wrappers
  import opened QueueSpec
  import opened LimiterSpec
  import opened LimiterRuns
  import opened LimiterProgress
  import opened SchedulerSpec
  import opened SchedulerRuns
  import SS = SchedulerSpec

  // ---------------------------------------------------------------- fair runs of the system

  /** Steps the event loop makes by itself: tasks end, loops of either level go on, timers tick. */
  predicate InternalEvent(e: SystemEvent) {
    match e
    case OnMain(e) => Internal(e) && !e.JobDone?
    case OnResource(_, e) => Internal(e) && !e.JobDone?
    case TaskDone(_, _) => true
  }

  ghost predicate SystemMoves(o: SystemOptions, s: System, e: Option<SystemEvent>, s': System) {
    match e
    case None => s' == s
    case Some(e) => Possible(o, s, e) && InternalEvent(e) && s' == SystemStep(o, s, e)
  }

  ghost predicate SystemFollows(o: SystemOptions, run: nat -> System, ev: nat -> Option<SystemEvent>) {
    forall i: nat :: SystemMoves(o, run(i), ev(i), run(i + 1))
  }

  ghost predicate Comes(ev: nat -> Option<SystemEvent>, i: nat, e: SystemEvent) {
    exists j: nat :: j >= i && ev(j) == Some(e)
  }

  ghost predicate TaskEnds(ev: nat -> Option<SystemEvent>, i: nat, job: Job) {
    exists r: nat, j: nat :: j >= i && ev(j) == Some(TaskDone(r, job))
  }

  /** One of the limiters of the system. */
  datatype Which = Main | Resource(r: nat)

  function At(which: Which, e: Event): SystemEvent {
    match which
    case Main => OnMain(e)
    case Resource(r) => OnResource(r, e)
  }

  /** The loops of a limiter go on, and its armed timer ticks, sooner or later. */
  ghost predicate LoopsGoOn(s: LimiterState, ev: nat -> Option<SystemEvent>, i: nat, which: Which) {
    && (s.immediates > 0 ==> Comes(ev, i, At(which, ImmediateFires([]))))
    && (s.delaying > 0 ==> Comes(ev, i, At(which, DelayOver([]))))
    && (forall job :: job in s.awaiting && job !in s.running ==> Comes(ev, i, At(which, LoopResumes(job, []))))
    && (s.queue.refillArmed ==> Comes(ev, i, At(which, Tick)))
  }

  /** And the executing tasks end. */
  ghost predicate SystemFair(run: nat -> System, ev: nat -> Option<SystemEvent>) {
    && (forall i: nat, job :: job in run(i).main.running ==> TaskEnds(ev, i, job))
    && (forall i: nat :: LoopsGoOn(run(i).main, ev, i, Main))
    && (forall i: nat, r: nat :: r < |run(i).resources| ==> LoopsGoOn(run(i).resources[r], ev, i, Resource(r)))
  }

  // ---------------------------------------------------------------- what every step keeps

  ghost predicate Alive(o: LimiterOptions, s: LimiterState) { TimerAlive(o, s) && s.state != Stopped }

  /** Every limiter works, and nothing is lost between the levels. */
  ghost predicate SystemWorking(o: SystemOptions, s: System) {
    && o.Valid() && NeverDrops(o) && AllGood(o, s, true) && Conserved(s)
    && Alive(o.main, s.main) && forall r :: 0 <= r < |s.resources| ==> Alive(o.resources[r], s.resources[r])
  }

  lemma GoodEitherWay(o: SystemOptions, s: System)
    requires AllGood(o, s, true)
    ensures AllGood(o, s, false)
  {
    forall r | 0 <= r < |s.resources| ensures Good(o.resources[r], s.resources[r], false) {
      assert Good(o.resources[r], s.resources[r], true);
    }
  }

  lemma WorkingParts(o: SystemOptions, s: System)
    requires SystemWorking(o, s)
    ensures |s.resources| == |o.resources| && Working(o.main, s.main)
    ensures forall r :: 0 <= r < |s.resources| ==> Working(o.resources[r], s.resources[r])
  {
    forall r | 0 <= r < |s.resources| ensures Working(o.resources[r], s.resources[r]) {
      assert Alive(o.resources[r], s.resources[r]) && o.resources[r].Valid();
    }
  }

  lemma {:induction false} PumpKeepsResource(
    mo: LimiterOptions, ro: LimiterOptions, main: LimiterState, res: LimiterState)
    ensures var p := Pump(mo, ro, main, res);
            && p.resource.state == res.state && p.resource.queue.refillArmed == res.queue.refillArmed
            && |p.resource.queue.jobs| <= |res.queue.jobs|
            && (Take(ro, res).1.Some? ==> |p.resource.queue.jobs| < |res.queue.jobs|)
            && (Take(ro, res).1.None? ==> p.main == main && p.resource == res)
    decreases |res.queue.jobs|
  {
    hide Take, After, Schedule;
    var (s1, job) := Take(ro, res);
    if job.Some? {
      TakesTheFront(ro, res);
      TakeKeepsState(ro, res);
      var (main', accepted) := Schedule(mo, main, job.value);
      var s3 := Park(if accepted then s1 else Finish(s1, job.value), After(ro, s1), job.value);
      if After(ro, s1).GoOn? { PumpKeepsResource(mo, ro, main', s3); }
    }
  }

  /** The resource limiter just before its loop, and the step it makes on its own when nothing is taken. */
  lemma PrepareIsCalm(ro: LimiterOptions, res: LimiterState, e: Event)
    requires Enabled(res, e) && Internal(e) && !e.JobDone?
    ensures var (res', runs) := Prepare(ro, res, e);
            && res'.state == res.state && res'.queue.refillArmed == res.queue.refillArmed
            && res'.queue.jobs == res.queue.jobs
            && (!runs ==> res' == Step(ro, res, e))
            && (runs && Take(ro, res').1.None? ==> res' == Step(ro, res, e))
  {
    hide Take;
    var (res', runs) := Prepare(ro, res, e);
    if Take(ro, res').1.None? { NoTurn(ro, res'); }
  }

  lemma AliveStays(o: LimiterOptions, s: LimiterState, s': LimiterState)
    requires Alive(o, s) && s'.state == s.state && s'.queue.refillArmed == s.queue.refillArmed
    ensures Alive(o, s')
  {
  }

  lemma WorkingIsAlive(o: LimiterOptions, s: LimiterState)
    requires Working(o, s)
    ensures Alive(o, s)
  {
  }

  /** What an internal step of resource `r` does to the limiters. */
  lemma ResourceStep(o: SystemOptions, s: System, r: nat, e: Event)
    requires SystemWorking(o, s) && Possible(o, s, OnResource(r, e)) && InternalEvent(OnResource(r, e))
    ensures var s' := SystemStep(o, s, OnResource(r, e));
            && |s'.resources| == |s.resources|
            && (forall q :: 0 <= q < |s.resources| && q != r ==> s'.resources[q] == s.resources[q])
            && Alive(o.main, s'.main) && Alive(o.resources[r], s'.resources[r])
            && |s'.resources[r].queue.jobs| <= |s.resources[r].queue.jobs|
            && (Fewer(s.resources[r], s'.resources[r])
                || (s'.main == s.main && s'.resources[r] == Step(o.resources[r], s.resources[r], e)))
  {
    hide Pump, Prepare, Take, Step, Alive, AllGood, Conserved, NeverDrops, Enabled, Internal;
    var ro, was := o.resources[r], s.resources[r];
    var (res, runs) := Prepare(ro, was, e);
    PrepareIsCalm(ro, was, e);
    if runs {
      GoodEitherWay(o, s);
      GoodWithinSlots(o, s);
      PrepareKeepsRunning(ro, was, e);
      ResourceFits(o, s, r);
      PumpCounts(o.main, ro, s.main, res);
      PumpKeepsResource(o.main, ro, s.main, res);
      AliveStays(o.main, s.main, Pump(o.main, ro, s.main, res).main);
      AliveStays(ro, was, Pump(o.main, ro, s.main, res).resource);
    } else {
      AliveStays(ro, was, res);
    }
  }

  lemma StepKeepsSystemWorking(o: SystemOptions, s: System, e: SystemEvent)
    requires SystemWorking(o, s) && Possible(o, s, e) && InternalEvent(e)
    ensures SystemWorking(o, SystemStep(o, s, e))
  {
    hide AllGood, Conserved, NeverDrops, Alive, Step, Finish, Pump, Prepare;
    InternalIsPlain(o, e);
    GoodEitherWay(o, s);
    SystemStepConserves(o, s, e);
    SystemStepKeepsAllGood(o, s, e, true);
    WorkingParts(o, s);
    match e
    case OnMain(e') =>
      StepKeepsWorking(o.main, s.main, e');
      WorkingIsAlive(o.main, Step(o.main, s.main, e'));
    case OnResource(r, e') =>
      ResourceStep(o, s, r, e');
    case TaskDone(r, job) =>
      FinishIsCalm(s.main, job);
      FinishIsCalm(s.resources[r], job);
      AliveStays(o.main, s.main, Finish(s.main, job));
      AliveStays(o.resources[r], s.resources[r], Finish(s.resources[r], job));
  }

  lemma InternalIsPlain(o: SystemOptions, e: SystemEvent)
    requires InternalEvent(e)
    ensures !Meddles(e) && Fitting(o, e)
  {
  }

  lemma FinishIsCalm(s: LimiterState, job: Job)
    ensures Finish(s, job).state == s.state && Finish(s, job).queue == s.queue
  {
  }

  // ---------------------------------------------------------------- one limiter's part of a run

  /** Jobs waiting in the resources. */
  function Waiting(rs: seq<LimiterState>): nat {
    if rs == [] then 0 else |rs[0].queue.jobs| + Waiting(rs[1..])
  }

  ghost predicate NoneGrows(rs: seq<LimiterState>, rs': seq<LimiterState>) {
    |rs| == |rs'| && forall r :: 0 <= r < |rs| ==> |rs'[r].queue.jobs| <= |rs[r].queue.jobs|
  }

  lemma {:induction false} WaitingCompares(rs: seq<LimiterState>, rs': seq<LimiterState>)
    requires NoneGrows(rs, rs')
    ensures Waiting(rs') <= Waiting(rs)
    ensures Waiting(rs') == Waiting(rs) ==> forall r :: 0 <= r < |rs| ==> !Fewer(rs[r], rs'[r])
  {
    if rs != [] {
      WaitingCompares(rs[1..], rs'[1..]);
      forall r | 0 <= r < |rs| && Waiting(rs') == Waiting(rs) ensures !Fewer(rs[r], rs'[r]) {
        if r > 0 { assert rs[r] == rs[1..][r-1] && rs'[r] == rs'[1..][r-1]; }
      }
    }
  }

  /** The limiter's state, and the event it sees. */
  function Part(which: Which, s: System): LimiterState {
    match which
    case Main => s.main
    case Resource(r) => if r < |s.resources| then s.resources[r] else s.main
  }

  function Seen(which: Which, e: Option<SystemEvent>): Option<Event> {
    match e
    case None => None
    case Some(OnMain(e)) => if which.Main? then Some(e) else None
    case Some(OnResource(r, e)) => if which == Resource(r) then Some(e) else None
    case Some(TaskDone(r, job)) => if which.Main? || which == Resource(r) then Some(JobDone(job)) else None
  }

  function OptionsOf(o: SystemOptions, which: Which): LimiterOptions {
    match which
    case Main => o.main
    case Resource(r) => if r < |o.resources| then o.resources[r] else o.main
  }

  predicate Known(o: SystemOptions, which: Which) { which.Resource? ==> which.r < |o.resources| }

  predicate Within(which: Which, s: System) { which.Resource? ==> which.r < |s.resources| }

  /** A step adds to no queue of the resources, and if it takes from none, each limiter makes a step of its
      own or none. */
  lemma StepIsOneLimiters(o: SystemOptions, s: System, e: SystemEvent, which: Which)
    requires SystemWorking(o, s) && Possible(o, s, e) && InternalEvent(e) && Known(o, which)
    ensures var s' := SystemStep(o, s, e);
            && NoneGrows(s.resources, s'.resources)
            && (Waiting(s'.resources) == Waiting(s.resources) ==>
                  Moves(OptionsOf(o, which), Part(which, s), Seen(which, Some(e)), Part(which, s')))
  {
    hide Step, Pump, Prepare, Finish, Waiting, Fewer, SystemWorking, Enabled, Internal;
    var s' := SystemStep(o, s, e);
    WorkingParts(o, s);
    match e
    case OnMain(e') =>
    case OnResource(r, e') =>
      ResourceStep(o, s, r, e');
      WaitingCompares(s.resources, s'.resources);
    case TaskDone(r, job) =>
      FinishIsCalm(s.resources[r], job);
      TaskIsJob(o.main, s.main, job);
      TaskIsJob(o.resources[r], s.resources[r], job);
  }

  lemma TaskIsJob(o: LimiterOptions, s: LimiterState, job: Job)
    requires job in s.running
    ensures Enabled(s, JobDone(job)) && Internal(JobDone(job)) && Step(o, s, JobDone(job)) == Finish(s, job)
  {
  }

  lemma {:induction false} SystemBetween(
    o: SystemOptions, run: nat -> System, ev: nat -> Option<SystemEvent>, i: nat, j: nat)
    requires SystemFollows(o, run, ev) && SystemWorking(o, run(i)) && i <= j
    ensures SystemWorking(o, run(j)) && NoneGrows(run(i).resources, run(j).resources)
    decreases j - i
  {
    hide SystemWorking, SystemStep, Possible, InternalEvent;
    if i < j {
      SystemBetween(o, run, ev, i, j - 1);
      assert SystemMoves(o, run(j - 1), ev(j - 1), run(j - 1 + 1));
      if ev(j - 1).Some? {
        StepKeepsSystemWorking(o, run(j - 1), ev(j - 1).value);
        StepIsOneLimiters(o, run(j - 1), ev(j - 1).value, Main);
      }
    }
  }

  /** From moment `i` on, no job leaves a resource's queue. */
  ghost predicate Stuck(run: nat -> System, i: nat) {
    forall j: nat :: j >= i ==> Waiting(run(j).resources) == Waiting(run(i).resources)
  }

  function Shifted(run: nat -> System, which: Which, i: nat): (part: nat -> LimiterState)
    ensures forall k: nat :: part(k) == Part(which, run(i + k))
  {
    (k: nat) => Part(which, run(i + k))
  }

  function ShiftedEvents(ev: nat -> Option<SystemEvent>, which: Which, i: nat): (seen: nat -> Option<Event>)
    ensures forall k: nat :: seen(k) == Seen(which, ev(i + k))
  {
    (k: nat) => Seen(which, ev(i + k))
  }

  /** While the resources are stuck, each limiter makes a run of its own. */
  lemma PartFollows(o: SystemOptions, run: nat -> System, ev: nat -> Option<SystemEvent>, which: Which, i: nat)
    requires SystemFollows(o, run, ev) && SystemWorking(o, run(i)) && Stuck(run, i) && Known(o, which)
    ensures Follows(OptionsOf(o, which), Shifted(run, which, i), ShiftedEvents(ev, which, i))
    ensures Working(OptionsOf(o, which), Shifted(run, which, i)(0))
  {
    hide SystemWorking, SystemStep, Possible, InternalEvent, Moves, Waiting, Working;
    var part, seen := Shifted(run, which, i), ShiftedEvents(ev, which, i);
    WorkingParts(o, run(i));
    forall k: nat ensures Moves(OptionsOf(o, which), part(k), seen(k), part(k + 1)) {
      SystemBetween(o, run, ev, i, i + k);
      assert SystemMoves(o, run(i + k), ev(i + k), run(i + k + 1));
      assert Waiting(run(i + k).resources) == Waiting(run(i + k + 1).resources);
      if ev(i + k).Some? {
        StepIsOneLimiters(o, run(i + k), ev(i + k).value, which);
      } else {
        NothingMoves(OptionsOf(o, which), part(k));
      }
    }
  }

  lemma NothingMoves(o: LimiterOptions, s: LimiterState)
    ensures Moves(o, s, None, s)
  {
  }

  lemma ComesIsSeen(ev: nat -> Option<SystemEvent>, which: Which, i: nat, k: nat, e: Event)
    requires Comes(ev, i + k, At(which, e))
    ensures Eventually(ShiftedEvents(ev, which, i), k, e)
  {
    var seen := ShiftedEvents(ev, which, i);
    var j: nat :| j >= i + k && ev(j) == Some(At(which, e));
    assert seen(j - i) == Seen(which, ev(i + (j - i)));
  }

  /** What the loops of one limiter promise, read in its own run. */
  lemma PartGoesOn(ev: nat -> Option<SystemEvent>, which: Which, i: nat, s: LimiterState, k: nat)
    requires LoopsGoOn(s, ev, i + k, which)
    ensures var seen := ShiftedEvents(ev, which, i);
            && (s.immediates > 0 ==> Eventually(seen, k, ImmediateFires([])))
            && (s.delaying > 0 ==> Eventually(seen, k, DelayOver([])))
            && (forall job :: job in s.awaiting && job !in s.running ==> Eventually(seen, k, LoopResumes(job, [])))
            && (s.queue.refillArmed ==> Eventually(seen, k, Tick))
  {
    hide Eventually, Comes, ShiftedEvents, At;
    if s.immediates > 0 { ComesIsSeen(ev, which, i, k, ImmediateFires([])); }
    if s.delaying > 0 { ComesIsSeen(ev, which, i, k, DelayOver([])); }
    forall job | job in s.awaiting && job !in s.running
      ensures Eventually(ShiftedEvents(ev, which, i), k, LoopResumes(job, []))
    {
      ComesIsSeen(ev, which, i, k, LoopResumes(job, []));
    }
    if s.queue.refillArmed { ComesIsSeen(ev, which, i, k, Tick); }
  }

  lemma PartIsLive(run: nat -> System, ev: nat -> Option<SystemEvent>, which: Which, j: nat)
    requires SystemFair(run, ev) && Within(which, run(j))
    ensures LoopsGoOn(Part(which, run(j)), ev, j, which)
  {
    hide LoopsGoOn, TaskEnds;
  }

  lemma MainTasksEnd(run: nat -> System, ev: nat -> Option<SystemEvent>, i: nat, k: nat, job: Job)
    requires SystemFair(run, ev) && job in run(i + k).main.running
    ensures Eventually(ShiftedEvents(ev, Main, i), k, JobDone(job))
  {
    hide LoopsGoOn;
    var seen := ShiftedEvents(ev, Main, i);
    assert TaskEnds(ev, i + k, job);
    var r: nat, j: nat :| j >= i + k && ev(j) == Some(TaskDone(r, job));
    assert seen(j - i) == Seen(Main, ev(i + (j - i)));
  }

  /** A limiter's own run is fair, if its started jobs end. */
  lemma PartIsFair(run: nat -> System, ev: nat -> Option<SystemEvent>, which: Which, i: nat)
    requires SystemFair(run, ev) && forall j: nat :: j >= i ==> Within(which, run(j))
    requires forall k: nat, job :: job in Shifted(run, which, i)(k).running ==>
               Eventually(ShiftedEvents(ev, which, i), k, JobDone(job))
    ensures Fair(Shifted(run, which, i), ShiftedEvents(ev, which, i))
  {
    hide Eventually, LoopsGoOn, SystemFair, Shifted, ShiftedEvents, Part, Seen;
    var part, seen := Shifted(run, which, i), ShiftedEvents(ev, which, i);
    forall k: nat
      ensures part(k).immediates > 0 ==> Eventually(seen, k, ImmediateFires([]))
      ensures part(k).delaying > 0 ==> Eventually(seen, k, DelayOver([]))
      ensures forall job :: job in part(k).awaiting && job !in part(k).running ==>
                Eventually(seen, k, LoopResumes(job, []))
      ensures part(k).queue.refillArmed ==> Eventually(seen, k, Tick)
    {
      assert Within(which, run(i + k));
      PartIsLive(run, ev, which, i + k);
      PartGoesOn(ev, which, i, part(k), k);
    }
  }

  // ---------------------------------------------------------------- both levels run empty

  /** While the resources are stuck the main limiter serves and finishes all it holds. */
  lemma MainRunsEmpty(o: SystemOptions, run: nat -> System, ev: nat -> Option<SystemEvent>, i: nat) returns (j: nat)
    requires SystemFollows(o, run, ev) && SystemFair(run, ev) && SystemWorking(o, run(i)) && Stuck(run, i)
    ensures j >= i && run(j).main.queue.jobs == [] && run(j).main.running == multiset{}
  {
    hide SystemWorking, SystemFollows, SystemFair, Working, Follows, Fair, Stuck, Shifted, ShiftedEvents, Eventually;
    var part, seen := Shifted(run, Main, i), ShiftedEvents(ev, Main, i);
    PartFollows(o, run, ev, Main, i);
    forall k: nat, job | job in part(k).running ensures Eventually(seen, k, JobDone(job)) {
      MainTasksEnd(run, ev, i, k, job);
    }
    PartIsFair(run, ev, Main, i);
    var k := RunServes(o.main, part, seen, 0);
    Between(o.main, part, seen, 0, k);
    var l := AllJobsEnd(o.main, part, seen, k);
    j := i + l;
  }

  lemma NothingHeldNothingStarted(o: SystemOptions, s: System)
    requires Conserved(s) && s.main.queue.jobs == [] && s.main.running == multiset{}
    ensures forall r :: 0 <= r < |s.resources| ==> s.resources[r].running == multiset{}
  {
    NoneStarted(s.resources);
  }

  lemma {:induction false} NoneStarted(rs: seq<LimiterState>)
    requires Started(rs) == multiset{}
    ensures forall r :: 0 <= r < |rs| ==> rs[r].running == multiset{}
  {
    if rs != [] {
      assert rs[0].running <= Started(rs) && Started(rs[1..]) <= Started(rs);
      NoneStarted(rs[1..]);
      forall r | 0 <= r < |rs| ensures rs[r].running == multiset{} { if r > 0 { assert rs[r] == rs[1..][r-1]; } }
    }
  }

  lemma {:induction false} SomeWaits(rs: seq<LimiterState>) returns (r: nat)
    requires Waiting(rs) > 0
    ensures r < |rs| && rs[r].queue.jobs != []
  {
    if rs[0].queue.jobs != [] {
      r := 0;
    } else {
      var i := SomeWaits(rs[1..]);
      r := i + 1;
    }
  }

  lemma WorkingConserves(o: SystemOptions, s: System)
    requires SystemWorking(o, s)
    ensures Conserved(s)
  {
  }

  /** A resource that has nothing started starts nothing while the resources are stuck. */
  lemma StaysIdle(o: SystemOptions, run: nat -> System, ev: nat -> Option<SystemEvent>, i: nat, r: nat, j: nat)
    requires SystemFollows(o, run, ev) && SystemWorking(o, run(i)) && Stuck(run, i) && j >= i
    requires r < |run(i).resources| && run(i).resources[r].running == multiset{}
    ensures Within(Resource(r), run(j)) && run(j).resources[r].running == multiset{}
  {
    hide SystemWorking, SystemFollows, Working, Follows, Waiting;
    var which := Resource(r);
    WorkingParts(o, run(i));
    PartFollows(o, run, ev, which, i);
    SystemBetween(o, run, ev, i, j);
    WaitingCompares(run(i).resources, run(j).resources);
    var part := Shifted(run, which, i);
    Between(o.resources[r], part, ShiftedEvents(ev, which, i), 0, j - i);
    assert part(0) == Part(which, run(i + 0)) && part(j - i) == Part(which, run(i + (j - i)));
  }

  /** With nothing started, a resource with a waiting job starts one. */
  lemma ResourceServes(o: SystemOptions, run: nat -> System, ev: nat -> Option<SystemEvent>, i: nat, r: nat)
    returns (j: nat)
    requires SystemFollows(o, run, ev) && SystemFair(run, ev) && SystemWorking(o, run(i)) && Stuck(run, i)
    requires r < |run(i).resources| && run(i).resources[r].queue.jobs != []
    requires run(i).resources[r].running == multiset{}
    ensures j >= i && Within(Resource(r), run(j)) && Fewer(run(i).resources[r], run(j).resources[r])
  {
    hide SystemWorking, SystemFollows, SystemFair, Working, Follows, Fair, Stuck, Shifted, ShiftedEvents, Eventually;
    var which := Resource(r);
    var part, seen := Shifted(run, which, i), ShiftedEvents(ev, which, i);
    WorkingParts(o, run(i));
    PartFollows(o, run, ev, which, i);
    forall k: nat | k >= i ensures Within(which, run(k)) && run(k).resources[r].running == multiset{} {
      StaysIdle(o, run, ev, i, r, k);
    }
    PartIsFair(run, ev, which, i);
    var k := SomethingStarts(o.resources[r], part, seen, 0);
    j := i + k;
  }

  /** The resources do not stay stuck while a job waits in one of them. */
  lemma NeverStuck(o: SystemOptions, run: nat -> System, ev: nat -> Option<SystemEvent>, i: nat)
    requires SystemFollows(o, run, ev) && SystemFair(run, ev) && SystemWorking(o, run(i))
    requires Waiting(run(i).resources) > 0
    ensures !Stuck(run, i)
  {
    hide SystemWorking, SystemFollows, SystemFair, Waiting, Conserved, Stuck;
    if Stuck(run, i) {
      var k := MainRunsEmpty(o, run, ev, i);
      SystemBetween(o, run, ev, i, k);
      WorkingConserves(o, run(k));
      NothingHeldNothingStarted(o, run(k));
      StuckLater(run, i, k);
      var r := SomeWaits(run(k).resources);
      var j := ResourceServes(o, run, ev, k, r);
      SystemBetween(o, run, ev, k, j);
      StuckLater(run, k, j);
      WaitingCompares(run(k).resources, run(j).resources);
    }
  }

  lemma StuckLater(run: nat -> System, i: nat, j: nat)
    requires Stuck(run, i) && j >= i
    ensures Stuck(run, j) && Waiting(run(j).resources) == Waiting(run(i).resources)
  {
    hide Waiting;
  }

  lemma SomethingLeaves(o: SystemOptions, run: nat -> System, ev: nat -> Option<SystemEvent>, i: nat) returns (j: nat)
    requires SystemFollows(o, run, ev) && SystemFair(run, ev) && SystemWorking(o, run(i))
    requires Waiting(run(i).resources) > 0
    ensures j >= i && Waiting(run(j).resources) < Waiting(run(i).resources)
  {
    hide SystemWorking, SystemFollows, SystemFair, Waiting;
    NeverStuck(o, run, ev, i);
    j :| j >= i && Waiting(run(j).resources) != Waiting(run(i).resources);
    SystemBetween(o, run, ev, i, j);
    WaitingCompares(run(i).resources, run(j).resources);
  }

  lemma {:induction false} ResourcesRunEmpty(
    o: SystemOptions, run: nat -> System, ev: nat -> Option<SystemEvent>, i: nat)
    returns (j: nat)
    requires SystemFollows(o, run, ev) && SystemFair(run, ev) && SystemWorking(o, run(i))
    ensures j >= i && Waiting(run(j).resources) == 0
    decreases Waiting(run(i).resources)
  {
    hide SystemWorking, SystemFollows, SystemFair, Waiting;
    j := i;
    if Waiting(run(i).resources) > 0 {
      var k := SomethingLeaves(o, run, ev, i);
      SystemBetween(o, run, ev, i, k);
      j := ResourcesRunEmpty(o, run, ev, k);
    }
  }

  lemma {:induction false} NothingWaits(rs: seq<LimiterState>)
    requires Waiting(rs) == 0
    ensures forall r :: 0 <= r < |rs| ==> rs[r].queue.jobs == []
  {
    if rs != [] {
      NothingWaits(rs[1..]);
      forall r | 0 <= r < |rs| ensures rs[r].queue.jobs == [] { if r > 0 { assert rs[r] == rs[1..][r-1]; } }
    }
  }

  predicate Idle(s: LimiterState) { s.queue.jobs == [] && s.running == multiset{} }

  /** On neither level a job waits or is started. */
  ghost predicate Settled(s: System) {
    Idle(s.main) && forall r :: 0 <= r < |s.resources| ==> Idle(s.resources[r])
  }

  lemma EmptyForGood(o: SystemOptions, run: nat -> System, ev: nat -> Option<SystemEvent>, i: nat) returns (j: nat)
    requires SystemFollows(o, run, ev) && SystemFair(run, ev) && SystemWorking(o, run(i))
    requires Waiting(run(i).resources) == 0
    ensures j >= i && forall k :: k >= j ==> Settled(run(k))
  {
    hide SystemWorking, SystemFollows, SystemFair, Waiting, Working, Follows, Shifted, ShiftedEvents;
    forall k: nat | k >= i ensures Waiting(run(k).resources) == 0 {
      SystemBetween(o, run, ev, i, k);
      WaitingCompares(run(i).resources, run(k).resources);
    }
    j := MainRunsEmpty(o, run, ev, i);
    SystemBetween(o, run, ev, i, j);
    assert Stuck(run, j);
    PartFollows(o, run, ev, Main, j);
    var part := Shifted(run, Main, j);
    forall k | k >= j ensures Settled(run(k)) {
      Between(o.main, part, ShiftedEvents(ev, Main, j), 0, k - j);
      assert part(k - j) == Part(Main, run(j + (k - j)));
      NothingWaits(run(k).resources);
      SystemBetween(o, run, ev, j, k);
      WorkingConserves(o, run(k));
      NothingHeldNothingStarted(o, run(k));
    }
  }

  /** Nothing waits for ever on either level: in every fair run of the system without jobs from outside, from
      any state its runs reach in which no limiter is stopped and no timer dead, with a main limiter that
      never drops and jobs that fit the buckets, there is a moment from which on all queues are empty and
      every task has ended. */
  lemma NothingWaitsOnEitherLevel(
    o: SystemOptions, es: seq<SystemEvent>, run: nat -> System, ev: nat -> Option<SystemEvent>) returns (j: nat)
    requires o.Valid() && NeverDrops(o) && SS.Legal(o, Start(o), es) && Unmeddled(es) && AllFitting(o, es)
    requires run(0) == SS.Exec(o, Start(o), es) && SystemFollows(o, run, ev) && SystemFair(run, ev)
    requires Alive(o.main, run(0).main) && |run(0).resources| == |o.resources|
    requires forall r :: 0 <= r < |o.resources| ==> Alive(o.resources[r], run(0).resources[r])
    ensures forall k :: k >= j ==> Settled(run(k))
  {
    hide SS.Legal, SS.Exec, SystemFollows, SystemFair, Alive, AllGood, NeverDrops, Waiting, Settled;
    TwoLevelConservation(o, es);
    StartIsAllGood(o, true);
    AlwaysAllGood(o, Start(o), es, true);
    var i := ResourcesRunEmpty(o, run, ev, 0);
    SystemBetween(o, run, ev, 0, i);
    j := EmptyForGood(o, run, ev, i);
  }
}
