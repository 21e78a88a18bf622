/** Exactly when the two levels conserve: runs that fill a stopped main limiter until it must drop. */
module SchedulerExact {
  import opened Wrappers
  import opened QueueSpec
  import opened LimiterSpec
  import opened LimiterRuns
  import opened SchedulerSpec
  import opened SchedulerRuns
  import SS = SchedulerSpec

  lemma {:induction false} OneMoreEvent(o: SystemOptions, s: System, es: seq<SystemEvent>, e: SystemEvent)
    requires SS.Legal(o, s, es) && Possible(o, SS.Exec(o, s, es), e)
    ensures SS.Legal(o, s, es + [e]) && SS.Exec(o, s, es + [e]) == SystemStep(o, SS.Exec(o, s, es), e)
    decreases |es|
  {
    hide SystemStep, Possible;
    if es == [] {
      assert [e][1..] == [] && es + [e] == [e];
      assert SS.Legal(o, SystemStep(o, s, e), []);
      assert SS.Exec(o, SystemStep(o, s, e), []) == SystemStep(o, s, e);
    } else {
      OneMoreEvent(o, SystemStep(o, s, es[0]), es[1..], e);
      assert (es + [e])[1..] == es[1..] + [e];
    }
  }

  lemma NoEvents(o: SystemOptions, s: System)
    ensures SS.Legal(o, s, []) && SS.Exec(o, s, []) == s
  {
  }

  // ---------------------------------------------------------------- one job through a resource

  /** A resource limiter that waits for a job and can pay for one of no weight. */
  ghost predicate Quiet(ro: LimiterOptions, res: LimiterState) {
    res.queue.jobs == [] && !res.queue.blocked && res.queue.tokens >= 0.0 && res.pending == |res.running|
  }

  /** The resource limiter with the one job queued, and started. */
  lemma QueueOne(ro: LimiterOptions, res: LimiterState, job: Job) returns (res1: LimiterState)
    requires ro.Valid() && Quiet(ro, res)
    ensures res1 == Step(ro, res, ScheduleJob(job))
    ensures res1.queue == res.queue.(jobs := [job]) && res1.pending == res.pending && res1.running == res.running
  {
    res1 := Step(ro, res, ScheduleJob(job));
    assert HasRoom(ro.queue, res.queue);
  }

  lemma StartOne(mo: LimiterOptions, ro: LimiterOptions, main: LimiterState, res: LimiterState, job: Job)
    requires ro.Valid() && res.queue.jobs == [job] && !res.queue.blocked && res.queue.tokens >= 0.0
    requires res.pending == |res.running| && res.state != Stopped && job.weight == 0.0 && !AtCapacity(ro, res)
    ensures var p := Pump(mo, ro, main, res);
            && p.main == Schedule(mo, main, job).0 && Quiet(ro, p.resource)
            && p.resource.running == res.running + if Schedule(mo, main, job).1 then multiset{job} else multiset{}
  {
    hide Schedule, Take, After, AtCapacity, Finish, Park, Quiet;
    TakeOne(ro, res, job);
    var s1 := Take(ro, res).0;
    var accepted := Schedule(mo, main, job).1;
    ParkOne(ro, res, s1, accepted, After(ro, s1), job);
    NothingToTake(ro, Park(if accepted then s1 else Finish(s1, job), After(ro, s1), job));
  }

  lemma ParkOne(ro: LimiterOptions, res: LimiterState, s1: LimiterState, accepted: bool, next: Next, job: Job)
    requires s1.running == res.running + multiset{job} && s1.pending == |res.running| + 1
    requires s1.queue.jobs == [] && !s1.queue.blocked && s1.queue.tokens >= 0.0
    ensures var s3 := Park(if accepted then s1 else Finish(s1, job), next, job);
            && Quiet(ro, s3) && s3.queue.jobs == []
            && s3.running == res.running + if accepted then multiset{job} else multiset{}
  {
    assert (res.running + multiset{job}) - multiset{job} == res.running;
  }

  lemma TakeOne(ro: LimiterOptions, res: LimiterState, job: Job)
    requires res.queue.jobs == [job] && res.queue.tokens >= 0.0 && res.state != Stopped && job.weight == 0.0
    requires ro.Valid() && !AtCapacity(ro, res)
    ensures var (s1, taken) := Take(ro, res);
            && taken == Some(job) && s1.running == res.running + multiset{job} && s1.pending == res.pending + 1
            && s1.queue == res.queue.(jobs := [])
  {
  }

  lemma NothingToTake(ro: LimiterOptions, res: LimiterState)
    requires res.queue.jobs == []
    ensures Take(ro, res) == (res, None)
  {
  }

  /** The two events that bring one job to the main limiter through resource `r`. */
  function Bring(r: nat, job: Job): (SystemEvent, SystemEvent) {
    (OnResource(r, ScheduleJob(job)), OnResource(r, StartLimiter([])))
  }

  ghost predicate AllQuiet(o: SystemOptions, s: System) {
    |s.resources| == |o.resources| && forall r :: 0 <= r < |s.resources| ==> Quiet(o.resources[r], s.resources[r])
  }

  lemma BringOne(o: SystemOptions, s: System, r: nat, job: Job) returns (s2: System)
    requires o.Valid() && AllQuiet(o, s) && r < |s.resources| && !AtCapacity(o.resources[r], s.resources[r])
    requires job.weight == 0.0
    ensures Possible(o, s, Bring(r, job).0) && Possible(o, SystemStep(o, s, Bring(r, job).0), Bring(r, job).1)
    ensures s2 == SystemStep(o, SystemStep(o, s, Bring(r, job).0), Bring(r, job).1)
    ensures AllQuiet(o, s2) && s2.main == Schedule(o.main, s.main, job).0
    ensures |Started(s2.resources)| == |Started(s.resources)| + if Schedule(o.main, s.main, job).1 then 1 else 0
  {
    hide Schedule, Pump, Quiet, Started, AtCapacity;
    var ro, res := o.resources[r], s.resources[r];
    QuietParts(ro, res);
    var res1 := QueueOne(ro, res, job);
    var s1 := SystemStep(o, s, Bring(r, job).0);
    assert s1 == s.(resources := s.resources[r := res1]);
    SameCapacity(ro, res, res1.(state := Starting));
    StartOne(o.main, ro, s.main, res1.(state := Starting), job);
    s2 := SystemStep(o, s1, Bring(r, job).1);
    var p := Pump(o.main, ro, s.main, res1.(state := Starting));
    assert s2 == System(p.main, s.resources[r := p.resource]);
    StartedUpdate(s.resources, r, p.resource);
    var after := Started(s.resources[r := p.resource]);
    assert |after + res.running| == |Started(s.resources) + p.resource.running|;
  }

  lemma QuietParts(ro: LimiterOptions, res: LimiterState)
    requires Quiet(ro, res)
    ensures res.queue.jobs == [] && !res.queue.blocked && res.queue.tokens >= 0.0 && res.pending == |res.running|
  {
  }

  lemma SameCapacity(ro: LimiterOptions, a: LimiterState, b: LimiterState)
    requires a.pending == b.pending
    ensures AtCapacity(ro, a) <==> AtCapacity(ro, b)
  {
  }

  // ---------------------------------------------------------------- filling the main limiter

  /** The main limiter is stopped and holds `n` waiting jobs of the one priority, all that was started. */
  ghost predicate Filled(o: SystemOptions, s: System, n: nat) {
    && AllQuiet(o, s) && |Started(s.resources)| == n
    && s.main.state == Stopped && s.main.running == multiset{} && !s.main.queue.blocked
    && |s.main.queue.jobs| == n && forall x :: x in s.main.queue.jobs ==> x.priority == 0.0
  }

  /** Events that neither schedule on the main limiter nor clear it. */
  lemma UnmeddledMore(es: seq<SystemEvent>, e: SystemEvent)
    requires Unmeddled(es) && !Meddles(e)
    ensures Unmeddled(es + [e])
  {
  }

  lemma StopMain(o: SystemOptions) returns (es: seq<SystemEvent>)
    requires o.Valid()
    ensures SS.Legal(o, Start(o), es) && Unmeddled(es) && Filled(o, SS.Exec(o, Start(o), es), 0)
  {
    es := [OnMain(StopLimiter)];
    var s := Start(o);
    NoEvents(o, s);
    OneMoreEvent(o, s, [], OnMain(StopLimiter));
    assert [] + [OnMain(StopLimiter)] == es;
    NothingStarted(s.resources);
    forall r | 0 <= r < |s.resources| ensures Quiet(o.resources[r], s.resources[r]) {
      assert s.resources[r] == Init(o.resources[r]) && o.resources[r].Valid();
    }
  }

  /** While the resources have a slot left, one of them is below its capacity. */
  lemma {:induction false} FreeSlot(os: seq<LimiterOptions>, rs: seq<LimiterState>) returns (r: nat)
    requires |os| == |rs| && forall i :: 0 <= i < |rs| ==> rs[i].pending == |rs[i].running|
    requires Bounded(os) ==> |Started(rs)| < TotalSlots(os)
    ensures r < |rs| && !AtCapacity(os[r], rs[r])
  {
    if os == [] {
      assert Bounded(os);
      assert false;
    }
    if AtCapacity(os[0], rs[0]) {
      CeilBound(rs[0].pending, os[0].concurrency.bound);
      assert |Started(rs)| == |rs[0].running| + |Started(rs[1..])|;
      BoundedTail(os);
      var i := FreeSlot(os[1..], rs[1..]);
      r := i + 1;
    } else {
      r := 0;
    }
  }

  lemma BoundedTail(os: seq<LimiterOptions>)
    requires os != [] && os[0].concurrency.AtMost?
    ensures Bounded(os[1..]) ==> Bounded(os)
  {
  }

  ghost predicate HasSlots(o: SystemOptions, n: int) { Bounded(o.resources) ==> n <= TotalSlots(o.resources) }

  lemma QuietCounts(o: SystemOptions, s: System)
    requires AllQuiet(o, s)
    ensures forall i :: 0 <= i < |s.resources| ==> s.resources[i].pending == |s.resources[i].running|
  {
    forall i | 0 <= i < |s.resources| ensures s.resources[i].pending == |s.resources[i].running| {
      assert Quiet(o.resources[i], s.resources[i]);
    }
  }

  /** One more job fits into a stopped main limiter with room. */
  lemma StoppedMainKeeps(o: LimiterOptions, s: LimiterState, job: Job)
    requires !s.queue.blocked && HasRoom(o.queue, s.queue) && job.priority == 0.0
    requires forall x :: x in s.queue.jobs ==> x.priority == 0.0
    ensures var (s', accepted) := Schedule(o, s, job);
            && accepted && s'.state == s.state && s'.running == s.running && !s'.queue.blocked
            && |s'.queue.jobs| == |s.queue.jobs| + 1 && forall x :: x in s'.queue.jobs ==> x.priority == 0.0
  {
    InsertMembers(s.queue.jobs, job);
  }

  lemma {:induction false} FillTo(o: SystemOptions, n: nat) returns (es: seq<SystemEvent>)
    requires o.Valid() && HasSlots(o, n)
    requires o.main.queue.highWater.AtMost? ==> n <= Ceil(o.main.queue.highWater.bound)
    ensures SS.Legal(o, Start(o), es) && Unmeddled(es) && Filled(o, SS.Exec(o, Start(o), es), n)
  {
    hide SystemStep, Possible, SS.Legal, SS.Exec, Started, Schedule, AllQuiet, Meddles, Unmeddled, HasRoom, AtCapacity;
    if n == 0 {
      es := StopMain(o);
    } else {
      es := FillTo(o, n - 1);
      var s := SS.Exec(o, Start(o), es);
      RoomForOne(o, s, n);
      QuietCounts(o, s);
      QuietLength(o, s);
      var r := FreeSlot(o.resources, s.resources);
      var job := Job(n, 0.0, 0.0);
      StoppedMainKeeps(o.main, s.main, job);
      es := BringTo(o, es, r, job);
    }
  }

  lemma QuietLength(o: SystemOptions, s: System)
    requires AllQuiet(o, s)
    ensures |s.resources| == |o.resources|
  {
  }

  lemma RoomForOne(o: SystemOptions, s: System, n: nat)
    requires |s.main.queue.jobs| == n - 1
    requires o.main.queue.highWater.AtMost? ==> n <= Ceil(o.main.queue.highWater.bound)
    ensures HasRoom(o.main.queue, s.main.queue)
  {
    if o.main.queue.highWater.AtMost? { CeilBound(n - 1, o.main.queue.highWater.bound); }
  }

  /** A run goes on by one job brought through resource `r`. */
  lemma BringTo(o: SystemOptions, es: seq<SystemEvent>, r: nat, job: Job) returns (more: seq<SystemEvent>)
    requires o.Valid() && SS.Legal(o, Start(o), es) && Unmeddled(es) && job.weight == 0.0
    requires AllQuiet(o, SS.Exec(o, Start(o), es)) && r < |SS.Exec(o, Start(o), es).resources|
    requires r < |o.resources| && !AtCapacity(o.resources[r], SS.Exec(o, Start(o), es).resources[r])
    ensures SS.Legal(o, Start(o), more) && Unmeddled(more)
    ensures var (s, s2) := (SS.Exec(o, Start(o), es), SS.Exec(o, Start(o), more));
            && AllQuiet(o, s2) && s2.main == Schedule(o.main, s.main, job).0
            && |Started(s2.resources)| == |Started(s.resources)| + if Schedule(o.main, s.main, job).1 then 1 else 0
  {
    hide SystemStep, Possible, SS.Legal, SS.Exec, Started, Schedule, AllQuiet, AtCapacity;
    var (e1, e2) := Bring(r, job);
    var s2 := BringOne(o, SS.Exec(o, Start(o), es), r, job);
    OneMoreEvent(o, Start(o), es, e1);
    OneMoreEvent(o, Start(o), es + [e1], e2);
    more := es + [e1] + [e2];
    UnmeddledMore(es, e1);
    UnmeddledMore(es + [e1], e2);
  }

  // ---------------------------------------------------------------- the exact conditions

  /** A full main limiter of any strategy but `overflow` loses jobs to a more important one. */
  lemma FullMainDrops(o: LimiterOptions, s: LimiterState, job: Job)
    requires o.Valid() && !o.queue.strategy.Overflow? && !s.queue.blocked && !HasRoom(o.queue, s.queue)
    requires s.running == multiset{} && job.priority == 1.0 && forall x :: x in s.queue.jobs ==> x.priority == 0.0
    ensures |Held(Schedule(o, s, job).0)| < |s.queue.jobs| + if Schedule(o, s, job).1 then 1 else 0
  {
    hide MakeRoom, Schedule;
    assert s.queue.jobs != [] by { assert o.queue.highWater.bound >= 1.0; }
    assert s.queue.jobs[0] in s.queue.jobs;
    DropShrinksQueue(o.queue, s.queue, job);
    HeldAfterOffer(o, s, job);
  }

  lemma DroppingRun(o: SystemOptions) returns (es: seq<SystemEvent>)
    requires o.Valid() && !NeverDrops(o)
    ensures SS.Legal(o, Start(o), es) && Unmeddled(es) && !Conserved(SS.Exec(o, Start(o), es))
  {
    hide SystemStep, Possible, SS.Legal, SS.Exec, Started, Schedule, AllQuiet, Meddles, Unmeddled, AtCapacity, Held;
    var n := Ceil(o.main.queue.highWater.bound);
    CeilBound(0, o.main.queue.highWater.bound);
    es := FillTo(o, n);
    var s := SS.Exec(o, Start(o), es);
    QuietCounts(o, s);
    QuietLength(o, s);
    CeilBound(n, o.main.queue.highWater.bound);
    var r := FreeSlot(o.resources, s.resources);
    var job := Job(0, 1.0, 0.0);
    FullMainDrops(o.main, s.main, job);
    es := BringTo(o, es, r, job);
  }

  /** The two levels conserve in every run that nobody meddles with exactly when the main limiter only
      refuses, or its queue has room for all that the resources can start. */
  lemma ConservesIffNeverDrops(o: SystemOptions)
    requires o.Valid()
    ensures (forall es :: SS.Legal(o, Start(o), es) && Unmeddled(es) ==> Conserved(SS.Exec(o, Start(o), es)))
            <==> NeverDrops(o)
  {
    hide SS.Legal, SS.Exec, Unmeddled, NeverDrops;
    if NeverDrops(o) {
      forall es | SS.Legal(o, Start(o), es) && Unmeddled(es) ensures Conserved(SS.Exec(o, Start(o), es)) {
        TwoLevelConservation(o, es);
      }
    } else {
      var es := DroppingRun(o);
    }
  }

  /** With the default strategy: some job is stranded in some run exactly when the queue is too small. */
  lemma LeakingMainStrandsAResource(o: SystemOptions)
    requires o.Valid() && o.main.queue.strategy.Leak?
    ensures (exists es :: SS.Legal(o, Start(o), es) && Unmeddled(es) && !Conserved(SS.Exec(o, Start(o), es)))
            <==> !EnoughRoom(o)
  {
    hide SS.Legal, SS.Exec, Unmeddled;
    ConservesIffNeverDrops(o);
  }

  /** Nobody schedules on the main limiter, but it may be cleared. */
  ghost predicate OnlyCleared(es: seq<SystemEvent>) { forall e :: e in es ==> !Direct(e) }

  lemma ClearedRun(o: SystemOptions) returns (es: seq<SystemEvent>)
    requires o.Valid() && o.resources != []
    ensures SS.Legal(o, Start(o), es) && OnlyCleared(es) && !Conserved(SS.Exec(o, Start(o), es))
  {
    hide SystemStep, Possible, SS.Legal, SS.Exec, Started, AllQuiet, Held;
    if o.main.queue.highWater.AtMost? { CeilBound(0, o.main.queue.highWater.bound); }
    SlotForOne(o);
    es := FillTo(o, 1);
    var s := SS.Exec(o, Start(o), es);
    ClearingTakesAll(o, s);
    OneMoreEvent(o, Start(o), es, OnMain(ClearQueue));
    es := es + [OnMain(ClearQueue)];
  }

  lemma SlotForOne(o: SystemOptions)
    requires o.Valid() && o.resources != []
    ensures HasSlots(o, 1)
  {
    if Bounded(o.resources) {
      assert o.resources[0].Valid() && o.resources[0].concurrency.AtMost?;
      CeilBound(0, o.resources[0].concurrency.bound);
      SlotsArePositive(o.resources[1..]);
    }
  }

  lemma {:induction false} SlotsArePositive(os: seq<LimiterOptions>)
    requires Bounded(os) && forall r :: 0 <= r < |os| ==> os[r].Valid()
    ensures TotalSlots(os) >= 0
  {
    if os != [] {
      assert os[0].Valid() && os[0].concurrency.AtMost?;
      CeilBound(0, os[0].concurrency.bound);
      SlotsArePositive(os[1..]);
    }
  }

  lemma ClearingTakesAll(o: SystemOptions, s: System)
    requires s.main.running == multiset{} && |Started(s.resources)| == 1
    ensures Possible(o, s, OnMain(ClearQueue)) && !Conserved(SystemStep(o, s, OnMain(ClearQueue)))
  {
    hide Started, Held;
    ClearingKeepsHeldIffNothingWaits(o.main, s.main);
  }

  /** When the main limiter may be cleared, as stopping the scheduler does: the two levels conserve in every
      run exactly when there is no resource at all. */
  lemma ClearingMainStrandsAResource(o: SystemOptions)
    requires o.Valid()
    ensures (forall es :: SS.Legal(o, Start(o), es) && OnlyCleared(es) ==> Conserved(SS.Exec(o, Start(o), es)))
            <==> o.resources == []
  {
    hide SS.Legal, SS.Exec, SystemStep;
    if o.resources == [] {
      forall es | SS.Legal(o, Start(o), es) && OnlyCleared(es) ensures Conserved(SS.Exec(o, Start(o), es)) {
        AlwaysCovered(o, Start(o), es);
        StartIsAllGood(o, false);
        AlwaysAllGood(o, Start(o), es, false);
      }
    } else {
      var es := ClearedRun(o);
    }
  }
}
