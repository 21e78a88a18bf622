/** Resource limiters piped into one main limiter (packages/api/tasks/src/Scheduler/Scheduler.ts).

    Starting a job on a resource limiter hands it to `execute` of the main limiter in the same turn; a
    refusal there is `done` at once. A task that ends on the main limiter ends on its resource limiter in
    the same emission. Resources are numbered in the order they were added. */
module SchedulerSpec {
  import opened QueueSpec
  import opened LimiterSpec
  import opened LimiterRuns

  datatype SystemOptions = SystemOptions(main: LimiterOptions, resources: seq<LimiterOptions>)
  {
    ghost predicate Valid() { main.Valid() && forall r :: 0 <= r < |resources| ==> resources[r].Valid() }
  }

  datatype System = System(main: LimiterState, resources: seq<LimiterState>)

  ghost function Start(o: SystemOptions): System {
    System(Init(o.main), seq(|o.resources|, r requires 0 <= r < |o.resources| => Init(o.resources[r])))
  }

  datatype Pumped = Pumped(main: LimiterState, resource: LimiterState, fates: seq<bool>)

  /** `nextJobExecution` of a resource limiter: every job it starts is offered to the main limiter. */
  function Pump(mo: LimiterOptions, ro: LimiterOptions, main: LimiterState, res: LimiterState): Pumped
    decreases |res.queue.jobs|
  {
    var (s1, job) := Take(ro, res);
    if job.None? then Pumped(main, res, [])
    else
      TakesTheFront(ro, res);
      var (main', accepted) := Schedule(mo, main, job.value);
      var s2 := if accepted then s1 else Finish(s1, job.value);
      var next := After(ro, s1);
      var s3 := Park(s2, next, job.value);
      if next.GoOn? then
        var p := Pump(mo, ro, main', s3);
        p.(fates := [!accepted] + p.fates)
      else Pumped(main', s3, [!accepted])
  }

  datatype SystemEvent =
    | OnMain(e: Event)
    | OnResource(r: nat, e: Event)
    | TaskDone(r: nat, job: Job)

  /** The resource limiter just before its loop runs, and whether the loop runs. */
  function Prepare(ro: LimiterOptions, res: LimiterState, e: Event): (LimiterState, bool)
    requires Enabled(res, e)
  {
    match e
    case ImmediateFires(_) => (res.(immediates := res.immediates - 1), true)
    case LoopResumes(job, _) =>
      var s := res.(awaiting := res.awaiting - multiset{job});
      if ro.delay > 0.0 then (s.(onDelayTime := true, delaying := s.delaying + 1), false) else (s, true)
    case DelayOver(_) => (res.(delaying := res.delaying - 1, onDelayTime := false), true)
    case StartLimiter(_) => (res.(state := Starting), true)
    case _ => (Step(ro, res, e), false)
  }

  /** Tasks end only through TaskDone, and the main limiter runs tasks itself, so refuses none it starts. */
  ghost predicate Possible(o: SystemOptions, s: System, e: SystemEvent) {
    match e
    case OnMain(e) => Enabled(s.main, e) && !e.JobDone? && Plain(e)
    case OnResource(r, e) => r < |s.resources| == |o.resources| && Enabled(s.resources[r], e) && !e.JobDone?
    case TaskDone(r, job) => r < |s.resources| && job in s.main.running && job in s.resources[r].running
  }

  predicate Plain(e: Event) {
    match e
    case ImmediateFires(f) => f == []
    case LoopResumes(_, f) => f == []
    case DelayOver(f) => f == []
    case StartLimiter(f) => f == []
    case _ => true
  }

  ghost function SystemStep(o: SystemOptions, s: System, e: SystemEvent): System
    requires Possible(o, s, e)
  {
    match e
    case OnMain(e) => s.(main := Step(o.main, s.main, e))
    case OnResource(r, e) =>
      var (res, runs) := Prepare(o.resources[r], s.resources[r], e);
      if runs then
        var p := Pump(o.main, o.resources[r], s.main, res);
        System(p.main, s.resources[r := p.resource])
      else s.(resources := s.resources[r := res])
    case TaskDone(r, job) =>
      System(Finish(s.main, job), s.resources[r := Finish(s.resources[r], job)])
  }

  ghost predicate Legal(o: SystemOptions, s: System, es: seq<SystemEvent>)
    decreases |es|
  {
    es == [] || (Possible(o, s, es[0]) && Legal(o, SystemStep(o, s, es[0]), es[1..]))
  }

  ghost function Exec(o: SystemOptions, s: System, es: seq<SystemEvent>): System
    requires Legal(o, s, es)
    decreases |es|
  {
    if es == [] then s else Exec(o, SystemStep(o, s, es[0]), es[1..])
  }
}
