/** The limiter as a protocol of atomic steps (packages/api/tasks/src/Limiter/Limiter.ts and
    LimiterStateHandler.ts).

    `nextJobExecution` is an asynchronous loop that may exist many times over. Between two turns of
    the event loop each instance is queued by setImmediate, awaits the job it started, or waits for
    the delay; the state counts them. A step is one uninterrupted turn.

    With a piped limiter, `runTask` may end the job synchronously, when the target refuses it. Each
    step that starts jobs takes `fates`: whether the first, second, ... started job is refused. */
module LimiterSpec {
  import opened Wrappers
  import opened QueueSpec

  datatype RunState = Stopped | Idle | Starting

  datatype LimiterOptions = LimiterOptions(
    concurrency: Limit, delay: real, autoStart: bool, queue: QueueOptions)
  {
    /** What `checkOptions` enforces. */
    predicate Valid() {
      && (concurrency.AtMost? ==> concurrency.bound >= 1.0)
      && delay >= 0.0
      && queue.Valid()
    }
  }

  datatype LimiterState = LimiterState(
    queue: QueueState,
    pending: int,              // the `concurrency` counter
    state: RunState,
    onDelayTime: bool,
    immediates: nat,           // loops queued by setImmediate
    awaiting: multiset<Job>,   // loops awaiting the job they started
    delaying: nat,             // loops in the delay wait
    running: multiset<Job>)    // jobs started whose `done` has not been emitted

  function Init(o: LimiterOptions): LimiterState {
    LimiterState(EmptyQueue(o.queue), 0, if o.autoStart then Idle else Stopped, false, 0, multiset{}, 0, multiset{})
  }

  predicate AtCapacity(o: LimiterOptions, s: LimiterState) { !o.concurrency.Above(s.pending) }

  predicate CanProcessMore(o: LimiterOptions, s: LimiterState) {
    !AtCapacity(o, s) && s.queue.jobs != [] && s.state != Stopped
  }

  /** `seed` and `refill` handler: queue a loop unless a delay is running. */
  function OnEnqueueEvent(s: LimiterState): LimiterState {
    if (s.pending == 0 || s.queue.jobs != []) && !s.onDelayTime then s.(immediates := s.immediates + 1) else s
  }

  /** `done` of a started job: the counter goes down. */
  function Finish(s: LimiterState, job: Job): LimiterState {
    s.(pending := s.pending - 1, running := s.running - multiset{job})
  }

  /** Takes the front job out, if the limiter may and the bucket allows it, and counts it as started. */
  function Take(o: LimiterOptions, s: LimiterState): (LimiterState, Option<Job>) {
    if !CanProcessMore(o, s) then (s, None)
    else
      var (q, job) := Dequeue(o.queue, s.queue);
      if job.None? then (s, None)
      else (s.(queue := q, pending := s.pending + 1, running := s.running + multiset{job.value}), job)
  }

  /** What the loop does after `runTask`: park on the job, wait for the delay, or go on at once. */
  datatype Next = ParkOnJob | WaitDelay | GoOn

  function After(o: LimiterOptions, started: LimiterState): Next {
    if AtCapacity(o, started) then ParkOnJob else if o.delay > 0.0 then WaitDelay else GoOn
  }

  function Park(s: LimiterState, next: Next, job: Job): LimiterState {
    match next
    case ParkOnJob => s.(awaiting := s.awaiting + multiset{job})
    case WaitDelay => s.(onDelayTime := true, delaying := s.delaying + 1)
    case GoOn => s
  }

  /** `nextJobExecution` up to its first real suspension. */
  function NextJob(o: LimiterOptions, s: LimiterState, fates: seq<bool>): LimiterState
    decreases |s.queue.jobs|
  {
    var (s1, job) := Take(o, s);
    if job.None? then s
    else
      var refused := fates != [] && fates[0];
      var s2 := if refused then Finish(s1, job.value) else s1;
      var next := After(o, s1);
      var s3 := Park(s2, next, job.value);
      if next.GoOn? then NextJob(o, s3, if fates == [] then [] else fates[1..]) else s3
  }

  /** An awaited job has ended, its loop goes on. */
  function Resume(o: LimiterOptions, s: LimiterState, job: Job, fates: seq<bool>): LimiterState {
    var s' := s.(awaiting := s.awaiting - multiset{job});
    if o.delay > 0.0 then s'.(onDelayTime := true, delaying := s'.delaying + 1) else NextJob(o, s', fates)
  }

  function DelayEnds(o: LimiterOptions, s: LimiterState, fates: seq<bool>): LimiterState
    requires s.delaying > 0
  {
    NextJob(o, s.(delaying := s.delaying - 1, onDelayTime := false), fates)
  }

  /** A refused job is cancelled with `unScheduled` set, so only the queue may have changed. */
  function Schedule(o: LimiterOptions, s: LimiterState, job: Job): (LimiterState, bool) {
    var r := Enqueue(o.queue, s.queue, job);
    var s' := s.(queue := r.state);
    (if r.seed then OnEnqueueEvent(s') else s', r.accepted)
  }

  function RefillTick(o: LimiterOptions, s: LimiterState): LimiterState {
    var (q, refilled) := Refill(o.queue, s.queue);
    if refilled then OnEnqueueEvent(s.(queue := q)) else s.(queue := q)
  }

  datatype Event =
    | ScheduleJob(job: Job)
    | ImmediateFires(fates: seq<bool>)
    | JobDone(job: Job)
    | LoopResumes(job: Job, fates: seq<bool>)
    | DelayOver(fates: seq<bool>)
    | Tick
    | PenaltyOver
    | ClearQueue
    | StartLimiter(fates: seq<bool>)
    | StopLimiter

  predicate Enabled(s: LimiterState, e: Event) {
    match e
    case ImmediateFires(_) => s.immediates > 0
    case JobDone(job) => job in s.running
    case LoopResumes(job, _) => job in s.awaiting && job !in s.running
    case DelayOver(_) => s.delaying > 0
    case Tick => s.queue.refillArmed
    case PenaltyOver => s.queue.blocked
    case _ => true
  }

  function Step(o: LimiterOptions, s: LimiterState, e: Event): LimiterState
    requires Enabled(s, e)
  {
    match e
    case ScheduleJob(job) => Schedule(o, s, job).0
    case ImmediateFires(fates) => NextJob(o, s.(immediates := s.immediates - 1), fates)
    case JobDone(job) => Finish(s, job)
    case LoopResumes(job, fates) => Resume(o, s, job, fates)
    case DelayOver(fates) => DelayEnds(o, s, fates)
    case Tick => RefillTick(o, s)
    case PenaltyOver => s.(queue := Unblock(s.queue))
    case ClearQueue => s.(queue := Clear(o.queue, s.queue))
    case StartLimiter(fates) => NextJob(o, s.(state := Starting), fates)
    case StopLimiter => s.(state := Stopped)
  }

  ghost predicate Legal(o: LimiterOptions, s: LimiterState, es: seq<Event>)
    decreases |es|
  {
    es == [] || (Enabled(s, es[0]) && Legal(o, Step(o, s, es[0]), es[1..]))
  }

  function Exec(o: LimiterOptions, s: LimiterState, es: seq<Event>): LimiterState
    requires Legal(o, s, es)
    decreases |es|
  {
    if es == [] then s else Exec(o, Step(o, s, es[0]), es[1..])
  }
}
