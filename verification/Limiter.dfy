/** The limiter object (packages/api/tasks/src/Limiter/Limiter.ts and LimiterStateHandler.ts), each
    method proved against the step of LimiterSpec it performs.

    `immediates`, `awaiting`, `delaying` and `running` are the event loop's side of it: the loops it
    holds and the jobs it has started. A suspended loop comes back through `Resume` or `DelayOver`. */
module Limiters {
  import opened Wrappers
  import opened QueueSpec
  import opened Queues
  import opened LimiterSpec
  import Spec = LimiterSpec

  class Limiter {
    const options: LimiterOptions
    const queue: Queue
    var concurrency: int
    var limiterState: RunState
    var onDelayTime: bool
    var immediates: nat
    var awaiting: multiset<Job>
    var delaying: nat
    var running: multiset<Job>

    ghost predicate Valid() reads this, queue {
      options.Valid() && queue.Valid() && queue.options == options.queue
    }

    function State(): LimiterState reads this, queue {
      LimiterState(queue.State(), concurrency, limiterState, onDelayTime, immediates, awaiting, delaying, running)
    }

    constructor (options: LimiterOptions)
      requires options.Valid()
      ensures Valid() && fresh(queue) && this.options == options && State() == Init(options)
      ensures queue.queue == [] && concurrency == 0 && limiterState == (if options.autoStart then Idle else Stopped)
      ensures !onDelayTime && immediates == delaying == 0 && awaiting == running == multiset{}
    {
      this.options := options;
      queue := new Queue(options.queue);
      concurrency := 0;
      limiterState := if options.autoStart then Idle else Stopped;
      onDelayTime, immediates, awaiting, delaying, running := false, 0, multiset{}, 0, multiset{};
    }

    predicate AtCapacity() reads this { !options.concurrency.Above(concurrency) }

    predicate CanProcessMore() reads this, queue {
      !AtCapacity() && |queue.queue| > 0 && limiterState != Stopped
    }

    method Schedule(job: Job) returns (scheduled: bool)
      requires Valid() && Consistent(queue.queue + [job])
      modifies this, queue
      ensures Valid() && Spec.Schedule(options, old(State()), job) == (State(), scheduled)
    {
      var seed: bool;
      scheduled, seed := queue.Enqueue(job);
      if seed {
        OnEnqueueEvent();
      }
    }

    method OnEnqueueEvent()
      modifies this
      ensures State() == Spec.OnEnqueueEvent(old(State()))
    {
      if (concurrency == 0 || |queue.queue| > 0) && !onDelayTime {
        immediates := immediates + 1;
      }
    }

    /** The head of the loop: takes the front job if it may and counts it as started. */
    method TakeJob() returns (job: Option<Job>)
      requires Valid()
      modifies this, queue
      ensures Valid() && Take(options, old(State())) == (State(), job)
      ensures job.Some? ==> |queue.queue| < old(|queue.queue|) && job.value in running
      ensures job.None? ==> State() == old(State())
    {
      job := None;
      if !CanProcessMore() {
        return;
      }
      job := queue.Dequeue();
      if job.Some? {
        concurrency := concurrency + 1;
        running := running + multiset{job.value};
      }
    }

    /** One turn of the loop. When it suspends, the event loop's fields say where. */
    method NextJobExecution(fates: seq<bool>)
      requires Valid()
      modifies this, queue
      ensures Valid() && State() == NextJob(options, old(State()), fates)
      decreases |queue.queue|
    {
      hide Sorted, Consistent, Take, CanProcessMore, Finish;
      var job := TakeJob();
      if job.None? {
        return;
      }
      ghost var started := State();
      var full := AtCapacity();
      RunTask(job.value, fates != [] && fates[0]);
      ghost var ran := State();
      if full {
        awaiting := awaiting + multiset{job.value};
        assert State() == Park(ran, ParkOnJob, job.value);
        return;
      }
      if options.delay > 0.0 {
        onDelayTime := true;
        delaying := delaying + 1;
        assert State() == Park(ran, WaitDelay, job.value);
        return;
      }
      assert Spec.After(options, started) == GoOn;
      NextJobExecution(if fates == [] then [] else fates[1..]);
    }

    /** Starts the job; a piped limiter may refuse it, and then it is done on the spot. */
    method RunTask(job: Job, refused: bool)
      requires job in running
      modifies this`running, this`concurrency
      ensures State() == if refused then Finish(old(State()), job) else old(State())
    {
      if refused {
        OnDone(job);
      }
    }

    /** The `done` listener of a scheduled job. */
    method OnDone(job: Job)
      requires job in running
      modifies this`running, this`concurrency
      ensures State() == Finish(old(State()), job)
    {
      running := running - multiset{job};
      concurrency := concurrency - 1;
    }

    /** The awaited job has ended; its loop goes on. */
    method ResumeLoop(job: Job, fates: seq<bool>)
      requires Valid() && job in awaiting && job !in running
      modifies this, queue
      ensures Valid() && State() == Resume(options, old(State()), job, fates)
    {
      awaiting := awaiting - multiset{job};
      if options.delay > 0.0 {
        onDelayTime := true;
        delaying := delaying + 1;
      } else {
        NextJobExecution(fates);
      }
    }

    method DelayOver(fates: seq<bool>)
      requires Valid() && delaying > 0
      modifies this, queue
      ensures Valid() && State() == DelayEnds(options, old(State()), fates)
    {
      delaying := delaying - 1;
      onDelayTime := false;
      NextJobExecution(fates);
    }

    method ImmediateFires(fates: seq<bool>)
      requires Valid() && immediates > 0
      modifies this, queue
      ensures Valid() && State() == Step(options, old(State()), Event.ImmediateFires(fates))
    {
      immediates := immediates - 1;
      NextJobExecution(fates);
    }

    method RefillFires()
      requires Valid() && queue.refillTimer
      modifies this, queue
      ensures Valid() && State() == RefillTick(options, old(State()))
    {
      var refilled := queue.RefillBucket();
      if refilled {
        OnEnqueueEvent();
      }
    }

    method Start(fates: seq<bool>)
      requires Valid()
      modifies this, queue
      ensures Valid() && State() == Step(options, old(State()), StartLimiter(fates))
    {
      limiterState := Starting;
      NextJobExecution(fates);
    }

    method Stop()
      requires Valid()
      modifies this
      ensures Valid() && State() == Step(options, old(State()), StopLimiter) && limiterState == Stopped
    {
      limiterState := Stopped;
    }

    method Clear()
      requires Valid()
      modifies queue
      ensures Valid() && State() == Step(options, old(State()), ClearQueue)
    {
      queue.Clear();
    }
  }
}
