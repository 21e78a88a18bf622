# Proofs about the task limiter, the polling scheduler and their helpers

This project models the hard parts of the `@mdf.js` API packages in Dafny and proves what they keep.

* **Limiter.** `Queue` is a priority queue with a token bucket, a high-water mark and four strategies for a
  full queue. `Limiter` starts jobs from it in overlapping asynchronous loops. The loops are modelled as a
  state machine whose steps are the uninterrupted turns of the event loop: a schedule, an immediate that
  fires, a job that ends, a loop that resumes, a delay that is over, a refill tick, `start`, `stop`, `clear`.
  Every theorem is about every sequence of such steps. `Scheduler` pipes one limiter per resource into a main
  limiter; the two levels are one state machine.
* **Tasks.** The life of a task under each retry strategy, sequences and groups of tasks, and the retry loop
  with its back-off.
* **Polling.** Which entries a polling group scans, when it scans them, and its cycle statistics.
* **Graphs.** `deCycle` and `retroCycle` turn any cyclic object graph into a tree and back; the faker
  `Factory` resolves dependencies by memoised recursion with a stack against cycles.
* **Strings.** `preserveCamelCase` inserts into the string it scans.

The larger parts have a `...Spec` file with pure functions for the operations, a class that holds the fields the
code updates and whose methods are proved equal to those functions, and files of theorems over whole runs; the
smaller ones keep all three in one file.
`dafny verify dfyconfig.toml` checks everything.

## What turned out

* A waiting job is never forgotten by a started limiter, provided the refill timer is alive and no job is
  heavier than the bucket; and every fair run of such a limiter ends with its queue served. `clear` kills
  the timer for good, and both conditions are needed: with clearing allowed, or with any weight allowed, a
  limiter is safe exactly when it uses no bucket. Piped together, under a main limiter that
  never drops, the two levels also end every fair run with all queues empty and every task ended.
* Executing tasks respect both limits in every run in which the main limiter gets its jobs from the resources
  only. The main limiter holds exactly the jobs the resource limiters have
  started, in every run, exactly when its strategy is `overflow`, its high water is infinite, or the resources
  together have no more slots than its queue has places. Otherwise, and whenever it is cleared with jobs waiting
  (stopping the scheduler does that), a resource counts a job for ever that nobody will run.
* With a `delay` one turn of a loop starts one job, and its loop comes back only when that job or the delay is over.
  Several loops at once still start jobs closer together.
* `leak` drops the front of the queue: the oldest job of the *highest* priority.
  Its documentation says the lowest (packages/api/tasks/README.md:311); the two agree exactly when all waiting
  jobs have the same priority. It also says that a job may be refused
  under `leak`; the code always accepts it.
* `overflow-priority` puts the new job in the very place of the dropped one exactly when no waiting job is less
  important by less than one.
* The round trip through `deCycle` and `retroCycle` gives an isomorphic graph exactly when no object that is met
  more than once was first met through an array, because array steps are written in a form the reader's pattern
  rejects, and no plain object has a property named `hasOwnProperty` that is no function, on which the walk throws.
  That is for graphs without texts of their own under `$ref` that the pattern accepts; `{ a: { $ref: text } }`
  comes back exactly when the pattern rejects the text or the text names that very object.
* The factory reports a cycle exactly when one can be reached, and memoisation never changes a value.
* `notExecAfterSuccess` lets a task succeed twice only after a call beside an open execution or a cancellation of
  a completed task; each such step, and no other, makes one more success possible.
* `failAfterSuccess` refuses only the one call behind a success; the next call runs again.
* A group that failed once judges later runs wrongly, because it never resets its results and errors.
* A polling group whose first scheduled task is refused by the limiter ends its cycle inside the scan; a group
  that finds no entry it can build never scans again, and while the first task of each scan is accepted that is the
  only way it can fall silent.

## Model

| member | source | states |
|---|---|---|
| QueueSpec.InsertKeepsSorted | packages/api/tasks/src/Limiter/Queue.ts:70-83 | inserting a job keeps the priorities descending |
| QueueSpec.InsertPermutes | packages/api/tasks/src/Limiter/Queue.ts:70-83 | insertion adds the one job and loses none |
| QueueSpec.PlaceAt | packages/api/tasks/src/Limiter/Queue.ts:74-82 | splicing the job in at any index behind all jobs of at least its priority and before all lower ones is the stable insertion; this covers the append shortcut and the binary search |
| Queues.Queue.LowerBound | packages/api/tasks/src/Limiter/Queue.ts:245-259 | the binary search returns the first index with a strictly lower priority |
| Queues.Queue.Enqueue | packages/api/tasks/src/Limiter/Queue.ts:70-83 | the queue, bucket and flags after an enqueue are those of the specified step, with its acceptance and its `seed` event |
| Queues.Queue.Dequeue | packages/api/tasks/src/Limiter/Queue.ts:88-96 | hands out the front job and takes its weight from the bucket, or nothing when the bucket is too low |
| Queues.Queue.DropByPriory | packages/api/tasks/src/Limiter/Queue.ts:106-124 | removes the first job at or below the threshold; finding it and removing it by uuid hit the same job |
| Queues.Queue.Remove | packages/api/tasks/src/Limiter/Queue.ts:136-145 | removes the first job with that uuid and keeps the order of the others |
| Queues.Queue.Clear | packages/api/tasks/src/Limiter/Queue.ts:147-155 | empties the queue, and disarms the timer and fills the bucket if the timer was armed |
| Queues.Queue.CheckAndDecrementBucketSize | packages/api/tasks/src/Limiter/Queue.ts:265-274 | grants exactly when there is no bucket or it holds the weight, and takes the weight only then |
| Queues.Queue.HandleQueueStrategy | packages/api/tasks/src/Limiter/Queue.ts:280-313 | the state and the verdict of each of the four strategies, blocked queues included |
| Queues.Queue.RefillBucket | packages/api/tasks/src/Limiter/Queue.ts:318-327 | adds one interval's tokens up to the bucket's size, and says whether `refill` is emitted |
| QueueRuns.StepKeepsGood | packages/api/tasks/src/Limiter/Queue.ts:70-155 | every operation keeps the queue in service order (priority, then arrival), within its high water and empty while blocked |
| QueueRuns.AlwaysGood | packages/api/tasks/src/Limiter/Queue.ts:70-155 | so does every run |
| QueueRuns.DequeueServesInOrder | packages/api/tasks/src/Limiter/Queue.ts:88-96 | after any run, the job handed out comes before everything still waiting: higher priority, or the same and older |
| QueueRuns.SizeBound | packages/api/tasks/src/Limiter/Queue.ts:280-313 | with a whole-number high water the size never exceeds it in any run, and a blocked queue is empty |
| QueueRuns.RemoveAndInsert | packages/api/tasks/src/Limiter/Queue.ts:106-145 | dropping and re-inserting land on the same index exactly when no waiting job is less important by less than one |
| QueueRuns.OverflowPriorityReplaces | packages/api/tasks/src/Limiter/Queue.ts:292-297 | a full queue under `overflow-priority` refuses exactly when nobody waits at the priority less one or below, unchanged; otherwise it replaces one job, in place under the same exact condition |
| QueueRuns.WholePrioritiesReplaceInPlace | packages/api/tasks/src/Limiter/Queue.ts:292-297 | with whole priorities it replaces exactly the first strictly less important job, in place, and never drops one of equal or higher priority |
| QueueRuns.LeakDropsTheFront | packages/api/tasks/src/Limiter/Queue.ts:111-113 | a full queue under `leak` always accepts, and what it drops is the front |
| QueueRuns.LeakDropsTheLowestIffAllEqual | packages/api/tasks/src/Limiter/Queue.ts:109-118 | after every run, what `leak` drops is the documented victim, the oldest job of the lowest priority, exactly when all waiting jobs have the same priority |
| QueueRuns.LeakDropsTheHighest | packages/api/tasks/src/Limiter/Queue.ts:109-118 | of two waiting jobs of different priority it drops the more important one |
| QueueRuns.FullQueueIsBlocked | packages/api/tasks/src/Limiter/Queue.ts:299-307 | a job that finds the queue full under `block` is refused, the queue is emptied and blocked, and an armed timer is disarmed with the bucket filled |
| QueueRuns.BlockedIff | packages/api/tasks/src/Limiter/Queue.ts:280-313 | a queue is blocked after a step exactly when the step was refused for a full queue under `block`, or it was blocked and the penalty goes on |
| QueueRuns.PenaltyRefusesAll | packages/api/tasks/src/Limiter/Queue.ts:281-283 | while the penalty lasts, whatever happens to the queue, every job is refused without a trace |
| QueueRuns.PenaltyLastsUntilItEnds | packages/api/tasks/src/Limiter/Queue.ts:280-307 | from any reachable moment at which a job finds the queue full: all later ones are refused until the penalty ends, and the first one after it is accepted and alone |
| QueueRuns.RemovesTheFirst | packages/api/tasks/src/Limiter/Queue.ts:136-145 | removing by uuid takes out the first job that has it, and nothing if none does |
| QueueRuns.RefillAddsTokens | packages/api/tasks/src/Limiter/Queue.ts:318-327 | a refill adds exactly one interval's tokens, or what is missing, and reports it; at a full bucket it does nothing |
| QueueRuns.StepKeepsBucket | packages/api/tasks/src/Limiter/Queue.ts:265-274 | each step keeps the level within the bucket and spends no more than level, tick and reserve allow |
| QueueRuns.TokenBound | packages/api/tasks/src/Limiter/Queue.ts:318-327 | over every run: the level stays between zero and the bucket's size, and weight handed out is at most the initial level plus one interval's tokens for each tick, plus one bucket if the timer was disarmed |
| QueueRuns.StretchBound | packages/api/tasks/src/Limiter/Queue.ts:318-327 | a stretch without clearing hands out at most a bucket plus one interval's tokens for each tick |
| QueueRuns.WholeRunBound | packages/api/tasks/src/Limiter/Queue.ts:147-155 | a whole run, cleared as often as one likes, hands out at most one bucket more |
| QueueRuns.NegativeWeightOverfills | packages/api/tasks/src/Limiter/Queue.ts:272 | a negative weight, which nothing rejects, lifts the level above the bucket's size |
| QueueRuns.LevelStaysIffWeightsNonNegative | packages/api/tasks/src/Limiter/Queue.ts:265-274 | with weights from some bound on, the level stays between zero and the bucket's size in every run exactly when the bound is not negative |
| Limiters.Limiter.Schedule | packages/api/tasks/src/Limiter/Limiter.ts:55-75 | enqueues, and queues a loop on `seed`; a refused job changes only what the strategy changed |
| Limiters.Limiter.TakeJob | packages/api/tasks/src/Limiter/Limiter.ts:158-165 | takes the front job and counts it exactly when the limiter may start one and the bucket grants it |
| Limiters.Limiter.NextJobExecution | packages/api/tasks/src/Limiter/Limiter.ts:157-180 | a whole turn of the loop, up to where it parks on a job, waits for the delay or finds nothing to start |
| Limiters.Limiter.ResumeLoop | packages/api/tasks/src/Limiter/Limiter.ts:168-179 | the loop that awaited an ended job goes into the delay or on |
| Limiters.Limiter.DelayOver | packages/api/tasks/src/Limiter/Limiter.ts:174-179 | the flag is cleared and the loop goes on |
| Limiters.Limiter.RefillFires | packages/api/tasks/src/Limiter/LimiterStateHandler.ts:205-206 | a refill that added tokens queues a loop |
| Limiters.Limiter.Start | packages/api/tasks/src/Limiter/Limiter.ts:142-145 | the limiter is started and one turn of the loop is made |
| LimiterTurns.TakesIff | packages/api/tasks/src/Limiter/Limiter.ts:158-165 | a job is taken exactly when fewer run than may, one waits, the limiter is not stopped and the bucket grants it; it is the front one, counted and paid for |
| LimiterTurns.DelayedTurnStartsOne | packages/api/tasks/src/Limiter/Limiter.ts:165-179 | with a delay a turn starts at most one job; its loop then awaits it if no more may run, and otherwise waits for the delay with the flag set |
| LimiterTurns.ResumedLoopWaits | packages/api/tasks/src/Limiter/Limiter.ts:168-178 | with a delay a resumed loop starts nothing and waits with the flag set |
| LimiterTurns.LoopQueuedIff | packages/api/tasks/src/Limiter/Limiter.ts:151-155 | no seed and no refill queues a loop while a delay runs; otherwise the first job of an empty queue does, and every refill that adds tokens while a job waits or none runs |
| LimiterTurns.WholeTurn | packages/api/tasks/src/Limiter/Limiter.ts:157-180 | without a delay a turn starts jobs from the front until it may start no more, or until one fills the limiter and its loop awaits that one; it pays for exactly these, and counts those not refused |
| LimiterTurns.ResumedLoopTurns | packages/api/tasks/src/Limiter/Limiter.ts:168-179 | without a delay a resumed loop takes such a turn |
| LimiterTurns.EveryStartIsFollowedByItsDelay | packages/api/tasks/src/Limiter/Limiter.ts:173-179 | with a delay, over every run: the jobs started are exactly the delays that are over and the loops still held, so beyond the loops queued from outside nothing starts but by the end of a delay |
| LimiterTurns.StoppedStartsNothing | packages/api/tasks/src/Limiter/Limiter.ts:146-149 | from `stop` to the next `start` nothing is started, whatever else happens |
| LimiterQueue.QueueMakesItsOwnRun | packages/api/tasks/src/Limiter/LimiterStateHandler.ts:205-239 | every run of a limiter is, on its queue, a run of the queue: the same commands in the same order, with the loop's removals between them |
| LimiterQueue.LimiterServesInOrder | packages/api/tasks/src/Limiter/Limiter.ts:157-180 | so after every run the job a loop takes comes before all that wait: higher priority, or the same and older; and high water and blocking hold inside the limiter |
| LimiterRuns.TakeKeepsInv | packages/api/tasks/src/Limiter/Limiter.ts:165-177 | starting a job keeps counter, capacity witness and delay flag in order, whether or not the piped limiter refuses it |
| LimiterRuns.StepKeepsGood | packages/api/tasks/src/Limiter/Limiter.ts:142-195 | every step keeps the whole invariant |
| LimiterRuns.PendingCountsRunning | packages/api/tasks/src/Limiter/LimiterStateHandler.ts:209-239 | in every interleaving the counter is the number of started, unfinished jobs and stays below the limit plus one; at capacity a loop awaits a job that still runs; a set delay flag has a loop that will clear it |
| LimiterRuns.ConcurrencyBound | packages/api/tasks/src/Limiter/LimiterStateHandler.ts:233-239 | with a whole-number limit no more jobs than that run at once |
| LimiterRuns.NoLostWakeUp | packages/api/tasks/src/Limiter/Limiter.ts:151-180 | in every reachable state with a waiting job and a limiter not stopped, a loop is outstanding or the timer will emit `refill`, if the timer is alive and jobs fit the bucket |
| LimiterRuns.TimerStaysAlive | packages/api/tasks/src/Limiter/Queue.ts:147-155 | only clearing (by `clear` or by the block strategy) disarms the refill timer |
| LimiterRuns.UnclearedRunsStayAwake | packages/api/tasks/src/Limiter/Limiter.ts:151-180 | so runs that never clear lose no wake-up, for all options |
| LimiterRuns.ClearingIsSafeIffNoBucket | packages/api/tasks/src/Limiter/Queue.ts:147-155 | with clearing allowed, no run loses a wake-up exactly when the limiter uses no bucket |
| LimiterRuns.AnyWeightIsSafeIffNoBucket | packages/api/tasks/src/Limiter/Queue.ts:265-274 | with jobs of any weight and no clearing, again exactly when it uses no bucket |
| LimiterProgress.StepKeepsWorking | packages/api/tasks/src/Limiter/Limiter.ts:157-180 | a started limiter with a live timer stays so under every internal step, and its queue never grows by one |
| LimiterProgress.FillBucket | packages/api/tasks/src/Limiter/Queue.ts:318-327 | finitely many refill ticks make the bucket grant the front job |
| LimiterProgress.SomeLoopTurns | packages/api/tasks/src/Limiter/Limiter.ts:151-180 | with nobody running and the front job granted, a loop that is outstanding, or that the next tick queues, starts it |
| LimiterProgress.QueueCanBeServed | packages/api/tasks/src/Limiter/Limiter.ts:142-195 | from every reachable state of a started limiter with a live timer some run of jobs ending, loops turning, delays ending and ticks empties the queue |
| LimiterProgress.StepIsCalm | packages/api/tasks/src/Limiter/Limiter.ts:157-180 | every such step starts a job or takes nothing back: same queue, no more running, no fewer tokens |
| LimiterProgress.NothingWaitsForEver | packages/api/tasks/src/Limiter/Limiter.ts:142-195 | every fair run of them does: started jobs end, queued and delayed loops go on and the armed timer ticks sooner or later, and from some moment on the queue is empty |
| SchedulerRuns.PumpIsNextJob | packages/api/tasks/src/Limiter/Limiter.ts:185-190 | the loop of a piped limiter is the loop of a single one, told which of its jobs the target refused |
| SchedulerRuns.ResourceMakesItsOwnStep | packages/api/tasks/src/Scheduler/Scheduler.ts:186-189 | every step of a resource limiter inside the system is a step of a single limiter |
| SchedulerRuns.BothLevelsStayAwake | packages/api/tasks/src/Scheduler/Scheduler.ts:181-190 | no limiter of either level loses a wake-up in any run of the system |
| SchedulerRuns.OfferKeepsJobsIffNoDrop | packages/api/tasks/src/Limiter/Limiter.ts:94-120 | an offer to the main limiter keeps every job it holds exactly when it need not make room or refuses |
| SchedulerRuns.PumpCovers | packages/api/tasks/src/Limiter/Limiter.ts:157-195 | one loop of a resource limiter gives the main limiter no more jobs than it counts started, whatever the main limiter drops |
| SchedulerRuns.ExecutingWithinBothLimits | packages/api/tasks/src/Scheduler/Scheduler.ts:181-190 | in every run in which the main limiter gets its jobs from the resources, dropping and clearing included: executing tasks keep within the main limit and split into shares of tasks each resource has started, each within that resource's limit |
| SchedulerRuns.PumpCounts | packages/api/tasks/src/Limiter/Limiter.ts:157-195 | one loop of a resource limiter whose slots fit moves exactly as many jobs into the main limiter as it counts started |
| SchedulerRuns.TwoLevelConservation | packages/api/tasks/src/Scheduler/Scheduler.ts:181-190 | with a main limiter that only refuses or has room for all slots, the main limiter holds exactly the jobs the resources have started, so its size plus pending is the sum of their pending |
| SchedulerRuns.ClearingKeepsHeldIffNothingWaits | packages/api/tasks/src/Limiter/Queue.ts:147-155 | clearing the main limiter leaves exactly the executing jobs, so it loses none exactly when none waits |
| SystemProgress.ResourceStep | packages/api/tasks/src/Scheduler/Scheduler.ts:186-189 | with a main limiter that never drops, a step of a resource takes jobs from its own queue or is that limiter's step alone; no queue of a resource grows and no limiter is stopped or loses its timer |
| SystemProgress.NeverStuck | packages/api/tasks/src/Scheduler/Scheduler.ts:181-190 | in a fair run, while a job waits in a resource some job leaves a resource sooner or later |
| SystemProgress.NothingWaitsOnEitherLevel | packages/api/tasks/src/Scheduler/Scheduler.ts:181-190 | every fair run of the two levels without outside jobs, from every reachable state with live timers and no limiter stopped, under a main limiter that never drops: from some moment on both levels' queues are empty and every task has ended |
| SchedulerExact.ConservesIffNeverDrops | packages/api/tasks/src/Scheduler/Scheduler.ts:181-190 | over options: the two levels conserve in every run without outside jobs or clearing exactly when the strategy is `overflow`, the high water is infinite, or the resources together have no more slots than the main queue has places |
| SchedulerExact.LeakingMainStrandsAResource | packages/api/tasks/src/Limiter/types/const.ts:21 | with the default strategy some run strands a job exactly when the resources have more slots than the main queue has places |
| SchedulerExact.ClearingMainStrandsAResource | packages/api/tasks/src/Scheduler/Scheduler.ts:289-290 | with clearing allowed, every run conserves exactly when there is no resource |
| Schedulers.Scheduler.GetLimiter | packages/api/tasks/src/Scheduler/Scheduler.ts:181-190 | a resource keeps its first limiter, whatever options come later, and a new one is piped into the main limiter |
| Schedulers.Scheduler.AddResource | packages/api/tasks/src/Scheduler/Scheduler.ts:206-229 | refused unchanged while running; otherwise, over all additions made, the first mention of a resource decides its limiter, every limiter is piped, and the last mention that lists a period decides the tasks polled in it |
| Schedulers.LastListingDecides | packages/api/tasks/src/Scheduler/Scheduler.ts:214-227 | the tasks polled in a period are those of the last addition that lists it, and none if none does |
| Paths.ParseRender | packages/api/utils/src/cycle/cycle.ts:33-54 | a written path reads back as itself exactly when it has no array step; with one, the pattern rejects it |
| RefPattern.PatternIsRead | packages/api/utils/src/cycle/cycle.ts:54 | every text of the pattern, as a grammar of brackets with a number or a quoted name of plain, escaped and coded characters, is taken for a reference and reads the names it spells, or throws where one is no program |
| RefPattern.OnlyThePatternIsRead | packages/api/utils/src/cycle/cycle.ts:54 | and no other text is taken for one |
| RefPattern.CodeIsRead | packages/api/utils/src/cycle/cycle.ts:54-60 | four hexadecimal digits, small or capital, give the character of that code; anything else in their place is no program |
| RefPattern.HexValueIs | packages/api/utils/src/cycle/cycle.ts:54-60 | a small or capital hexadecimal digit has the value of its place |
| RefPattern.AlnumIs | packages/api/utils/src/cycle/cycle.ts:54 | the letters and digits of the pattern are those of ASCII |
| Paths.DecimalReadsBack | packages/api/utils/src/cycle/cycle.ts:33 | an index is written in decimal without a leading zero |
| Paths.EscapesAreShort | packages/api/utils/src/cycle/cycle.ts:39 | names are escaped as JSON texts are: only quotes, backslashes and control characters, by letter where there is one |
| RoundTrip.RefNodesAreRefs | packages/api/utils/src/cycle/cycle.ts:24-27 | an object met again is replaced by a plain object with the one property `$ref`, which the reader takes for a reference to that place exactly when the path has no array step |
| Cycles.DeCycler.Unref | packages/api/utils/src/cycle/cycle.ts:17-45 | the mutating walk computes the specified copy, objects and visits |
| Cycles.DeCycle | packages/api/utils/src/cycle/cycle.ts:14-46 | terminates on every graph with the specified tree |
| Cycles.RetroCycler.Rez | packages/api/utils/src/cycle/cycle.ts:55-91 | the in-place repair computes the specified heap on any argument, shared objects and cycles included, and throws where an evaluation throws, where a plain object hides `hasOwnProperty`, or where the stack is full |
| Cycles.RetroCycle | packages/api/utils/src/cycle/cycle.ts:53-95 | the whole repair, the root never being taken for a reference |
| DeCycleRuns.ExpandsEachVisitedObjectOnce | packages/api/utils/src/cycle/cycle.ts:14-46 | each visited object is expanded once, in a place of its own, and every further edge to one becomes a reference to the place where it was first met |
| DeCycleRuns.VisitsExactlyTheReachable | packages/api/utils/src/cycle/cycle.ts:17-45 | exactly the objects that can be reached from the root are visited |
| DeCycleRuns.FirstVisitIsByOwnEdge | packages/api/utils/src/cycle/cycle.ts:28-40 | an address one step below an object belongs only to the object that very member leads to |
| RoundTrip.CopiesAreNoRefs | packages/api/utils/src/cycle/cycle.ts:58-64 | a copied object is never mistaken for a reference |
| RoundTrip.EvalFirstVisit | packages/api/utils/src/cycle/cycle.ts:60 | at any moment of the repair, evaluating a written path reaches the copy of the object first met there |
| RoundTrip.RezRepairs | packages/api/utils/src/cycle/cycle.ts:55-91 | where no object hides `hasOwnProperty`, repairing an object repairs exactly the members below it and touches nothing else |
| RoundTrip.RezThrows | packages/api/utils/src/cycle/cycle.ts:67-69 | where one does, the walk throws |
| RoundTrip.RetroSucceedsIffNobodyHides | packages/api/utils/src/cycle/cycle.ts:53-95 | `retroCycle` of `deCycle` succeeds exactly when no reachable plain object has a `hasOwnProperty` of its own that is no function |
| RoundTrip.RoundTripWhenReadable | packages/api/utils/src/cycle/cycle.ts:14-95 | a finite graph, cyclic or shared, in which no object hides `hasOwnProperty` and repeated objects were first met through property names only, comes back isomorphic |
| RoundTrip.RoundTripIffReadable | packages/api/utils/src/cycle/cycle.ts:14-95 | for every finite graph, `retroCycle` of `deCycle` succeeds with an isomorphic result exactly when no reachable object hides `hasOwnProperty` and every object met again was first met through property names only |
| CycleCases.HidingThrows | packages/api/utils/src/cycle/cycle.ts:69 | an object with the one property `hasOwnProperty`, a number, makes `retroCycle` throw |
| CycleCases.MetAgainDoesNotComeBack | packages/api/utils/src/cycle/cycle.ts:33-54 | an array element met again through a property does not come back |
| CycleCases.OwnRefComesBackIff | packages/api/utils/src/cycle/cycle.ts:71-79 | for every text, `{ a: { $ref: text } }` comes back isomorphic exactly when the reader's pattern rejects the text, or the text names the object under `a` |
| CycleCases.TwoOwnRefs | packages/api/utils/src/cycle/cycle.ts:54 | so `{ a: { $ref: "$" } }` does not come back, and `{ a: { $ref: '$["a"]' } }` does |
| CycleCases.ReadingFromAPrim | packages/api/utils/src/cycle/cycle.ts:60 | evaluating one step beyond a value that is no object reads undefined, or throws on undefined and null; two steps throw |
| FactorySpec.PlainUnfolds | packages/api/faker/src/Factory.ts:428-448 | the unmemoised value of an option or an attribute is its builder applied to the values of its dependencies, to nothing if it has none |
| FactorySpec.UnknownIsUndefined | packages/api/faker/src/Factory.ts:467-490 | a name that is neither is undefined |
| FactorySpec.AcyclicIffNoCycle | packages/api/faker/src/Factory.ts:467-472 | a name has such a value exactly when no cycle can be reached from it |
| Factories.Build.BuildEntry | packages/api/faker/src/Factory.ts:409-449 | one memoised resolution: the unmemoised value, or the cycle error with a cycle that can be reached; it terminates, and every value kept on the way is the unmemoised one |
| Factories.Build.BuildWithDependencies | packages/api/faker/src/Factory.ts:459-501 | the same for a list of dependencies, each looked up among attributes and options built so far |
| Factories.Build.BuildAttributes | packages/api/faker/src/Factory.ts:300-311 | the attribute loop succeeds exactly when no cycle can be reached from an attribute, in whatever order they were defined, and resolves only options that attributes use |
| Factories.Build.BuildOptions | packages/api/faker/src/Factory.ts:312-327 | the option loop likewise |
| Factories.BuildObject | packages/api/faker/src/Factory.ts:280-335 | `build` reports a cycle exactly when one is reachable from what it resolves; otherwise every attribute and every option that comes out has its unmemoised value, and the options are those the attributes use, or all if they use none |
| CamelCase.PreserveCamelCase | packages/api/utils/src/camelCase/camelCase.ts:188-220 | the scan terminates although the rest grows, and its result is the input with a separator before each word start |
| CamelCase.SeparatedLength | packages/api/utils/src/camelCase/camelCase.ts:199-207 | the result is three characters longer for each word start, at most one for each capital |
| CamelCase.JoinedIsInput | packages/api/utils/src/camelCase/camelCase.ts:199-207 | deleting the separators gives the input back |
| CamelCase.AsciiWordStarts | packages/api/utils/src/camelCase/camelCase.ts:196-220 | in plain letters a word starts exactly at a capital behind a small letter, or between a capital and a small letter |
| Retry.PauseMovesOn | packages/api/utils/src/retry/retry.ts:158-162 | one capped increment is one step of the closed form |
| Retry.NthPauseIsQuadratic | packages/api/utils/src/retry/retry.ts:158-205 | the n-th pause is the capped quadratic, except exactly the first one of a caller whose wait time is above the maximum |
| Retry.Parameters.ErrorManagement | packages/api/utils/src/retry/retry.ts:169-205 | throws exactly for an interruption, an abort, an interrupt, the last attempt or an irresolvable error, always as an interruption or an abort; otherwise waits and prepares the next attempt |
| Retry.Retry | packages/api/utils/src/retry/retry.ts:270-315 | the task is called until the first attempt that does not fail with an ordinary error, uninterrupted, or the last one allowed; the caller gets that attempt's value, its abort, or an interruption; each pause is the closed form |
| Retry.RetryPolled | packages/api/tasks/src/Polling/RetryManager.ts:37-81 | a polled task that keeps failing with ordinary errors is tried once on the slow cycle, and on the fast one as often as its entry says, at most three times, once if it says nothing or zero; any other end of a try is the last; the pauses are equal and no longer than the limiter's delay |
| Retry.LeastOfTheBounds | packages/api/tasks/src/Polling/RetryManager.ts:37-75 | on either cycle the timeout is the least of what the entry allows, the attempts' share of the period and fifteen seconds; the pause is the lesser of the entry's and the limiter's delay, and its own cap; zero counts as no limit |
| Retry.RewritingIsStable | packages/api/tasks/src/Polling/RetryManager.ts:55-81 | rewriting rewritten options changes nothing, and an entry moved to the slow cycle has the options of one slow from the start |
| TaskHandlers.TaskHandler.ShouldBeExecuted | packages/api/tasks/src/Tasks/TaskHandler.ts:163-204 | whether a call runs, is refused or is answered from the stored result, for every strategy and status |
| TaskHandlers.TaskHandler.Execute | packages/api/tasks/src/Tasks/TaskHandler.ts:281-286 | what a call does before it waits |
| TaskSpec.RefusalLeavesTheTaskFailed | packages/api/tasks/src/Tasks/TaskHandler.ts:171-226 | for every strategy and state, a refused call leaves the task failed with one `done` more, the earlier status kept in the metadata and the stored result as it was |
| TaskSpec.RunKeepsTheEarlierStatus | packages/api/tasks/src/Tasks/TaskHandler.ts:165-244 | a call that runs opens one execution, tells nobody, keeps the stored result, and keeps the earlier status in the metadata unless it is the first; a repeated run shows as pending |
| TaskSpec.AnsweredIffCompleted | packages/api/tasks/src/Tasks/TaskHandler.ts:171-204 | a call is answered from the stored result exactly under `notExecAfterSuccess` on a completed task, unchanged; and refused exactly under `failAfterExecuted` once anything has happened or under `failAfterSuccess` on a completed task |
| TaskSpec.StatusShowsTheLastEnd | packages/api/tasks/src/Tasks/TaskHandler.ts:210-235 | in any interleaving and under every strategy the status after an end or a cancellation is that end's |
| TaskSpec.HistoryIsKept | packages/api/tasks/src/Tasks/TaskHandler.ts:163-244 | after k calls, under every strategy that never answers from the stored result: the status is the last end's, or failed after a refusal, there were k notices, and the metadata holds in order how each earlier call left the task |
| TaskSpec.HistoryIsKeptUpToTheSuccess | packages/api/tasks/src/Tasks/TaskHandler.ts:179-184 | under `notExecAfterSuccess` the same holds up to the first success |
| TaskSpec.ExecutedOnceIffCalledFirst | packages/api/tasks/src/Tasks/TaskHandler.ts:170-178 | under `failAfterExecuted`, in any interleaving of calls, ends and cancellations, the task runs exactly once if its first event is a call and never otherwise |
| TaskSpec.WhichCallsRun | packages/api/tasks/src/Tasks/TaskHandler.ts:163-204 | for each strategy, which calls of a history without overlap run, from the earlier ends alone |
| TaskSpec.FirstSuccessIsKept | packages/api/tasks/src/Tasks/TaskHandler.ts:179-184 | in a history of calls under `notExecAfterSuccess` there is one success, with one execution and one `done` for each call up to it, and every later call returns its result and changes nothing |
| TaskSpec.OnlyCarelessStepsRaise | packages/api/tasks/src/Tasks/TaskHandler.ts:163-204 | under `notExecAfterSuccess`, a step makes one more success possible exactly when it is a call beside an open execution of a task not completed, or cancels a completed task with none open |
| TaskSpec.AtMostIffAttainable | packages/api/tasks/src/Tasks/TaskHandler.ts:163-244 | from any state, no continuation without such steps exceeds n successes exactly when the successes made and still open are at most n |
| TaskSpec.CarefulTaskSucceedsOnce | packages/api/tasks/src/Tasks/TaskHandler.ts:163-296 | a new task driven without such steps, cancellations included, succeeds at most once, and then every call returns that success's value and nothing changes the task |
| TaskSpec.SuccessesAlternateWithRefusals | packages/api/tasks/src/Tasks/TaskHandler.ts:185-197 | under `failAfterSuccess` a task that always succeeds runs on every second call |
| TaskSpec.SuccessIsFinalIffOneCallFollows | packages/api/tasks/src/Tasks/TaskHandler.ts:185-197 | so no execution follows the first success exactly when at most one call does |
| TaskSpec.RefusedIffBehindSuccess | packages/api/tasks/src/Tasks/TaskHandler.ts:185-197 | in any interleaving of calls, ends and cancellations under `failAfterSuccess`, a call is refused exactly when the last event was a success, and runs otherwise |
| TaskSpec.RetryRunsEveryCall | packages/api/tasks/src/Tasks/TaskHandler.ts:198-202 | in any interleaving under `retry` the task has run once for each call |
| TaskSpec.EarlierRunsAreKept | packages/api/tasks/src/Tasks/TaskHandler.ts:236-244 | under `retry` every call runs and the metadata of all earlier runs is kept in order |
| TaskSpec.OverlappingCallsSucceedTwice | packages/api/tasks/src/Tasks/TaskHandler.ts:179-184 | overlapping calls under `notExecAfterSuccess` can both succeed |
| TaskSpec.CancellingReopensASuccess | packages/api/tasks/src/Tasks/TaskHandler.ts:288-296 | cancelling a completed task lets it succeed again |
| Composite.Sequence.ExecutePhase | packages/api/tasks/src/Tasks/Sequence.ts:39-50 | a phase runs up to and including its first failure and keeps the metadata of each task run |
| Composite.Sequence.Execute | packages/api/tasks/src/Tasks/Sequence.ts:24-37 | pre up to its first failure, main only if all of pre succeeded, post only if main did, the last phase always; the outcome, the tasks executed and the metadata kept |
| Composite.ExecutedIffItsTurnComes | packages/api/tasks/src/Tasks/Sequence.ts:24-50 | from the outcomes alone: the k-th task of a phase is executed exactly when the earlier ones of its phase returned, the main task also only if all of pre did, a post task also only if the main task did; in phase order, each once |
| Composite.RejectsWithTheLastThrow | packages/api/tasks/src/Tasks/Sequence.ts:24-37 | a sequence that fails names the phase of the last executed task that threw, so an error of the last phase hides an earlier one |
| Composite.ResolvesIffAllExecutedDid | packages/api/tasks/src/Tasks/Sequence.ts:24-37 | a sequence succeeds exactly when every task it executed did, with the main task's value |
| Composite.Group.UnitaryExecution | packages/api/tasks/src/Tasks/Group.ts:54-72 | one more result, empty for a failure, and one more cause for it |
| Composite.Group.Execute | packages/api/tasks/src/Tasks/Group.ts:32-49 | one result for each task, empty exactly for those that failed, and the verdict on the causes gathered so far |
| Composite.RightIffNoEarlierFailure | packages/api/tasks/src/Tasks/Group.ts:14-49 | the verdict is the promised one for all outcomes of a run exactly when no earlier run had a failure |
| PollingSpec.OfferKeepsPartition | packages/api/tasks/src/Polling/PollingManager.ts:83-135 | scheduling or refusing an entry leaves every entry in exactly one table |
| PollingSpec.StepKeepsPartition | packages/api/tasks/src/Polling/PollingManager.ts:155-192 | so does every scan and every `done`, of several handlers of one entry too, and entries only leave the fast table |
| PollingSpec.ValidIffAllPartsAre | packages/api/tasks/src/Helpers/Validator.ts:136-260 | a configuration is accepted exactly when its kind is known, its id and its parts' ids have one to 255 characters, and every part is a single task with a function and a list of arguments |
| PollingDemotions.EndDemotesIffFailed | packages/api/tasks/src/Polling/PollingManager.ts:155-171 | an end makes its fast entry slow exactly when the task failed, takes the task from those under way, and moves no other entry |
| PollingDemotions.ScanDemotesTheRefused | packages/api/tasks/src/Polling/PollingManager.ts:182-192 | whatever the limiter refuses, a scan leaves a fast entry off if it cannot be built, slow if the limiter refuses it at its place in the scan, and fast otherwise |
| PollingDemotions.SlowIffFailedOrRefused | packages/api/tasks/src/Polling/PollingManager.ts:155-192 | in every run a fast entry that can be built is slow exactly when one of its tasks failed or the limiter refused it in a scan, and otherwise still fast |
| PollingDemotions.NewEntryIsSlowIff | packages/api/tasks/src/Polling/PollingManager.ts:74-192 | the same for a new group, its first scan included |
| PollingRuns.EntriesOnlyLeaveTheFastTable | packages/api/tasks/src/Polling/PollingManager.ts:98-192 | in every run, whatever the limiter refuses and however many handlers of an entry are under way, the tables partition the initial ids, and entries move only from fast to slow or to off |
| PollingRuns.EntriesStayLive | packages/api/tasks/src/Polling/PollingManager.ts:128-132 | in every such run an entry that can be built stays in a table that is scanned |
| PollingRuns.TablesAreASplit | packages/api/tasks/src/Polling/PollingManager.ts:74-77 | the partition makes the three id sets disjoint with the initial ids as their union |
| PollingRuns.AcceptedScan | packages/api/tasks/src/Polling/PollingManager.ts:182-192 | when the limiter accepts, a scan puts exactly the fast and slow entries that can be built under way, turns the other fast ones off in order, and ends no cycle |
| PollingCycles.CyclesAlternate | packages/api/tasks/src/Polling/PollingExecutor.ts:67-98 | while the limiter takes the first task of every scan, whatever it does with the others: when some scanned entry can be built, every scan is followed by exactly one end of cycle with nothing under way before the next, and scans begin the larger of period and duration apart, up to half a millisecond and the timer's lateness; when none can, nothing follows the first scan |
| PollingCycles.StarvesIffNothingIsValid | packages/api/tasks/src/Polling/PollingManager.ts:182-192 | a new group whose scans' first tasks are accepted can fall silent exactly when the validator rejects all of its entries |
| PollingCycles.EveryEndingArmsATimer | packages/api/tasks/src/Polling/PollingExecutor.ts:86-98 | in every run, however often a cycle ends: each `endCycle` is one ending and arms one timer, so the timers armed are the endings that have not fired |
| PollingRuns.EndsInsideIffFirstIsRefused | packages/api/tasks/src/Polling/PollingManager.ts:171-191 | with nothing under way, a scan ends its own cycle exactly when some scanned entry can be built and the limiter refuses the first task it is given; otherwise something is under way after it exactly when some entry can be built |
| PollingRuns.ScanGivesIffBuildable | packages/api/tasks/src/Polling/PollingManager.ts:182-192 | a scan gives the limiter a task exactly when some entry of the scanned tables can be built, whatever the limiter refuses |
| PollingManagers.NewManagerIsPartitioned | packages/api/tasks/src/Polling/PollingManager.ts:74-77 | a new manager holds each given id once, in the fast table |
| PollingManagers.PollingManager.CreateTaskInstance | packages/api/tasks/src/Polling/PollingManager.ts:98-135 | building fails exactly for a configuration the validator rejects, and turns off that entry only |
| PollingManagers.PollingManager.ScheduleTask | packages/api/tasks/src/Polling/PollingManager.ts:83-92 | one entry met by a scan, with the synchronous end of a refused task |
| PollingManagers.PollingManager.OnDone | packages/api/tasks/src/Polling/PollingManager.ts:155-180 | the task is no longer under way, a failed fast entry becomes slow, and the last one ends the cycle |
| PollingManagers.PollingManager.Schedule | packages/api/tasks/src/Polling/PollingManager.ts:182-192 | the two loops over tables that change while they are walked |
| PollingExecutors.PollingExecutor.GetNextScan | packages/api/tasks/src/Polling/PollingExecutor.ts:75-85 | the rest of the period, rounded, or nothing when the cycle took longer |
| PollingSpec.WaitsForTheRest | packages/api/tasks/src/Polling/PollingExecutor.ts:75-85 | the wait is the whole number of milliseconds nearest to the rest of the period, halves going up, and nothing when the cycle took longer |
| PollingExecutors.PollingExecutor.PerformScan | packages/api/tasks/src/Polling/PollingExecutor.ts:67-73 | the scan, with the executor's answer to each end of cycle emitted inside it |
| PollingStats.PollingMetricsHandler.FinalizeCycle | packages/api/tasks/src/Polling/PollingStatsManager.ts:56-116 | after every cycle all counters, the trailing run of overruns, the window, its average and the extremes are those of the whole history |
| PollingStats.PollingMetricsHandler.Duration | packages/api/tasks/src/Polling/PollingStatsManager.ts:64-75 | the time since the cycle began, once; after that the last duration again |
| PollingStats.PollingMetricsHandler.Reduce | packages/api/tasks/src/Polling/PollingStatsManager.ts:110-111 | the loop computes the sum of the window |
| PollingStats.PollingMetricsHandler.Passes | packages/api/tasks/src/Polling/PollingStatsManager.ts:140-144 | the group is reported unhealthy exactly when each of its last three cycles overran |
| PollingStats.TrailingRunReaches | packages/api/tasks/src/Polling/PollingStatsManager.ts:83-91 | the counter reaches k exactly when the last k cycles overran |
| PollingStats.RunMoves | packages/api/tasks/src/Polling/PollingStatsManager.ts:83-91 | counting up on an overrun and resetting otherwise follows the trailing run |
| PollingStats.WindowMoves | packages/api/tasks/src/Polling/PollingStatsManager.ts:98-101 | pushing and shifting keeps the last durations |
| PollingStats.OverrunsAreCounted | packages/api/tasks/src/Polling/PollingStatsManager.ts:83-86 | the overruns are the cycles longer than the period, counted as a set |
| PollingStats.AverageIsBetween | packages/api/tasks/src/Polling/PollingStatsManager.ts:110-111 | the average lies between any bounds of the durations |

## Left out

Assumptions and limits of members above:

- LimiterRuns.NoLostWakeUp: handlers are scheduled once, not cancelled from outside while they wait, and listeners do not call back into the limiter; the same holds for all theorems about limiters.
- SchedulerRuns.TwoLevelConservation: the two levels are modelled on values, each resource with its own limiter state; the sharing of task objects between levels is modelled by a job ending on both in one step.
- Queues.Queue.Enqueue: needs jobs with equal uuids to have equal priorities, as handlers have; an infinite bucket size is not modelled.
- Cycles.DeCycle: without the replacer argument; own properties named `__proto__`, sparse arrays, boxed primitives other than as leaves, and class prototypes are not modelled; its own stack is taken to be large enough.
- RoundTrip.RoundTripIffReadable: takes a stack at least as deep as the tree; assumes that no reachable object but the root carries a `$ref` text of its own that the reader would take for a reference (CycleCases.OwnRefComesBackIff decides the graphs `{ a: { $ref: text } }`); lone surrogates in names are not modelled.
- Cycles.RetroCycler.Rez: evaluating a reference that a user wrote by hand reads the members of objects and elements of arrays only, not an array's length, nor properties of strings, numbers and functions, and not inherited ones; an own `hasOwnProperty` that is a function is user code and taken to answer as the inherited one.
- Factories.BuildObject: builders are pure, the likelihood is 100, no name is both an option and an attribute, and no name is a member of the object prototype; sequences, callbacks and the merging of overrides are not modelled.
- CamelCase.PreserveCamelCase: the character classes and the locale's case conversions are parameters; spaces and dashes have no case.
- Retry.Retry: the race of task, watchdog and abort signal is one outcome for each attempt; wait times and attempts are numbers, and the checks of argument types are not modelled; `retryBind` differs only in its receiver.
- TaskSpec.WhichCallsRun: timestamps, reasons and durations in the metadata are not modelled, nor listeners that throw.
- SystemProgress.NothingWaitsOnEitherLevel: says nothing about a main limiter that drops jobs; there SchedulerExact.ConservesIffNeverDrops shows a job a resource counts for ever.
- PollingCycles.CyclesAlternate: says nothing about a limiter that drops tasks (such a cycle never ends), about stopping and restarting, or about an executor started twice.
- PollingManagers.PollingManager.CreateTaskInstance: the retry options of an entry are modelled in Retry, not in the tables; of the validator only what decides recognition is modelled.
- Schedulers.Scheduler.AddResource: an executor is represented by the tasks it polls and a limiter by its options; `dropResource`, `cleanup`, `start` and `stop` are left out.

The rest of the repository:

- A minimum spacing in time between the job starts of several loops: the code does not guarantee it.
- Real timers, promises, event emitters, identifiers, dates and high-resolution time: they are steps, arbitrary values and abstract clocks. Numbers are exact reals, not floating point.
- Logging, metrics and option validation; validated options are preconditions.
- The regular-expression part of camelCase.
- `waitUntilEmpty` and the bulk helpers of Limiter, which only add listeners.
- Providers, middlewares, cache, adapters, service registry, settings, crash, logger, firehose streams and job handlers: wrappers around I/O or shallow branching.
