/** Retrying with a growing pause (packages/api/utils/src/retry/retry.ts) and the options the polling
    managers give to it (packages/api/tasks/src/Polling/RetryManager.ts). */
module Retry {
  import opened Wrappers

  datatype ErrorName = InterruptionError | AbortError | IrresolvableError | AnyOtherError

  /** How the race between the task, its watchdog and the abort signal ends. */
  datatype Outcome<T> = Resolved(value: T) | Rejected(name: ErrorName)

  /** One attempt: its end, and what the `interrupt` callback answers after it. */
  datatype Attempt<T> = Attempt(outcome: Outcome<T>, interrupted: bool)

  datatype RetryOptions = RetryOptions(waitTime: real, maxWaitTime: real, attempts: int, actualAttempt: nat)

  const WAIT_TIME := 100.0

  function CalculateWaitTime(waitTime: real, maxWaitTime: real, actualAttempt: nat): real {
    if waitTime + actualAttempt as real * WAIT_TIME > maxWaitTime then maxWaitTime
    else waitTime + actualAttempt as real * WAIT_TIME
  }

  // ---------------------------------------------------------------- what a run does

  /** An attempt that fails with an ordinary error and is not interrupted. */
  predicate Ordinary<T>(a: Attempt<T>) {
    a.outcome.Rejected? && a.outcome.name.AnyOtherError? && !a.interrupted
  }

  /** `last` is the first attempt from `o.actualAttempt` on that does not fail in the ordinary way, or the
      last one allowed. */
  ghost predicate FirstEnd<T>(task: nat -> Attempt<T>, o: RetryOptions, last: nat) {
    && o.actualAttempt <= last
    && (!Ordinary(task(last)) || last >= o.attempts)
    && forall k: nat :: o.actualAttempt <= k < last ==> Ordinary(task(k)) && k < o.attempts
  }

  /** The pause after `i` further failures, in closed form. */
  function Pause(o: RetryOptions, i: nat): real {
    if i == 0 then o.waitTime
    else Min(o.maxWaitTime, o.waitTime + (100 * o.actualAttempt * i + 50 * i * (i - 1)) as real)
  }

  function AfterFailure(o: RetryOptions): RetryOptions {
    o.(waitTime := CalculateWaitTime(o.waitTime, o.maxWaitTime, o.actualAttempt), actualAttempt := o.actualAttempt + 1)
  }

  /** One application of the increment moves the closed form by one. */
  lemma PauseMovesOn(o: RetryOptions, i: nat)
    ensures Pause(AfterFailure(o), i) == Pause(o, i + 1)
  {
  }

  /** From the first attempt, the n-th pause is the capped quadratic `waitTime + 50 n (n - 1)`; the cap
      misses exactly the first pause of a caller whose `waitTime` is above it. */
  lemma NthPauseIsQuadratic(o: RetryOptions, n: nat)
    requires o.actualAttempt == 1 && n >= 1
    ensures Pause(o, n - 1) == Min(o.maxWaitTime, o.waitTime + (50 * n * (n - 1)) as real)
            <==> (n >= 2 || o.waitTime <= o.maxWaitTime)
  {
  }

  // ---------------------------------------------------------------- the code

  class Parameters {
    var waitTime: real
    const maxWaitTime: real
    const attempts: int
    var actualAttempt: nat

    constructor (o: RetryOptions)
      ensures Options() == o
    {
      waitTime, maxWaitTime, attempts, actualAttempt := o.waitTime, o.maxWaitTime, o.attempts, o.actualAttempt;
    }

    function Options(): RetryOptions reads this { RetryOptions(waitTime, maxWaitTime, attempts, actualAttempt) }

    /** Throws, or waits and prepares the next attempt. */
    method ErrorManagement(error: ErrorName, interrupted: bool) returns (thrown: Option<ErrorName>, waited: seq<real>)
      modifies this
      ensures thrown.None? <==> error.AnyOtherError? && !interrupted && old(actualAttempt) < attempts
      ensures thrown.Some? ==> thrown.value == if error.AbortError? then AbortError else InterruptionError
      ensures thrown.Some? ==> waited == [] && Options() == old(Options())
      ensures thrown.None? ==> waited == [old(waitTime)] && Options() == AfterFailure(old(Options()))
    {
      waited := [];
      if error.InterruptionError? || error.AbortError? {
        return Some(error), waited;
      }
      if interrupted {
        return Some(InterruptionError), waited;
      }
      if actualAttempt >= attempts {
        return Some(InterruptionError), waited;
      }
      if error.IrresolvableError? {
        return Some(InterruptionError), waited;
      }
      waited := [waitTime];
      waitTime := CalculateWaitTime(waitTime, maxWaitTime, actualAttempt);
      actualAttempt := actualAttempt + 1;
      thrown := None;
    }
  }

  /** Calls the task until the first attempt that ends the run and pauses in between by the closed form. The
      caller sees that attempt's value, its abort, or an interruption for every other error. */
  method Retry<T>(task: nat -> Attempt<T>, options: RetryOptions)
    returns (outcome: Outcome<T>, calls: nat, waits: seq<real>)
    ensures calls >= 1 && FirstEnd(task, options, options.actualAttempt + calls - 1)
    ensures var last := task(options.actualAttempt + calls - 1).outcome;
            if last.Resolved? then outcome == last
            else outcome == Rejected(if last.name.AbortError? then AbortError else InterruptionError)
    ensures |waits| == calls - 1 && forall i :: 0 <= i < |waits| ==> waits[i] == Pause(options, i)
    ensures calls == 1 || options.actualAttempt + calls - 1 <= options.attempts
    decreases options.attempts - options.actualAttempt
  {
    var parameters := new Parameters(options);
    var a := task(parameters.actualAttempt);
    match a.outcome {
      case Resolved(_) =>
        outcome, calls, waits := a.outcome, 1, [];
      case Rejected(name) =>
        var thrown, waited := parameters.ErrorManagement(name, a.interrupted);
        if thrown.Some? {
          outcome, calls, waits := Rejected(thrown.value), 1, [];
        } else {
          var later, more, rest := Retry(task, parameters.Options());
          forall i | 0 <= i < |rest| ensures rest[i] == Pause(options, i + 1) {
            PauseMovesOn(options, i);
          }
          outcome, calls, waits := later, 1 + more, waited + rest;
        }
    }
  }

  // ---------------------------------------------------------------- the options of polled tasks

  datatype TaskRetryOptions = TaskRetryOptions(attempts: Option<nat>, timeout: Option<real>, waitTime: Option<real>)

  const MAX_RETRY_FACTOR := 3
  const MAX_TIMEOUT := 15000.0

  /** What `value || fallback` reads: zero counts as absent. */
  function OrElse(value: Option<real>, fallback: real): real {
    if value.Some? && value.value != 0.0 then value.value else fallback
  }

  datatype Managed = Managed(attempts: nat, timeout: real, waitTime: real, maxWaitTime: real) {
    function Start(): RetryOptions { RetryOptions(waitTime, maxWaitTime, attempts, 1) }

    function Given(): TaskRetryOptions { TaskRetryOptions(Some(attempts), Some(timeout), Some(waitTime)) }
  }

  function CycleRetryOptions(o: TaskRetryOptions, attempts: nat, delay: real, period: real): Managed {
    var timeout := Min(Min(OrElse(o.timeout, MAX_TIMEOUT), period * attempts as real), MAX_TIMEOUT);
    var waitTime := Min(OrElse(o.waitTime, delay), delay);
    Managed(attempts, timeout, waitTime, waitTime)
  }

  function FastCycleRetryOptions(o: TaskRetryOptions, delay: real, period: real): Managed {
    var wanted := if o.attempts.Some? && o.attempts.value != 0 then o.attempts.value else 1;
    CycleRetryOptions(o, if wanted < MAX_RETRY_FACTOR then wanted else MAX_RETRY_FACTOR, delay, period)
  }

  function SlowCycleRetryOptions(o: TaskRetryOptions, delay: real, period: real): Managed {
    CycleRetryOptions(o, 1, delay, period)
  }

  /** A limit that an entry gives; zero counts as none. */
  predicate Allows(limit: Option<real>, x: real) { limit.None? || limit.value == 0.0 || limit.value >= x }

  /** A try may take no longer than the entry allows, the attempts' share of the period, or fifteen seconds,
      and is cut no shorter than the least of the three; the pause likewise, of the entry's and the delay. */
  lemma LeastOfTheBounds(o: TaskRetryOptions, delay: real, period: real, fast: bool, x: real)
    ensures var m := if fast then FastCycleRetryOptions(o, delay, period) else SlowCycleRetryOptions(o, delay, period);
            && (m.timeout >= x <==> Allows(o.timeout, x) && period * m.attempts as real >= x && x <= 15000.0)
            && (m.waitTime >= x <==> Allows(o.waitTime, x) && delay >= x)
            && m.maxWaitTime == m.waitTime && 1 <= m.attempts <= 3
  {
  }

  /** A polled task is tried up to the first try that does not fail in the ordinary way, at most once on the
      slow cycle, and on the fast one at most as often as its entry says and three times, once if it says
      nothing or zero. Every pause between its tries is the same, never longer than the limiter's delay. */
  method RetryPolled<T>(task: nat -> Attempt<T>, o: TaskRetryOptions, delay: real, period: real, fast: bool)
    returns (outcome: Outcome<T>, calls: nat, waits: seq<real>)
    ensures 1 <= calls <= 3 && forall k: nat :: 1 <= k < calls ==> Ordinary(task(k))
    ensures calls > 1 ==> fast && o.attempts.Some? && calls <= o.attempts.value
    ensures Ordinary(task(calls)) && fast && o.attempts.Some? ==> calls == 3 || calls >= o.attempts.value
    ensures forall i, j :: 0 <= i < |waits| && 0 <= j < |waits| ==> waits[i] == waits[j] <= delay
    ensures var last := task(calls).outcome;
            if last.Resolved? then outcome == last
            else outcome == Rejected(if last.name.AbortError? then AbortError else InterruptionError)
  {
    var m := if fast then FastCycleRetryOptions(o, delay, period) else SlowCycleRetryOptions(o, delay, period);
    outcome, calls, waits := Retry(task, m.Start());
    forall i | 0 <= i < |waits| ensures waits[i] == m.waitTime { PausesAreConstant(m.Start(), i); }
  }

  /** With the cap at the initial pause the back-off never grows. */
  lemma PausesAreConstant(o: RetryOptions, i: nat)
    requires o.maxWaitTime == o.waitTime
    ensures Pause(o, i) == o.waitTime
  {
  }

  /** A manager rewrites an entry's options in place; rewriting what it wrote before changes nothing,
      and an entry moved to the slow cycle ends up as if it had been slow from the start. */
  lemma RewritingIsStable(o: TaskRetryOptions, delay: real, period: real)
    requires delay >= 0.0 && period >= 0.0
    ensures FastCycleRetryOptions(FastCycleRetryOptions(o, delay, period).Given(), delay, period)
            == FastCycleRetryOptions(o, delay, period)
    ensures SlowCycleRetryOptions(FastCycleRetryOptions(o, delay, period).Given(), delay, period)
            == SlowCycleRetryOptions(o, delay, period)
  {
  }
}
