/** The task object: the methods of packages/api/tasks/src/Tasks/TaskHandler.ts, each proved against
    the step of the same name in TaskSpec. */
module TaskHandlers {
  import opened Wrappers
  import opened TaskSpec
  import Spec = TaskSpec

  class TaskHandler<R> {
    const strategy: RetryStrategy
    var status: Status
    var result: Option<R>
    var meta: seq<Status>
    ghost var running: nat
    ghost var executions: nat
    ghost var successes: nat
    ghost var notices: nat

    ghost function State(): Task<R> reads this {
      Task(status, result, meta, running, executions, successes, notices)
    }

    constructor (strategy: RetryStrategy)
      ensures this.strategy == strategy && State() == Fresh()
    {
      this.strategy := strategy;
      status, result, meta := Pending, None, [];
      running, executions, successes, notices := 0, 0, 0, 0;
    }

    method OnRetry()
      modifies this
      ensures State() == Spec.OnRetry(old(State()))
    {
      meta := meta + [status];
      status := Pending;
    }

    method OnError(aborted: bool)
      modifies this
      ensures State() == Spec.OnError(old(State()), aborted)
    {
      status := if aborted then Cancelled else Failed;
      notices := notices + 1;
    }

    method OnSuccess(value: R)
      modifies this
      ensures State() == Spec.OnSuccess(old(State()), value)
    {
      status := Completed;
      result := Some(value);
      successes := successes + 1;
      notices := notices + 1;
    }

    /** `refused` stands for the exception thrown out of the switch. */
    method ShouldBeExecuted() returns (run: bool, refused: bool)
      modifies this
      ensures var answer := Spec.Execute(strategy, old(State())).1;
              run == answer.Started? && refused == answer.Refuses?
      ensures var after := Spec.Execute(strategy, old(State())).0;
              State() == after.(running := old(running), executions := old(executions))
      ensures refused ==> status.Failed? && notices == old(notices) + 1 && meta == old(meta) + [old(status)]
      ensures run && !old(status).Pending? ==> meta == old(meta) + [old(status)] && notices == old(notices)
      ensures result == old(result)
    {
      if status.Pending? {
        status := Running;
        return true, false;
      }
      match strategy {
        case FailAfterExecuted =>
          OnRetry();
          OnError(false);
          return false, true;
        case NotExecAfterSuccess =>
          if status.Completed? { return false, false; }
          OnRetry();
          return true, false;
        case FailAfterSuccess =>
          if status.Completed? {
            OnRetry();
            OnError(false);
            return false, true;
          }
          OnRetry();
          return true, false;
        case AlwaysRetry =>
          OnRetry();
          return true, false;
      }
    }

    method Execute() returns (answer: Answer<R>)
      modifies this
      ensures Spec.Execute(strategy, old(State())) == (State(), answer)
    {
      var run, refused := ShouldBeExecuted();
      if refused { return Refuses; }
      if run {
        running, executions := running + 1, executions + 1;
        return Started;
      }
      answer := Returns(result);
    }

    /** The continuation of a started `_execute`. */
    method Settle(end: End<R>)
      requires running > 0
      modifies this
      ensures State() == Spec.Settle(old(State()), end)
    {
      running := running - 1;
      if end.Succeeds? { OnSuccess(end.value); } else { OnError(end.Aborts?); }
    }

    method Cancel()
      modifies this
      ensures State() == Step(strategy, old(State()), Event.Cancel)
    {
      OnError(true);
    }
  }
}
