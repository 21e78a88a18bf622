/** The life of one task over any sequence of calls, ends and cancellations
    (packages/api/tasks/src/Tasks/TaskHandler.ts). */
module TaskSpec {
  import opened Wrappers

  datatype RetryStrategy = FailAfterExecuted | NotExecAfterSuccess | FailAfterSuccess | AlwaysRetry

  datatype Status = Pending | Running | Completed | Cancelled | Failed

  /** How a started `_execute` settles. */
  datatype End<R> = Succeeds(value: R) | Fails | Aborts {
    function Status(): Status {
      match this
      case Succeeds(_) => Completed
      case Fails => Failed
      case Aborts => Cancelled
    }
  }

  /** What a call of `execute` does before it first waits. */
  datatype Answer<R> = Started | Returns(result: Option<R>) | Refuses

  /** The fields, `meta` as the status each snapshot was taken in, and counters of what the outside sees:
      started executions not yet settled, executions, successes and `done` events. */
  datatype Task<R> = Task(
    status: Status, result: Option<R>, meta: seq<Status>,
    running: nat, executions: nat, successes: nat, notices: nat)

  function Fresh<R>(): Task<R> { Task(Pending, None, [], 0, 0, 0, 0) }

  function OnRetry<R>(t: Task<R>): Task<R> { t.(meta := t.meta + [t.status], status := Pending) }

  function OnError<R>(t: Task<R>, aborted: bool): Task<R> {
    t.(status := if aborted then Cancelled else Failed, notices := t.notices + 1)
  }

  function OnSuccess<R>(t: Task<R>, value: R): Task<R> {
    t.(status := Completed, result := Some(value), successes := t.successes + 1, notices := t.notices + 1)
  }

  function Begin<R>(t: Task<R>): Task<R> { t.(running := t.running + 1, executions := t.executions + 1) }

  function Execute<R>(strategy: RetryStrategy, t: Task<R>): (Task<R>, Answer<R>) {
    if t.status.Pending? then (Begin(t.(status := Running)), Started)
    else
      match strategy
      case FailAfterExecuted => (OnError(OnRetry(t), false), Refuses)
      case NotExecAfterSuccess =>
        if t.status.Completed? then (t, Returns(t.result)) else (Begin(OnRetry(t)), Started)
      case FailAfterSuccess =>
        if t.status.Completed? then (OnError(OnRetry(t), false), Refuses) else (Begin(OnRetry(t)), Started)
      case AlwaysRetry => (Begin(OnRetry(t)), Started)
  }

  function Settle<R>(t: Task<R>, end: End<R>): Task<R>
    requires t.running > 0
  {
    var t' := t.(running := t.running - 1);
    if end.Succeeds? then OnSuccess(t', end.value) else OnError(t', end.Aborts?)
  }

  // ---------------------------------------------------------------- what a call leaves behind

  /** Whatever the strategy and the state, a call that is refused leaves the task failed, with one `done`
      more, the status it was found in kept in the metadata, and its stored result as it was. */
  lemma RefusalLeavesTheTaskFailed<R>(strategy: RetryStrategy, t: Task<R>)
    requires Execute(strategy, t).1.Refuses?
    ensures var t' := Execute(strategy, t).0;
            && t'.status.Failed? && t'.notices == t.notices + 1 && t'.meta == t.meta + [t.status]
            && t'.result == t.result && t'.running == t.running
            && t'.executions == t.executions && t'.successes == t.successes
  {
  }

  /** A call that runs opens one execution, tells nobody, and keeps the stored result; it keeps the status
      the task was found in unless it is the first. A repeated run shows as pending. */
  lemma RunKeepsTheEarlierStatus<R>(strategy: RetryStrategy, t: Task<R>)
    requires Execute(strategy, t).1.Started?
    ensures var t' := Execute(strategy, t).0;
            && t'.running == t.running + 1 && t'.executions == t.executions + 1
            && t'.result == t.result && t'.successes == t.successes && t'.notices == t.notices
            && t'.meta == (if t.status.Pending? then t.meta else t.meta + [t.status])
            && t'.status == if t.status.Pending? then Running else Pending
  {
  }

  /** A call is answered from the stored result exactly under `notExecAfterSuccess` when the task has
      completed, and then changes nothing. */
  lemma AnsweredIffCompleted<R>(strategy: RetryStrategy, t: Task<R>)
    ensures var (t', answer) := Execute(strategy, t);
            && (answer.Returns? <==> strategy.NotExecAfterSuccess? && t.status.Completed?)
            && (answer.Returns? ==> t' == t && answer.result == t.result)
            && (answer.Refuses? <==> (strategy.FailAfterExecuted? && !t.status.Pending?)
                                     || (strategy.FailAfterSuccess? && t.status.Completed?))
  {
  }

  // ---------------------------------------------------------------- any interleaving

  datatype Event<R> = Call | Ending(end: End<R>) | Cancel

  function Step<R>(strategy: RetryStrategy, t: Task<R>, e: Event<R>): Task<R>
    requires e.Ending? ==> t.running > 0
  {
    match e
    case Call => Execute(strategy, t).0
    case Ending(end) => Settle(t, end)
    case Cancel => OnError(t, true)
  }

  predicate Legal<R>(strategy: RetryStrategy, t: Task<R>, es: seq<Event<R>>)
    decreases |es|
  {
    es == [] || ((es[0].Ending? ==> t.running > 0) && Legal(strategy, Step(strategy, t, es[0]), es[1..]))
  }

  function Exec<R>(strategy: RetryStrategy, t: Task<R>, es: seq<Event<R>>): Task<R>
    requires Legal(strategy, t, es)
    decreases |es|
  {
    if es == [] then t else Exec(strategy, Step(strategy, t, es[0]), es[1..])
  }

  lemma {:induction false} NoSecondExecution<R>(t: Task<R>, es: seq<Event<R>>)
    requires !t.status.Pending? && Legal(FailAfterExecuted, t, es)
    ensures Exec(FailAfterExecuted, t, es).executions == t.executions
    decreases |es|
  {
    if es != [] { NoSecondExecution(Step(FailAfterExecuted, t, es[0]), es[1..]); }
  }

  /** However calls, ends and cancellations interleave, a `failAfterExecuted` task runs once when it is
      called before anything else happens to it, and otherwise never. */
  lemma ExecutedOnceIffCalledFirst<R>(es: seq<Event<R>>)
    requires es != [] && Legal(FailAfterExecuted, Fresh(), es)
    ensures Exec(FailAfterExecuted, Fresh(), es).executions == if es[0].Call? then 1 else 0
  {
    NoSecondExecution(Step(FailAfterExecuted, Fresh(), es[0]), es[1..]);
  }

  lemma {:induction false} LastEventDecides<R>(t: Task<R>, es: seq<Event<R>>)
    requires es != [] && Legal(FailAfterSuccess, t, es)
    ensures var last := es[|es| - 1];
            Exec(FailAfterSuccess, t, es).status.Completed? <==> last.Ending? && last.end.Succeeds?
    decreases |es|
  {
    var t' := Step(FailAfterSuccess, t, es[0]);
    if |es| == 1 {
      assert es[1..] == [];
    } else {
      LastEventDecides(t', es[1..]);
    }
  }

  /** In any interleaving and under every strategy, an end and a cancellation show in the status. */
  lemma {:induction false} StatusShowsTheLastEnd<R>(strategy: RetryStrategy, t: Task<R>, es: seq<Event<R>>)
    requires es != [] && Legal(strategy, t, es)
    ensures var (status, last) := (Exec(strategy, t, es).status, es[|es| - 1]);
            && (last.Ending? ==> status == last.end.Status())
            && (last.Cancel? ==> status == Cancelled)
    decreases |es|
  {
    if |es| == 1 {
      assert es[1..] == [];
    } else {
      StatusShowsTheLastEnd(strategy, Step(strategy, t, es[0]), es[1..]);
    }
  }

  /** In any interleaving, `failAfterSuccess` refuses a call exactly when the last thing that happened to the
      task was a success; every other call runs. */
  lemma RefusedIffBehindSuccess<R>(es: seq<Event<R>>)
    requires Legal(FailAfterSuccess, Fresh(), es)
    ensures var answer := Execute(FailAfterSuccess, Exec(FailAfterSuccess, Fresh(), es)).1;
            && (answer.Refuses? <==> es != [] && es[|es| - 1].Ending? && es[|es| - 1].end.Succeeds?)
            && (answer.Refuses? || answer.Started?)
  {
    if es != [] { LastEventDecides(Fresh(), es); }
  }

  function Calls<R>(es: seq<Event<R>>): nat {
    if es == [] then 0 else Calls(es[1..]) + if es[0].Call? then 1 else 0
  }

  /** In any interleaving, `retry` runs every call. */
  lemma {:induction false} RetryRunsEveryCall<R>(t: Task<R>, es: seq<Event<R>>)
    requires Legal(AlwaysRetry, t, es)
    ensures Exec(AlwaysRetry, t, es).executions == t.executions + Calls(es)
    decreases |es|
  {
    if es != [] { RetryRunsEveryCall(Step(AlwaysRetry, t, es[0]), es[1..]); }
  }

  // ---------------------------------------------------------------- one call after the other

  function CallAndWait<R>(strategy: RetryStrategy, t: Task<R>, end: End<R>): Task<R> {
    var (t', answer) := Execute(strategy, t);
    if answer.Started? then Settle(t', end) else t'
  }

  /** The task before the k-th call of a history; `ends[k]` is how `_execute` settles if call k runs it. */
  function Before<R>(strategy: RetryStrategy, ends: seq<End<R>>, k: nat): Task<R>
    requires k <= |ends|
  {
    if k == 0 then Fresh() else CallAndWait(strategy, Before(strategy, ends, k - 1), ends[k-1])
  }

  predicate Ran<R>(strategy: RetryStrategy, ends: seq<End<R>>, k: nat)
    requires k < |ends|
  {
    Execute(strategy, Before(strategy, ends, k)).1.Started?
  }

  ghost predicate SucceededBefore<R>(ends: seq<End<R>>, k: nat)
    requires k <= |ends|
  {
    exists j: nat :: j < k && ends[j].Succeeds?
  }

  /** Which calls run, for each strategy, from the ends alone. */
  lemma {:induction false} WhichCallsRun<R>(strategy: RetryStrategy, ends: seq<End<R>>, k: nat)
    requires k < |ends|
    ensures strategy.AlwaysRetry? ==> Ran(strategy, ends, k)
    ensures strategy.FailAfterExecuted? ==> (Ran(strategy, ends, k) <==> k == 0)
    ensures strategy.NotExecAfterSuccess? ==> (Ran(strategy, ends, k) <==> !SucceededBefore(ends, k))
    ensures strategy.FailAfterSuccess? ==>
              (Ran(strategy, ends, k) <==> k == 0 || !(Ran(strategy, ends, k - 1) && ends[k-1].Succeeds?))
    ensures Before(strategy, ends, k).status.Pending? <==> k == 0
  {
    if k > 0 {
      WhichCallsRun(strategy, ends, k - 1);
      SuccessesAddUp(ends, k);
    }
  }

  lemma SuccessesAddUp<R>(ends: seq<End<R>>, k: nat)
    requires 0 < k <= |ends|
    ensures SucceededBefore(ends, k) <==> SucceededBefore(ends, k - 1) || ends[k-1].Succeeds?
  {
  }

  /** `notExecAfterSuccess`: one success at most, and every call after it hands out that success's result
      and leaves no trace, no `done` event included. */
  lemma {:induction false} FirstSuccessIsKept<R>(ends: seq<End<R>>, first: nat, k: nat)
    requires first < k < |ends| && ends[first].Succeeds?
    requires forall j :: 0 <= j < first ==> !ends[j].Succeeds?
    ensures var t := Before(NotExecAfterSuccess, ends, k);
            && t.successes == 1 && t.executions == t.notices == first + 1
            && Execute(NotExecAfterSuccess, t) == (t, Returns(Some(ends[first].value)))
    decreases k
  {
    if k == first + 1 {
      NoSuccessYet(NotExecAfterSuccess, ends, first);
    } else {
      FirstSuccessIsKept(ends, first, k - 1);
    }
  }

  lemma {:induction false} NoSuccessYet<R>(strategy: RetryStrategy, ends: seq<End<R>>, k: nat)
    requires k <= |ends| && !strategy.FailAfterExecuted? && forall j :: 0 <= j < k ==> !ends[j].Succeeds?
    ensures var t := Before(strategy, ends, k);
            && t.successes == 0 && t.executions == t.notices == k
            && (t.status.Pending? <==> k == 0) && !t.status.Completed?
  {
    if k > 0 { NoSuccessYet(strategy, ends, k - 1); }
  }

  /** `failAfterSuccess` refuses only the call right behind a successful one: the refusal leaves the task
      failed, and the call after it runs again. */
  lemma {:induction false} SuccessesAlternateWithRefusals<R>(ends: seq<End<R>>, k: nat)
    requires k < |ends| && forall j :: 0 <= j < |ends| ==> ends[j].Succeeds?
    ensures Ran(FailAfterSuccess, ends, k) <==> k % 2 == 0
  {
    WhichCallsRun(FailAfterSuccess, ends, k);
    if k > 0 { SuccessesAlternateWithRefusals(ends, k - 1); }
  }

  /** So "no execution after the first success" holds over a history exactly when at most one call
      follows that success. */
  lemma SuccessIsFinalIffOneCallFollows<R>(ends: seq<End<R>>, first: nat)
    requires first < |ends| && ends[first].Succeeds?
    requires forall j :: 0 <= j < first ==> !ends[j].Succeeds?
    ensures (forall k :: first < k < |ends| ==> !Ran(FailAfterSuccess, ends, k)) <==> |ends| <= first + 2
  {
    hide Before;
    NoSuccessYet(FailAfterSuccess, ends, first);
    assert Ran(FailAfterSuccess, ends, first);
    if |ends| > first + 1 {
      WhichCallsRun(FailAfterSuccess, ends, first + 1);
      assert !Ran(FailAfterSuccess, ends, first + 1);
    }
    if |ends| > first + 2 {
      WhichCallsRun(FailAfterSuccess, ends, first + 2);
      assert Ran(FailAfterSuccess, ends, first + 2);
    }
  }

  /** `retry`: every call runs, and the metadata of each earlier run is kept in order. */
  lemma {:induction false} EarlierRunsAreKept<R>(ends: seq<End<R>>, k: nat)
    requires 0 < k <= |ends|
    ensures var t := Before(AlwaysRetry, ends, k);
            && t.status == ends[k-1].Status() && t.executions == t.notices == k
            && |t.meta| == k - 1 && forall j :: 0 <= j < k - 1 ==> t.meta[j] == ends[j].Status()
  {
    if k > 1 { EarlierRunsAreKept(ends, k - 1); }
  }

  /** The task after k calls, for every strategy that never answers from the stored result: the k-th call
      shows in the status by its end, or as failed when it was refused; each call has given one `done`; and
      the metadata keeps, in order, how each earlier call left the task. */
  lemma {:induction false} HistoryIsKept<R>(strategy: RetryStrategy, ends: seq<End<R>>, k: nat)
    requires 0 < k <= |ends| && !strategy.NotExecAfterSuccess?
    ensures var t := Before(strategy, ends, k);
            && t.status == (if Ran(strategy, ends, k - 1) then ends[k-1].Status() else Failed)
            && t.notices == k && t.running == 0
            && |t.meta| == k - 1 && forall j :: 0 < j < k ==> t.meta[j-1] == Before(strategy, ends, j).status
  {
    if k > 1 { HistoryIsKept(strategy, ends, k - 1); }
  }

  /** Under `notExecAfterSuccess` the same holds up to the first success. */
  lemma {:induction false} HistoryIsKeptUpToTheSuccess<R>(ends: seq<End<R>>, k: nat)
    requires 0 < k <= |ends| && forall j :: 0 <= j < k - 1 ==> !ends[j].Succeeds?
    ensures var t := Before(NotExecAfterSuccess, ends, k);
            && t.status == ends[k-1].Status() && t.notices == k && t.running == 0
            && |t.meta| == k - 1 && forall j :: 0 <= j < k - 1 ==> t.meta[j] == ends[j].Status()
  {
    if k > 1 { HistoryIsKeptUpToTheSuccess(ends, k - 1); }
  }

  // ---------------------------------------------------------------- how often a task can succeed

  /** Steps of a `notExecAfterSuccess` task that leave no room for a further success: no call while an
      execution is open, unless the task has completed, and no cancellation of a completed task with no
      execution open. */
  predicate Careful<R>(t: Task<R>, e: Event<R>) {
    match e
    case Call => t.running == 0 || t.status.Completed?
    case Cancel => t.running > 0 || !t.status.Completed?
    case Ending(_) => true
  }

  predicate CarefulRun<R>(t: Task<R>, es: seq<Event<R>>)
    decreases |es|
  {
    es == []
    || ((es[0].Ending? ==> t.running > 0) && Careful(t, es[0])
        && CarefulRun(Step(NotExecAfterSuccess, t, es[0]), es[1..]))
  }

  lemma {:induction false} CarefulRunIsLegal<R>(t: Task<R>, es: seq<Event<R>>)
    requires CarefulRun(t, es)
    ensures Legal(NotExecAfterSuccess, t, es)
    decreases |es|
  {
    if es != [] { CarefulRunIsLegal(Step(NotExecAfterSuccess, t, es[0]), es[1..]); }
  }

  /** The successes so far and those still open: every open execution, or, if there is none and the task
      has not completed, the one of the next call. */
  function Attainable<R>(t: Task<R>): nat {
    t.successes + if t.running > 0 then t.running else if t.status.Completed? then 0 else 1
  }

  /** A step makes a further success possible exactly when it is careless. */
  lemma OnlyCarelessStepsRaise<R>(t: Task<R>, e: Event<R>)
    requires e.Ending? ==> t.running > 0
    ensures Attainable(Step(NotExecAfterSuccess, t, e)) > Attainable(t) <==> !Careful(t, e)
  {
  }

  lemma {:induction false} CarefulRunsStayBelow<R>(t: Task<R>, es: seq<Event<R>>)
    requires CarefulRun(t, es) && Legal(NotExecAfterSuccess, t, es)
    ensures Exec(NotExecAfterSuccess, t, es).successes <= Attainable(Exec(NotExecAfterSuccess, t, es)) <= Attainable(t)
    decreases |es|
  {
    hide Step, Careful, Attainable;
    if es == [] {
      SuccessesAreReached(t);
    } else {
      OnlyCarelessStepsRaise(t, es[0]);
      CarefulRunsStayBelow(Step(NotExecAfterSuccess, t, es[0]), es[1..]);
    }
  }

  lemma SuccessesAreReached<R>(t: Task<R>)
    ensures t.successes <= Attainable(t)
  {
  }

  lemma {:induction false} OpenRunsSucceed<R>(t: Task<R>, v: R) returns (es: seq<Event<R>>)
    ensures CarefulRun(t, es) && Legal(NotExecAfterSuccess, t, es)
    ensures Exec(NotExecAfterSuccess, t, es).successes == Attainable(t)
    decreases t.running, t.status.Completed?
  {
    es := [];
    var e: Event<R> := if t.running > 0 then Ending(Succeeds(v)) else Call;
    if t.running > 0 {
      var t' := Step(NotExecAfterSuccess, t, e);
      var more := OpenRunsSucceed(t', v);
      es := [e] + more;
      FirstStep(NotExecAfterSuccess, t, e, more);
      assert es[1..] == more;
    } else if !t.status.Completed? {
      var t1 := Step(NotExecAfterSuccess, t, Call);
      OneStep(NotExecAfterSuccess, t1, Ending(Succeeds(v)));
      FirstStep(NotExecAfterSuccess, t, Call, [Ending(Succeeds(v))]);
      es := [Call] + [Ending(Succeeds(v))];
      assert es[1..] == [Ending(Succeeds(v))] && [Ending(Succeeds(v))][1..] == [];
      assert CarefulRun(Step(NotExecAfterSuccess, t1, Ending(Succeeds(v))), []);
      assert CarefulRun(t1, [Ending(Succeeds(v))]);
    }
  }

  /** From any state, no careful continuation comes to more than `n` successes exactly when those made and
      still open are no more than `n`. */
  lemma AtMostIffAttainable<R>(t: Task<R>, n: nat, v: R)
    ensures (forall es :: CarefulRun(t, es) ==>
               Legal(NotExecAfterSuccess, t, es) && Exec(NotExecAfterSuccess, t, es).successes <= n)
            <==> Attainable(t) <= n
  {
    forall es | CarefulRun(t, es)
      ensures Legal(NotExecAfterSuccess, t, es) && Exec(NotExecAfterSuccess, t, es).successes <= Attainable(t)
    {
      CarefulRunIsLegal(t, es);
      CarefulRunsStayBelow(t, es);
    }
    var most := OpenRunsSucceed(t, v);
    assert CarefulRun(t, most);
  }

  /** Nothing has succeeded and at most one execution is open; or one has, and the task rests on it. */
  ghost predicate SettledOnce<R>(t: Task<R>) {
    if t.successes == 0 then t.running <= 1 && !t.status.Completed?
    else t.successes == 1 && t.running == 0 && t.status.Completed?
  }

  lemma {:induction false} CarefulRunsSettleOnce<R>(t: Task<R>, es: seq<Event<R>>)
    requires SettledOnce(t) && CarefulRun(t, es) && Legal(NotExecAfterSuccess, t, es)
    ensures SettledOnce(Exec(NotExecAfterSuccess, t, es))
    ensures t.successes == 1 ==> Exec(NotExecAfterSuccess, t, es) == t && forall e :: e in es ==> e == Call
    ensures forall i, v :: 0 <= i < |es| && t.successes == 0 && es[i] == Ending(Succeeds(v)) ==>
              Exec(NotExecAfterSuccess, t, es).successes == 1 && Exec(NotExecAfterSuccess, t, es).result == Some(v)
    decreases |es|
  {
    if es != [] {
      var t' := Step(NotExecAfterSuccess, t, es[0]);
      CarefulRunsSettleOnce(t', es[1..]);
      assert es == [es[0]] + es[1..];
      forall i, v | 0 <= i < |es| && t.successes == 0 && es[i] == Ending(Succeeds(v))
        ensures Exec(NotExecAfterSuccess, t, es).successes == 1 && Exec(NotExecAfterSuccess, t, es).result == Some(v)
      {
        if i > 0 { assert es[1..][i-1] == es[i] && es[1..][i-1] in es[1..]; }
      }
    }
  }

  /** A new task driven carefully, cancellations included, succeeds at most once, and from then on it rests
      on that success: a call returns its value, and neither a call nor anything else changes the task. */
  lemma CarefulTaskSucceedsOnce<R>(es: seq<Event<R>>, i: nat, v: R)
    requires CarefulRun(Fresh(), es) && Legal(NotExecAfterSuccess, Fresh(), es)
    requires i < |es| && es[i] == Ending(Succeeds(v))
    ensures var t := Exec(NotExecAfterSuccess, Fresh(), es);
            && t.successes == 1 && t.running == 0
            && Execute(NotExecAfterSuccess, t) == (t, Returns(Some(v)))
  {
    CarefulRunsSettleOnce(Fresh(), es);
  }

  /** The two ways to be careless. A repeated run shows as pending, so calls that overlap are not held
      back: under `notExecAfterSuccess` two overlapping calls both succeed. */
  lemma OverlappingCallsSucceedTwice<R>(a: R, b: R)
    ensures var es := [Call, Call, Ending(Succeeds(a)), Ending(Succeeds(b))];
            && Legal(NotExecAfterSuccess, Fresh(), es)
            && Exec(NotExecAfterSuccess, Fresh(), es).successes == 2
  {
    FourSteps(NotExecAfterSuccess, Fresh(), Call, Call, Ending(Succeeds(a)), Ending(Succeeds(b)));
  }

  /** So does a cancelled success: cancelling is not refused once the task has completed. */
  lemma CancellingReopensASuccess<R>(a: R, b: R)
    ensures var es := [Call, Ending(Succeeds(a)), Cancel, Call, Ending(Succeeds(b))];
            && Legal(NotExecAfterSuccess, Fresh(), es)
            && Exec(NotExecAfterSuccess, Fresh(), es).successes == 2
  {
    var t1 := Step(NotExecAfterSuccess, Fresh<R>(), Call);
    FourSteps(NotExecAfterSuccess, t1, Ending(Succeeds(a)), Cancel, Call, Ending(Succeeds(b)));
    FirstStep(NotExecAfterSuccess, Fresh(), Call, [Ending(Succeeds(a)), Cancel, Call, Ending(Succeeds(b))]);
    assert [Call] + [Ending(Succeeds(a)), Cancel, Call, Ending(Succeeds(b))]
        == [Call, Ending(Succeeds(a)), Cancel, Call, Ending(Succeeds(b))];
  }

  lemma FourSteps<R>(st: RetryStrategy, t: Task<R>, e0: Event<R>, e1: Event<R>, e2: Event<R>, e3: Event<R>)
    requires e0.Ending? ==> t.running > 0
    requires e1.Ending? ==> Step(st, t, e0).running > 0
    requires e2.Ending? ==> Step(st, Step(st, t, e0), e1).running > 0
    requires e3.Ending? ==> Step(st, Step(st, Step(st, t, e0), e1), e2).running > 0
    ensures Legal(st, t, [e0, e1, e2, e3])
    ensures Exec(st, t, [e0, e1, e2, e3]) == Step(st, Step(st, Step(st, Step(st, t, e0), e1), e2), e3)
  {
    hide Step, Legal, Exec;
    var t1 := Step(st, t, e0);
    var t2 := Step(st, t1, e1);
    var t3 := Step(st, t2, e2);
    OneStep(st, t3, e3);
    FirstStep(st, t2, e2, [e3]);
    FirstStep(st, t1, e1, [e2] + [e3]);
    FirstStep(st, t, e0, [e1] + ([e2] + [e3]));
    assert [e0] + ([e1] + ([e2] + [e3])) == [e0, e1, e2, e3];
  }

  lemma OneStep<R>(st: RetryStrategy, t: Task<R>, e: Event<R>)
    requires e.Ending? ==> t.running > 0
    ensures Legal(st, t, [e]) && Exec(st, t, [e]) == Step(st, t, e)
  {
  }

  lemma FirstStep<R>(st: RetryStrategy, t: Task<R>, e: Event<R>, es: seq<Event<R>>)
    requires (e.Ending? ==> t.running > 0) && Legal(st, Step(st, t, e), es)
    ensures Legal(st, t, [e] + es) && Exec(st, t, [e] + es) == Exec(st, Step(st, t, e), es)
  {
  }
}
