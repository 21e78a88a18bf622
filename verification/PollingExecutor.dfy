/** The executor object of packages/api/tasks/src/Polling/PollingExecutor.ts around its manager, each
    method proved against the function of the same name in PollingSpec. */
module PollingExecutors {
  import opened Wrappers
  import opened PollingSpec
  import opened PollingManagers
  import opened PollingRuns
  import Spec = PollingSpec

  class PollingExecutor {
    const manager: PollingManager
    const pollingPeriod: real
    var timers: seq<real>
    var cycleTimer: Option<real>
    ghost var scans: seq<real>
    ghost var endings: seq<real>
    ghost var due: seq<real>
    ghost var clock: real

    ghost function State(): Executor reads this, manager {
      Executor(manager.State(), timers, cycleTimer, scans, endings, due, clock)
    }

    constructor (entries: seq<Config>, period: real)
      ensures fresh(manager) && manager.Valid() && pollingPeriod == period
      ensures manager.State() == Manager(Listed(entries).0, [], [], {}, multiset{}, 0)
      ensures manager.catalog == Listed(entries).1
      ensures State() == Executor(manager.State(), [], None, [], [], [], 0.0)
    {
      manager := new PollingManager(entries);
      pollingPeriod := period;
      timers, cycleTimer, scans, endings, due, clock := [], None, [], [], [], 0.0;
    }

    method GetNextScan(now: real) returns (wait: real)
      modifies this`cycleTimer
      ensures wait == NextScan(pollingPeriod, old(cycleTimer), now) && cycleTimer.None?
    {
      var lastCycleDuration := 0.0;
      if cycleTimer.Some? {
        lastCycleDuration := now - cycleTimer.value;
        cycleTimer := None;
      }
      var nextScan := if lastCycleDuration < pollingPeriod then pollingPeriod - lastCycleDuration else 0.0;
      wait := Round(nextScan);
    }

    method OnEndCycle(now: real)
      modifies this
      ensures State() == EndCycle(pollingPeriod, old(State()), now)
    {
      var wait := GetNextScan(now);
      timers := timers + [now + wait];
      endings, due := endings + [now], due + [now + wait];
    }

    /** Reacts to the `endCycle` events the manager emitted since it had emitted `before`. */
    method FollowManager(before: nat, ghost was: Executor, now: real)
      requires before == was.manager.ends <= manager.ends && State() == was.(manager := manager.State(), clock := now)
      modifies this
      ensures State() == Follow(pollingPeriod, was, manager.State(), now)
    {
      ghost var x := State();
      for i := 0 to manager.ends - before
        invariant State() == EndCycles(pollingPeriod, x, i, now)
      {
        OnEndCycle(now);
      }
    }

    method PerformScan(now: real, refuses: nat -> bool)
      requires manager.Valid()
      modifies this, manager
      ensures manager.Valid()
      ensures State() == Spec.PerformScan(manager.catalog, pollingPeriod, old(State()), now, refuses)
    {
      hide Scan, Partition, EndCycles;
      if cycleTimer.None? { cycleTimer := Some(now); }
      scans := scans + [now];
      ghost var x := State();
      var before := manager.ends;
      ScanEmits(manager.catalog, manager.State(), refuses);
      ghost var given := manager.Schedule(refuses);
      clock := now;
      FollowManager(before, x, now);
    }

    method TaskDone(id: string, failed: bool, now: real)
      modifies this, manager
      ensures State() == Follow(pollingPeriod, old(State()), Done(old(manager.State()), id, failed), now)
    {
      ghost var x := State();
      var before := manager.ends;
      manager.OnDone(id, failed);
      clock := now;
      FollowManager(before, x, now);
    }
  }
}
