/** How the scans of a polling group follow each other in every run. */
module PollingCycles {
  import opened Wrappers
  import opened PollingSpec
  import opened PollingRuns

  /** The limiter takes the first task that the scan gives it. */
  ghost predicate Accepting(e: Event) { e.TimerFires? ==> !e.refuses(0) }

  /** Between two cycles: nothing is under way and one timer waits for the next scan. */
  ghost predicate Waiting(x: Executor) {
    && x.manager.pending == {} && x.cycleTimer.None?
    && |x.scans| == |x.endings| > 0 && |x.due| > 0 && x.timers == [x.due[|x.due| - 1]]
  }

  /** Inside a cycle: tasks are under way and no timer is armed. */
  ghost predicate Cycling(x: Executor) {
    && x.manager.pending != {} && x.timers == []
    && |x.scans| == |x.endings| + 1 && x.cycleTimer == Some(x.scans[|x.scans| - 1])
  }

  /** The last scan found no entry it could build: no cycle will ever end, so no scan will ever come. */
  ghost predicate Starved(c: Catalog, x: Executor) {
    && x.manager.pending == {} && x.timers == []
    && |x.scans| == |x.endings| + 1 && Buildable(c, x.manager.fast + x.manager.slow) == {}
  }

  /** Scans and endings alternate in time, each timer due as long after its cycle's end as the cycle was
      shorter than the period, rounded to a millisecond. */
  ghost predicate Paced(period: real, x: Executor) {
    && |x.due| == |x.endings| <= |x.scans| <= |x.endings| + 1
    && (forall k :: 0 <= k < |x.endings| ==>
          x.scans[k] <= x.endings[k] && x.due[k] == x.endings[k] + NextScan(period, Some(x.scans[k]), x.endings[k]))
    && (forall k :: 0 <= k < |x.scans| - 1 ==> x.due[k] <= x.scans[k+1])
    && (forall k :: 0 <= k < |x.scans| ==> x.scans[k] <= x.clock)
  }

  ghost predicate Alternating(c: Catalog, period: real, x: Executor) {
    && Partition(x.manager, c.Keys)
    && Paired(x.manager)
    && |x.due| == |x.endings|
    && (Waiting(x) || Cycling(x) || Starved(c, x))
    && Paced(period, x)
  }

  lemma ScanAlternates(c: Catalog, period: real, x: Executor, now: real, refuses: nat -> bool)
    requires Partition(x.manager, c.Keys) && Paced(period, x) && !refuses(0)
    requires x.manager.pending == {} && x.manager.handlers == multiset{}
    requires x.timers == [] && x.cycleTimer.None? && |x.scans| == |x.endings|
    requires now >= x.clock && (|x.due| > 0 ==> x.due[|x.due| - 1] <= now)
    ensures Alternating(c, period, PerformScan(c, period, x, now, refuses))
  {
    hide Partition, Buildable, NextScan;
    EndsInsideIffFirstIsRefused(c, x.manager, refuses);
    ScanPairs(c, x.manager, refuses);
    ScanKeepsLive(c, x.manager, refuses);
    SameLiveIsSameBuildable(c, x.manager, Scan(c, x.manager, refuses).0);
    var m := Scan(c, x.manager, refuses).0;
    var x' := PerformScan(c, period, x, now, refuses);
    assert x' == x.(manager := m, cycleTimer := Some(now), scans := x.scans + [now], clock := now);
  }

  lemma StepAlternates(c: Catalog, period: real, x: Executor, e: Event)
    requires Alternating(c, period, x) && Enabled(x, e) && Accepting(e)
    ensures Alternating(c, period, Step(c, period, x, e))
  {
    hide Partition, Valid, Paced, Done, Select;
    match e {
      case TimerFires(timer, at, refuses) =>
        var y := x.(timers := x.timers[..timer] + x.timers[timer + 1..]);
        assert y.timers == [];
        TimersDoNotPace(period, x, y.timers);
        ScanAlternates(c, period, y, at, refuses);
      case TaskDone(id, failed, at) =>
        DoneKeepsPartition(x.manager, c.Keys, id, failed);
        TaskDoneAlternates(c, period, x, id, failed, at);
    }
  }

  lemma TaskDoneAlternates(c: Catalog, period: real, x: Executor, id: string, failed: bool, at: real)
    requires Alternating(c, period, x) && id in x.manager.handlers && at >= x.clock
    requires Partition(Done(x.manager, id, failed), c.Keys)
    ensures Alternating(c, period, Follow(period, x, Done(x.manager, id, failed), at))
  {
    hide Partition, Valid, Done, Paced, Buildable;
    var m := Done(x.manager, id, failed);
    var y := x.(manager := m, clock := at);
    DoneCounts(x.manager, id, failed);
    if m.pending == {} {
      EndingIsPaced(period, x, m, at);
      OneEnding(period, y, at);
      assert Follow(period, x, m, at) == EndCycle(period, y, at);
    } else {
      StaysPaced(period, x, m, at);
      assert Follow(period, x, m, at) == y;
    }
  }

  lemma DoneCounts(m: Manager, id: string, failed: bool)
    ensures var m' := Done(m, id, failed);
            && m'.pending == m.pending - {id} && m'.handlers == m.handlers - multiset{id}
            && m'.ends == m.ends + if m'.pending == {} then 1 else 0
  {
  }

  lemma EndingIsPaced(period: real, x: Executor, m: Manager, now: real)
    requires Paced(period, x) && Cycling(x) && now >= x.clock
    ensures Paced(period, EndCycle(period, x.(manager := m, clock := now), now))
  {
    hide NextScan;
  }

  lemma StaysPaced(period: real, x: Executor, m: Manager, now: real)
    requires Paced(period, x) && now >= x.clock
    ensures Paced(period, x.(manager := m, clock := now))
  {
  }

  lemma TimersDoNotPace(period: real, x: Executor, timers: seq<real>)
    requires Paced(period, x)
    ensures Paced(period, x.(timers := timers))
  {
  }

  lemma OneEnding(period: real, x: Executor, now: real)
    ensures EndCycles(period, x, 1, now) == EndCycle(period, x, now)
  {
  }

  lemma {:induction false} AlwaysAlternating(c: Catalog, period: real, x: Executor, es: seq<Event>)
    requires Alternating(c, period, x) && Legal(c, period, x, es) && forall e :: e in es ==> Accepting(e)
    ensures Alternating(c, period, Exec(c, period, x, es))
    decreases |es|
  {
    hide Alternating, Accepting, Step;
    if es != [] {
      assert Partition(x.manager, c.Keys) by { PartitionOf(c, period, x); }
      StepKeepsPartition(c, period, x, es[0]);
      StepAlternates(c, period, x, es[0]);
      AlwaysAlternating(c, period, Step(c, period, x, es[0]), es[1..]);
    }
  }

  lemma PartitionOf(c: Catalog, period: real, x: Executor)
    requires Alternating(c, period, x)
    ensures Partition(x.manager, c.Keys)
  {
  }

  /** `start` on a new executor. */
  ghost function Started(c: Catalog, period: real, m: Manager, now: real, refuses: nat -> bool): (r: Executor)
    requires Partition(m, c.Keys)
    ensures Partition(r.manager, c.Keys)
  {
    PerformScan(c, period, Executor(m, [], None, [], [], [], now), now, refuses)
  }

  /** While the limiter takes the first task of every scan: if some scanned entry can be built, each
      `startCycle` is followed by exactly one `endCycle`, with nothing under way before the next scan, and
      consecutive scans begin the larger of the period and the cycle's duration apart, up to half a
      millisecond and the timer's lateness; if none can, the first scan is the last event there is. */
  lemma CyclesAlternate(c: Catalog, period: real, m: Manager, now: real, refuses: nat -> bool, es: seq<Event>)
    requires Partition(m, c.Keys) && m.pending == {} && m.handlers == multiset{} && !refuses(0)
    requires Legal(c, period, Started(c, period, m, now, refuses), es) && forall e :: e in es ==> Accepting(e)
    ensures var x := Exec(c, period, Started(c, period, m, now, refuses), es);
            && (if Buildable(c, m.fast + m.slow) != {} then Waiting(x) || Cycling(x) else Starved(c, x) && es == [])
            && |x.due| == |x.endings|
            && (forall k :: 0 <= k < |x.endings| && k + 1 < |x.scans| ==> PacedAt(period, x, k))
  {
    hide Partition, Valid, Select, Paced, PerformScan, Exec, Legal, Waiting, Cycling, Starved, Buildable;
    var x0 := Started(c, period, m, now, refuses);
    NewExecutorIsPaced(period, m, now);
    ScanAlternates(c, period, Executor(m, [], None, [], [], [], now), now, refuses);
    AlwaysAlternating(c, period, x0, es);
    var x := Exec(c, period, x0, es);
    StartKeepsLive(c, period, m, now, refuses);
    EntriesStayLive(c, period, x0, es);
    SameLiveIsSameBuildable(c, m, x0.manager);
    SameLiveIsSameBuildable(c, x0.manager, x.manager);
    if Starved(c, x0) {
      NothingFollowsStarved(c, period, x0, es);
      NoEventsYet(c, period, x0);
      StarvedHasNothing(c, x0);
    } else {
      StartIsStarved(c, period, m, now, refuses);
      if Starved(c, x) { StarvedHasNothing(c, x); }
    }
    forall k | 0 <= k < |x.endings| && k + 1 < |x.scans|
      ensures PacedAt(period, x, k)
    {
      CycleGap(period, x, k);
    }
  }

  lemma StartKeepsLive(c: Catalog, period: real, m: Manager, now: real, refuses: nat -> bool)
    requires Partition(m, c.Keys)
    ensures SameLive(c, m, Started(c, period, m, now, refuses).manager)
  {
    hide Partition, SameLive;
    PerformScanKeepsLive(c, period, Executor(m, [], None, [], [], [], now), now, refuses);
  }

  lemma NothingFollowsStarved(c: Catalog, period: real, x: Executor, es: seq<Event>)
    requires Partition(x.manager, c.Keys) && Starved(c, x) && Paired(x.manager) && Legal(c, period, x, es)
    ensures es == []
  {
  }

  lemma StarvedHasNothing(c: Catalog, x: Executor)
    requires Starved(c, x)
    ensures Buildable(c, x.manager.fast + x.manager.slow) == {}
  {
  }

  /** With nothing to build the first scan starves the group. */
  lemma StartIsStarved(c: Catalog, period: real, m: Manager, now: real, refuses: nat -> bool)
    requires Partition(m, c.Keys) && m.pending == {} && m.handlers == multiset{} && !refuses(0)
    requires Alternating(c, period, Started(c, period, m, now, refuses))
    ensures Buildable(c, m.fast + m.slow) == {} ==> Starved(c, Started(c, period, m, now, refuses))
  {
    hide Partition, Buildable, Paced;
    EndsInsideIffFirstIsRefused(c, m, refuses);
    ScanKeepsLive(c, m, refuses);
    var m' := Scan(c, m, refuses).0;
    SameLiveIsSameBuildable(c, m, m');
    var x := Executor(m, [], None, [], [], [], now);
    assert Started(c, period, m, now, refuses) == x.(manager := m', cycleTimer := Some(now), scans := [now]);
  }

  ghost predicate AllAccepting(es: seq<Event>) { forall e :: e in es ==> Accepting(e) }

  /** So a new group, the first task of whose scans the limiter takes, can fall silent exactly when none of
      its entries can be built. */
  lemma StarvesIffNothingIsValid(c: Catalog, period: real, m: Manager, now: real, refuses: nat -> bool)
    requires Partition(m, c.Keys) && m.off == [] && m.pending == {} && m.handlers == multiset{}
    requires !refuses(0)
    ensures (exists es :: Legal(c, period, Started(c, period, m, now, refuses), es) && AllAccepting(es)
                          && Starved(c, Exec(c, period, Started(c, period, m, now, refuses), es)))
            <==> forall id :: id in c ==> !ValidConfig(c[id])
  {
    hide Partition, Starved, Legal, Exec, PerformScan;
    var x0 := Started(c, period, m, now, refuses);
    forall id ensures Valid(c, id) ==> id in m.fast + m.slow { InOneTable(m, c.Keys, id); }
    forall es | Legal(c, period, x0, es) && AllAccepting(es) && Starved(c, Exec(c, period, x0, es))
      ensures Buildable(c, m.fast + m.slow) == {}
    {
      CyclesAlternate(c, period, m, now, refuses, es);
      CyclesAreNotStarved(c, Exec(c, period, x0, es));
    }
    if forall id :: id in c ==> !ValidConfig(c[id]) {
      NoEventsYet(c, period, x0);
      assert Buildable(c, m.fast + m.slow) == {};
      CyclesAlternate(c, period, m, now, refuses, []);
      assert AllAccepting([]);
    } else {
      var id :| id in c && ValidConfig(c[id]);
      assert Valid(c, id) && id in Buildable(c, m.fast + m.slow);
    }
  }

  lemma NoEventsYet(c: Catalog, period: real, x: Executor)
    requires Partition(x.manager, c.Keys)
    ensures Legal(c, period, x, []) && Exec(c, period, x, []) == x
  {
  }

  lemma CyclesAreNotStarved(c: Catalog, x: Executor)
    ensures Starved(c, x) ==> !Waiting(x) && !Cycling(x)
  {
  }

  lemma NewExecutorIsPaced(period: real, m: Manager, now: real)
    ensures Paced(period, Executor(m, [], None, [], [], [], now))
  {
  }

  /** The k-th scan, its cycle's end and the next scan are in order, and the scans are the larger of the
      period and the cycle's duration apart, up to half a millisecond and the timer's lateness. */
  ghost predicate PacedAt(period: real, x: Executor, k: nat)
    requires k + 1 < |x.scans| && k < |x.endings| == |x.due|
  {
    var lateness := x.scans[k+1] - x.due[k];
    var gap := Max(period, x.endings[k] - x.scans[k]);
    && x.scans[k] <= x.endings[k] <= x.scans[k+1]
    && lateness >= 0.0 && -0.5 <= x.scans[k+1] - x.scans[k] - lateness - gap <= 0.5
  }

  lemma CycleGap(period: real, x: Executor, k: nat)
    requires Paced(period, x) && k + 1 < |x.scans| && k < |x.endings|
    ensures PacedAt(period, x, k)
  {
  }

  // ---------------------------------------------------------------- endings and timers

  function Fired(es: seq<Event>): nat {
    if es == [] then 0 else Fired(es[1..]) + if es[0].TimerFires? then 1 else 0
  }

  lemma {:induction false} EndingsAddUp(period: real, x: Executor, k: nat, now: real)
    ensures var x' := EndCycles(period, x, k, now);
            |x'.timers| == |x.timers| + k && |x'.endings| == |x.endings| + k && |x'.due| == |x.due| + k
  {
    if k > 0 { EndingsAddUp(period, x, k - 1, now); }
  }

  lemma FollowAddsUp(period: real, x: Executor, m: Manager, now: real)
    requires m.ends >= x.manager.ends
    ensures var (x', k) := (Follow(period, x, m, now), m.ends - x.manager.ends);
            && x'.manager == m
            && |x'.timers| == |x.timers| + k && |x'.endings| == |x.endings| + k && |x'.due| == |x.due| + k
  {
    FollowKeepsManager(period, x, m, now);
    EndingsAddUp(period, x.(manager := m, clock := now), m.ends - x.manager.ends, now);
  }

  /** Each `endCycle` ends one cycle and arms one timer, and each timer fires once. */
  ghost predicate Balanced(x: Executor, x': Executor, fired: nat) {
    && |x'.endings| - |x.endings| == x'.manager.ends - x.manager.ends
    && |x'.timers| + fired == |x.timers| + x'.manager.ends - x.manager.ends
  }

  lemma StepBalances(c: Catalog, period: real, x: Executor, e: Event)
    requires Partition(x.manager, c.Keys) && Enabled(x, e)
    ensures Balanced(x, Step(c, period, x, e), if e.TimerFires? then 1 else 0)
  {
    hide Partition, Scan, Follow, Done;
    match e {
      case TimerFires(timer, at, refuses) =>
        var y := x.(timers := x.timers[..timer] + x.timers[timer + 1..]);
        var y' := y.(cycleTimer := if y.cycleTimer.None? then Some(at) else y.cycleTimer, scans := y.scans + [at]);
        ScanEmits(c, x.manager, refuses);
        FollowAddsUp(period, y', Scan(c, x.manager, refuses).0, at);
      case TaskDone(id, failed, at) =>
        DoneCounts(x.manager, id, failed);
        FollowAddsUp(period, x, Done(x.manager, id, failed), at);
    }
  }

  /** In every run, whatever the limiter refuses and however often a cycle ends: one timer for each ending
      that has not fired yet, on top of those armed before. */
  lemma {:induction false} EveryEndingArmsATimer(c: Catalog, period: real, x: Executor, es: seq<Event>)
    requires Partition(x.manager, c.Keys) && Legal(c, period, x, es)
    ensures Balanced(x, Exec(c, period, x, es), Fired(es))
    decreases |es|
  {
    hide Partition, Step, Enabled;
    if es != [] {
      StepKeepsPartition(c, period, x, es[0]);
      StepBalances(c, period, x, es[0]);
      EveryEndingArmsATimer(c, period, Step(c, period, x, es[0]), es[1..]);
    }
  }
}
