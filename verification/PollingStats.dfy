/** The figures of a polling group (packages/api/tasks/src/Polling/PollingStatsManager.ts): the handler
    updates them cycle by cycle; they are defined here over the whole history of durations. */
module PollingStats {
  import opened Wrappers

  // ---------------------------------------------------------------- over the whole history

  function Overruns(period: real, h: seq<real>): nat {
    if h == [] then 0 else Overruns(period, h[..|h| - 1]) + if h[|h| - 1] > period then 1 else 0
  }

  /** The number of cycles longer than the period. */
  lemma {:induction false} OverrunsAreCounted(period: real, h: seq<real>)
    ensures Overruns(period, h) == |set k: nat | k < |h| && h[k] > period|
  {
    if h != [] {
      var n, g := |h| - 1, h[..|h| - 1];
      OverrunsAreCounted(period, g);
      var before := set k: nat | k < |g| && g[k] > period;
      assert (set k: nat | k < |h| && h[k] > period) == before + if h[n] > period then {n} else {};
    }
  }

  /** `n` is the length of the run of overruns the history ends with. */
  ghost predicate TrailingRun(period: real, h: seq<real>, n: nat) {
    && n <= |h|
    && (forall k :: |h| - n <= k < |h| ==> h[k] > period)
    && (n < |h| ==> h[|h| - n - 1] <= period)
  }

  /** The last `size` durations, or all of them. */
  function Window(size: nat, h: seq<real>): seq<real> { if |h| <= size then h else h[|h| - size..] }

  function Sum(s: seq<real>): real { if s == [] then 0.0 else s[0] + Sum(s[1..]) }

  /** No average of an empty window: the division gives no number. */
  function Average(s: seq<real>): Option<real> { if s == [] then None else Some(Sum(s) / |s| as real) }

  /** The longest cycle, counting from zero. */
  ghost predicate Longest(h: seq<real>, d: real) {
    d >= 0.0 && (d > 0.0 ==> d in h) && forall x :: x in h ==> x <= d
  }

  /** The shortest cycle; none yet stands for the initial infinity. */
  ghost predicate Shortest(h: seq<real>, d: Option<real>) {
    && (d.None? <==> h == [])
    && (d.Some? ==> d.value in h && forall x :: x in h ==> x >= d.value)
  }

  /** The alarm: the last three cycles overran. */
  lemma TrailingRunReaches(period: real, h: seq<real>, n: nat, k: nat)
    requires TrailingRun(period, h, n)
    ensures n >= k <==> |h| >= k && forall j :: |h| - k <= j < |h| ==> h[j] > period
  {
  }

  lemma {:induction false} SumSnoc(s: seq<real>, d: real)
    ensures Sum(s + [d]) == Sum(s) + d
  {
    if s == [] {
      assert [d][1..] == [];
    } else {
      SumSnoc(s[1..], d);
      assert (s + [d])[1..] == s[1..] + [d];
    }
  }

  lemma {:induction false} SumIsBetween(s: seq<real>, lo: real, hi: real)
    requires forall x :: x in s ==> lo <= x <= hi
    ensures |s| as real * lo <= Sum(s) <= |s| as real * hi
  {
    if s != [] {
      assert forall x :: x in s[1..] ==> x in s;
      SumIsBetween(s[1..], lo, hi);
      assert s[0] in s;
      OneMoreTime(|s[1..]|, s[0], Sum(s[1..]), lo, hi);
    }
  }

  lemma OneMoreTime(k: nat, x: real, sum: real, lo: real, hi: real)
    requires lo <= x <= hi && k as real * lo <= sum <= k as real * hi
    ensures (k + 1) as real * lo <= x + sum <= (k + 1) as real * hi
  {
    var n, m := k as real, (k + 1) as real;
    assert m == n + 1.0;
    assert m * lo == n * lo + lo && m * hi == n * hi + hi;
  }

  /** The average lies between any bounds of the durations, so that of equal ones is their value. */
  lemma AverageIsBetween(s: seq<real>, lo: real, hi: real)
    requires forall x :: x in s ==> lo <= x <= hi
    ensures Average(s).Some? <==> s != []
    ensures s != [] ==> lo <= Average(s).value <= hi
  {
    SumIsBetween(s, lo, hi);
    if s != [] { Divided(Sum(s), |s| as real, lo, hi); }
  }

  lemma Divided(a: real, n: real, lo: real, hi: real)
    requires n > 0.0 && n * lo <= a <= n * hi
    ensures lo <= a / n <= hi
  {
    var q := a / n;
    assert a == n * q && n * (q - lo) >= 0.0 && n * (hi - q) >= 0.0;
  }

  const MAX_CONSECUTIVE_SCAN_OVERRUNS := 3

  // ---------------------------------------------------------------- the handler

  class PollingMetricsHandler {
    const period: real
    const cyclesOnStats: nat
    var cycles: nat
    var overruns: nat
    var consecutiveOverruns: nat
    var averageCycleDuration: Option<real>
    var maxCycleDuration: real
    var minCycleDuration: Option<real>
    var lastCycleDuration: real
    var scanCyclesDuration: seq<real>
    var cycleTimer: Option<real>
    ghost var history: seq<real>

    /** Every figure is the one computed from the whole history. */
    ghost predicate Valid() reads this {
      && cycles == |history|
      && overruns == Overruns(period, history)
      && TrailingRun(period, history, consecutiveOverruns)
      && scanCyclesDuration == Window(cyclesOnStats, history)
      && (history != [] ==>
            averageCycleDuration == Average(scanCyclesDuration) && lastCycleDuration == history[|history| - 1])
      && Longest(history, maxCycleDuration)
      && Shortest(history, minCycleDuration)
    }

    constructor (period: real, cyclesOnStats: nat)
      ensures Valid() && history == [] && cycleTimer == None && lastCycleDuration == 0.0
      ensures this.period == period && this.cyclesOnStats == cyclesOnStats
    {
      this.period, this.cyclesOnStats := period, cyclesOnStats;
      cycles, overruns, consecutiveOverruns, lastCycleDuration := 0, 0, 0, 0.0;
      averageCycleDuration, maxCycleDuration, minCycleDuration := Some(0.0), 0.0, None;
      scanCyclesDuration, cycleTimer, history := [], None, [];
    }

    /** A cycle already under way keeps its start. */
    method InitializeCycle(now: real)
      requires Valid()
      modifies this`cycleTimer
      ensures Valid() && cycleTimer == if old(cycleTimer).None? then Some(now) else old(cycleTimer)
    {
      if cycleTimer.None? { cycleTimer := Some(now); }
    }

    method Duration(now: real) returns (duration: real)
      modifies this`cycleTimer, this`lastCycleDuration
      ensures duration == lastCycleDuration && cycleTimer == None
      ensures lastCycleDuration == if old(cycleTimer).Some? then now - old(cycleTimer).value else old(lastCycleDuration)
    {
      if cycleTimer.Some? {
        lastCycleDuration := now - cycleTimer.value;
        cycleTimer := None;
      }
      duration := lastCycleDuration;
    }

    /** Counts one more cycle: the time since it was initialised, or, when it was not, the last duration
        once more. */
    method FinalizeCycle(now: real, later: real)
      requires Valid()
      modifies this
      ensures Valid() && cycleTimer == None
      ensures history == old(history)
                + [if old(cycleTimer).Some? then now - old(cycleTimer).value else old(lastCycleDuration)]
    {
      hide Overruns, TrailingRun, Window, Average, Longest, Shortest, Pushed;
      var d := Duration(now);
      CheckOverruns(d);
      var again := Duration(later);
      CheckDurationStats(again);
      history := history + [d];
      WindowMoves(cyclesOnStats, old(history), d);
      RunMoves(period, old(history), old(consecutiveOverruns), d);
      CountMoves(period, old(history), d);
      ExtremesMove(old(history), old(maxCycleDuration), old(minCycleDuration), d);
    }

    method CheckOverruns(duration: real)
      modifies this`cycles, this`overruns, this`consecutiveOverruns
      ensures cycles == old(cycles) + 1
      ensures overruns == old(overruns) + if duration > period then 1 else 0
      ensures consecutiveOverruns == if duration > period then old(consecutiveOverruns) + 1 else 0
    {
      cycles := cycles + 1;
      if duration > period {
        overruns := overruns + 1;
        consecutiveOverruns := consecutiveOverruns + 1;
      } else {
        consecutiveOverruns := 0;
      }
    }

    method CheckDurationStats(duration: real)
      modifies this`scanCyclesDuration, this`maxCycleDuration, this`minCycleDuration, this`averageCycleDuration
      ensures scanCyclesDuration == Pushed(cyclesOnStats, old(scanCyclesDuration), duration)
      ensures maxCycleDuration == if duration > old(maxCycleDuration) then duration else old(maxCycleDuration)
      ensures minCycleDuration == if old(minCycleDuration).None? || duration < old(minCycleDuration).value
                then Some(duration) else old(minCycleDuration)
      ensures averageCycleDuration == Average(scanCyclesDuration)
    {
      scanCyclesDuration := scanCyclesDuration + [duration];
      if |scanCyclesDuration| > cyclesOnStats { scanCyclesDuration := scanCyclesDuration[1..]; }
      if duration > maxCycleDuration { maxCycleDuration := duration; }
      if minCycleDuration.None? || duration < minCycleDuration.value { minCycleDuration := Some(duration); }
      var acc := Reduce(scanCyclesDuration);
      averageCycleDuration := if scanCyclesDuration == [] then None else Some(acc / |scanCyclesDuration| as real);
    }

    static method Reduce(durations: seq<real>) returns (acc: real)
      ensures acc == Sum(durations)
    {
      acc := 0.0;
      for i := 0 to |durations|
        invariant acc == Sum(durations[..i])
      {
        SumSnoc(durations[..i], durations[i]);
        assert durations[..i+1] == durations[..i] + [durations[i]];
        acc := acc + durations[i];
      }
      assert durations[..|durations|] == durations;
    }

    /** Whether `check` reports the group as healthy: not while each of the last three cycles overran. */
    method Passes() returns (pass: bool)
      requires Valid()
      ensures !pass <==> |history| >= 3 && forall j :: |history| - 3 <= j < |history| ==> history[j] > period
    {
      TrailingRunReaches(period, history, consecutiveOverruns, 3);
      pass := consecutiveOverruns < MAX_CONSECUTIVE_SCAN_OVERRUNS;
    }
  }

  function Pushed(size: nat, window: seq<real>, d: real): seq<real> {
    if |window| + 1 > size then (window + [d])[1..] else window + [d]
  }

  lemma WindowMoves(size: nat, h: seq<real>, d: real)
    ensures Pushed(size, Window(size, h), d) == Window(size, h + [d])
  {
  }

  lemma CountMoves(period: real, h: seq<real>, d: real)
    ensures Overruns(period, h + [d]) == Overruns(period, h) + if d > period then 1 else 0
  {
  }

  lemma ExtremesMove(h: seq<real>, longest: real, shortest: Option<real>, d: real)
    requires Longest(h, longest) && Shortest(h, shortest)
    ensures Longest(h + [d], if d > longest then d else longest)
    ensures Shortest(h + [d], if shortest.None? || d < shortest.value then Some(d) else shortest)
  {
  }

  lemma RunMoves(period: real, h: seq<real>, n: nat, d: real)
    requires TrailingRun(period, h, n)
    ensures TrailingRun(period, h + [d], if d > period then n + 1 else 0)
  {
  }
}
