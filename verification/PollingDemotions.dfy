/** Which ends and which refusals make an entry slow, over a scan and over every run. */
module PollingDemotions {
  import opened Wrappers
  import opened PollingSpec
  import opened PollingRuns
  import opened PollingCycles

  // ---------------------------------------------------------------- one end

  lemma DeleteKeepsOthers(ids: seq<string>, id: string, x: string)
    requires x != id
    ensures x in Delete(ids, id) <==> x in ids
  {
    if id in ids {
      DeleteTakesOne(ids, id);
      assert x in Delete(ids, id) <==> x in multiset(Delete(ids, id));
    }
  }

  /** The end of a task makes its entry slow exactly when the task failed, takes the task from those under
      way, and moves no other entry. */
  lemma EndDemotesIffFailed(m: Manager, ids: set<string>, id: string, failed: bool, x: string)
    requires Partition(m, ids)
    ensures var m' := Done(m, id, failed);
            && (id in m.fast ==> (id in m'.slow <==> failed) && (id in m'.fast <==> !failed))
            && (x != id || id !in m.fast ==>
                  (x in m'.fast <==> x in m.fast) && (x in m'.slow <==> x in m.slow))
            && m'.off == m.off && m'.pending == m.pending - {id} && m'.handlers == m.handlers - multiset{id}
  {
    hide SlowDown;
    var m1 := m.(pending := m.pending - {id}, handlers := m.handlers - multiset{id});
    SlowedDown(m1, ids, id);
    InOneTable(m, ids, id);
    if x != id { MovesKeepOthers(m1, id, x); }
  }

  lemma SlowedDown(m: Manager, ids: set<string>, id: string)
    requires Partition(m, ids)
    ensures var m' := SlowDown(m, id);
            && (if id in m.fast then id in m'.slow && id !in m'.fast else m' == m)
            && m' == m.(fast := m'.fast, slow := m'.slow)
  {
    InOneTable(m, ids, id);
  }

  // ---------------------------------------------------------------- one scan

  /** The place at which a scan gives the limiter the k-th fast entry: behind the earlier ones it could
      build. */
  function Place(c: Catalog, ids: seq<string>, k: nat): nat
    requires k <= |ids|
  {
    |Select(c, ids[..k], true)|
  }

  /** What meets the k-th fast entry in a scan: it cannot be built, is refused, or is taken. */
  datatype Fate = Unbuildable | Refused | Taken

  function FateOf(c: Catalog, ids: seq<string>, k: nat, n: nat, refuses: nat -> bool): Fate
    requires k < |ids|
  {
    if !Valid(c, ids[k]) then Unbuildable else if refuses(n + Place(c, ids, k)) then Refused else Taken
  }

  ghost predicate Met(fate: Fate, m: Manager, id: string) {
    && (id in m.off <==> fate.Unbuildable?)
    && (id in m.slow <==> fate.Refused?)
    && (id in m.fast <==> fate.Taken?)
  }

  lemma PlaceMovesOn(c: Catalog, ids: seq<string>, k: nat)
    requires 0 < k <= |ids|
    ensures Place(c, ids, 0) == 0
    ensures Place(c, ids, k) == Place(c, ids[1..], k - 1) + if Valid(c, ids[0]) then 1 else 0
  {
    hide Valid;
    assert ids[..k][1..] == ids[1..][..k-1];
    SelectFirst(c, ids[..k], true);
    SelectNone(c);
  }

  /** Once out of the fast loop's way, an entry stays where it is. */
  lemma {:induction false} FastLoopKeepsTheRest(
    c: Catalog, m: Manager, i: nat, n: nat, refuses: nat -> bool, id: string)
    requires Partition(m, c.Keys) && i <= |m.fast| && id !in m.fast[i..]
    ensures var m' := ScanFast(c, m, i, n, refuses).0;
            && (id in m'.fast <==> id in m.fast) && (id in m'.slow <==> id in m.slow) && (id in m'.off <==> id in m.off)
    decreases |m.fast| - i
  {
    hide Partition, Offer;
    if i < |m.fast| {
      var x := m.fast[i];
      var (m', n') := Offer(c, m, x, n, refuses);
      OfferKeepsPartition(c, m, c.Keys, x, n, refuses);
      NextPosition(c, m, i, n, refuses);
      assert id != x && id !in m.fast[i+1..];
      OfferKeepsOthers(c, m, x, n, refuses, id);
      FastLoopKeepsTheRest(c, m', if i < |m'.fast| && m'.fast[i] == x then i + 1 else i, n', refuses, id);
    }
  }

  lemma OfferKeepsOthers(c: Catalog, m: Manager, x: string, n: nat, refuses: nat -> bool, id: string)
    requires id != x
    ensures var m' := Offer(c, m, x, n, refuses).0;
            && (id in m'.fast <==> id in m.fast) && (id in m'.slow <==> id in m.slow) && (id in m'.off <==> id in m.off)
  {
    hide TurnOff, SlowDown, ValidConfig;
    MovesKeepOthers(m, x, id);
    MovesKeepOthers(Given(m, x).(pending := m.pending + {x} - {x},
                                 handlers := m.handlers + multiset{x} - multiset{x}), x, id);
  }

  lemma MovesKeepOthers(m: Manager, x: string, id: string)
    requires id != x
    ensures var m' := TurnOff(m, x);
            && (id in m'.fast <==> id in m.fast) && (id in m'.slow <==> id in m.slow) && (id in m'.off <==> id in m.off)
    ensures var m' := SlowDown(m, x);
            && (id in m'.fast <==> id in m.fast) && (id in m'.slow <==> id in m.slow) && m'.off == m.off
  {
    hide Delete;
    DeleteKeepsOthers(m.fast, x, id);
  }

  lemma OfferMeets(c: Catalog, m: Manager, i: nat, n: nat, refuses: nat -> bool)
    requires Partition(m, c.Keys) && i < |m.fast|
    ensures Met(FateOf(c, m.fast[i..], 0, n, refuses), Offer(c, m, m.fast[i], n, refuses).0, m.fast[i])
  {
    hide Select;
    SelectNone(c);
    InOneTable(m, c.Keys, m.fast[i]);
  }

  /** Every entry the fast loop still has before it meets its fate. */
  lemma {:induction false} FastLoopMeets(c: Catalog, m: Manager, i: nat, n: nat, refuses: nat -> bool, k: nat)
    requires Partition(m, c.Keys) && i <= |m.fast| && k < |m.fast| - i
    ensures Met(FateOf(c, m.fast[i..], k, n, refuses), ScanFast(c, m, i, n, refuses).0, m.fast[i..][k])
    decreases |m.fast| - i
  {
    hide Partition, Offer, Met, Valid, Place;
    var rest := m.fast[i..];
    var id := m.fast[i];
    var (m', n') := Offer(c, m, id, n, refuses);
    var next := if i < |m'.fast| && m'.fast[i] == id then i + 1 else i;
    OfferKeepsPartition(c, m, c.Keys, id, n, refuses);
    NextPosition(c, m, i, n, refuses);
    assert rest[1..] == m.fast[i+1..] == m'.fast[next..];
    if k == 0 {
      OfferMeets(c, m, i, n, refuses);
      Once(m, c.Keys, i);
      FastLoopKeepsTheRest(c, m', next, n', refuses, id);
      SameTables(FateOf(c, rest, 0, n, refuses), m', ScanFast(c, m', next, n', refuses).0, id);
    } else {
      OfferGivesIffValid(c, m, id, n, refuses);
      PlaceMovesOn(c, rest, k);
      FastLoopMeets(c, m', next, n', refuses, k - 1);
    }
  }

  lemma SameTables(fate: Fate, m: Manager, m': Manager, id: string)
    requires Met(fate, m, id)
    requires (id in m'.fast <==> id in m.fast) && (id in m'.slow <==> id in m.slow) && (id in m'.off <==> id in m.off)
    ensures Met(fate, m', id)
  {
  }

  /** A scan, whatever the limiter refuses: a fast entry that cannot be built is off, one that the limiter
      refuses is slow, and every other is still fast. */
  lemma ScanDemotesTheRefused(c: Catalog, m: Manager, refuses: nat -> bool, k: nat)
    requires Partition(m, c.Keys) && k < |m.fast|
    ensures Met(FateOf(c, m.fast, k, 0, refuses), Scan(c, m, refuses).0, m.fast[k])
  {
    hide Partition, Met, FateOf;
    var (m1, n1) := ScanFast(c, m, 0, 0, refuses);
    assert m.fast[0..] == m.fast;
    FastLoopMeets(c, m, 0, 0, refuses, k);
    ScanFastKeepsPartition(c, m, c.Keys, 0, 0, refuses);
    TablesAreApart(m1, c.Keys);
    ScanSlowMovesNothing(c, m1, 0, n1, refuses);
    SameTables(FateOf(c, m.fast, k, 0, refuses), m1, Scan(c, m, refuses).0, m.fast[k]);
  }

  // ---------------------------------------------------------------- whole runs

  /** The scan gives the limiter this fast entry, and the limiter refuses it. */
  ghost predicate RefusedBy(c: Catalog, m: Manager, refuses: nat -> bool, id: string) {
    exists k :: 0 <= k < |m.fast| && m.fast[k] == id && FateOf(c, m.fast, k, 0, refuses).Refused?
  }

  ghost predicate Demotes(c: Catalog, x: Executor, e: Event, id: string) {
    match e
    case TaskDone(done, failed, _) => done == id && failed
    case TimerFires(_, _, refuses) => RefusedBy(c, x.manager, refuses, id)
  }

  /** Some step of the run ends the entry's task with a failure, or offers it in vain. */
  ghost predicate DemotedIn(c: Catalog, period: real, x: Executor, es: seq<Event>, id: string)
    requires Partition(x.manager, c.Keys) && Legal(c, period, x, es)
    decreases |es|
  {
    es != [] && (StepKeepsPartition(c, period, x, es[0]);
                 Demotes(c, x, es[0], id) || DemotedIn(c, period, Step(c, period, x, es[0]), es[1..], id))
  }

  lemma ScanDemotesIffRefused(c: Catalog, m: Manager, refuses: nat -> bool, id: string)
    requires Partition(m, c.Keys) && id in m.fast && Valid(c, id)
    ensures var m' := Scan(c, m, refuses).0;
            (id in m'.slow <==> RefusedBy(c, m, refuses, id)) && (id in m'.fast <==> !RefusedBy(c, m, refuses, id))
  {
    hide Partition, Valid, Scan;
    var k :| 0 <= k < |m.fast| && m.fast[k] == id;
    ScanDemotesTheRefused(c, m, refuses, k);
    Once(m, c.Keys, k);
    forall j | 0 <= j < |m.fast| && m.fast[j] == id ensures j == k { Apart(m.fast, j, k); }
  }

  lemma Apart(ids: seq<string>, j: nat, k: nat)
    requires j < |ids| && k < |ids| && ids[j] == ids[k] && ids[k] !in ids[..k] && ids[k] !in ids[k+1..]
    ensures j == k
  {
  }

  lemma StepDemotesIff(c: Catalog, period: real, x: Executor, e: Event, id: string)
    requires Partition(x.manager, c.Keys) && Enabled(x, e) && id in x.manager.fast && Valid(c, id)
    ensures var m := Step(c, period, x, e).manager;
            (id in m.slow <==> Demotes(c, x, e, id)) && (id in m.fast <==> !Demotes(c, x, e, id))
  {
    hide Partition, Valid, Done, Scan, Follow, RefusedBy;
    match e {
      case TimerFires(timer, at, refuses) =>
        var y := x.(timers := x.timers[..timer] + x.timers[timer + 1..]);
        var y' := y.(cycleTimer := if y.cycleTimer.None? then Some(at) else y.cycleTimer, scans := y.scans + [at]);
        FollowKeepsManager(period, y', Scan(c, x.manager, refuses).0, at);
        ScanDemotesIffRefused(c, x.manager, refuses, id);
      case TaskDone(done, failed, at) =>
        FollowKeepsManager(period, x, Done(x.manager, done, failed), at);
        EndDemotesIffFailed(x.manager, c.Keys, done, failed, id);
        InOneTable(x.manager, c.Keys, id);
    }
  }

  /** In every run, a fast entry that can be built ends up slow exactly when one of its tasks failed or the
      limiter refused it in a scan; otherwise it is still fast. */
  lemma {:induction false} SlowIffFailedOrRefused(c: Catalog, period: real, x: Executor, es: seq<Event>, id: string)
    requires Partition(x.manager, c.Keys) && Legal(c, period, x, es) && id in x.manager.fast && Valid(c, id)
    ensures var m := Exec(c, period, x, es).manager;
            && (id in m.slow <==> DemotedIn(c, period, x, es, id))
            && (id in m.fast <==> !DemotedIn(c, period, x, es, id))
    decreases |es|
  {
    hide Partition, Valid, Step, Demotes, Enabled;
    if es == [] {
      InOneTable(x.manager, c.Keys, id);
    } else {
      var x' := Step(c, period, x, es[0]);
      StepKeepsPartition(c, period, x, es[0]);
      StepDemotesIff(c, period, x, es[0], id);
      if Demotes(c, x, es[0], id) {
        EntriesOnlyLeaveTheFastTable(c, period, x', es[1..]);
        InOneTable(Exec(c, period, x, es).manager, c.Keys, id);
      } else {
        SlowIffFailedOrRefused(c, period, x', es[1..], id);
      }
    }
  }

  /** So in every run of a new group, the first scan included. */
  lemma NewEntryIsSlowIff(
    c: Catalog, period: real, m: Manager, now: real, refuses: nat -> bool, es: seq<Event>, id: string)
    requires Partition(m, c.Keys) && id in m.fast && Valid(c, id)
    requires Legal(c, period, PollingCycles.Started(c, period, m, now, refuses), es)
    ensures var x := PollingCycles.Started(c, period, m, now, refuses);
            var slow := RefusedBy(c, m, refuses, id) || DemotedIn(c, period, x, es, id);
            && (id in Exec(c, period, x, es).manager.slow <==> slow)
            && (id in Exec(c, period, x, es).manager.fast <==> !slow)
  {
    hide Partition, Valid, RefusedBy, DemotedIn, Follow, Scan, Exec, Legal;
    var x := PollingCycles.Started(c, period, m, now, refuses);
    var y := Executor(m, [], None, [], [], [], now).(cycleTimer := Some(now), scans := [] + [now]);
    FollowKeepsManager(period, y, Scan(c, m, refuses).0, now);
    ScanDemotesIffRefused(c, m, refuses, id);
    EntriesOnlyLeaveTheFastTable(c, period, x, es);
    InOneTable(Exec(c, period, x, es).manager, c.Keys, id);
    if !RefusedBy(c, m, refuses, id) { SlowIffFailedOrRefused(c, period, x, es, id); }
  }
}
