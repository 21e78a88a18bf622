/** A polling group: which entries it scans (packages/api/tasks/src/Polling/PollingManager.ts) and when
    (packages/api/tasks/src/Polling/PollingExecutor.ts). */
module PollingSpec {
  import opened Wrappers

  // ---------------------------------------------------------------- task configurations

  datatype Config = Config(id: string, kind: Kind)

  datatype Kind =
    | SingleTask(isFunction: bool, argsAreList: bool)
    | GroupOf(tasks: seq<Config>)
    | SequenceOf(pre: seq<Config>, task: Config, post: seq<Config>, last: seq<Config>)
    | Unrecognised

  predicate ValidOptions(c: Config) { 1 <= |c.id| <= 255 }

  predicate ValidSingle(c: Config) {
    c.kind.SingleTask? && c.kind.isFunction && c.kind.argsAreList && ValidOptions(c)
  }

  predicate AllSingle(cs: seq<Config>) { forall c :: c in cs ==> ValidSingle(c) }

  predicate ValidConfig(c: Config) {
    match c.kind
    case SingleTask(_, _) => ValidSingle(c)
    case GroupOf(tasks) => AllSingle(tasks) && ValidOptions(c)
    case SequenceOf(pre, task, post, last) =>
      ValidSingle(task) && AllSingle(pre) && AllSingle(post) && AllSingle(last) && ValidOptions(c)
    case Unrecognised => false
  }

  /** The single tasks a configuration is made of. */
  function Parts(c: Config): seq<Config> {
    match c.kind
    case SingleTask(_, _) => [c]
    case GroupOf(tasks) => tasks
    case SequenceOf(pre, task, post, last) => pre + [task] + post + last
    case Unrecognised => []
  }

  /** A configuration is accepted exactly when it is of a known kind, its id has one to 255 characters, and
      so has that of each of its parts, all of them single tasks with a function and a list of arguments:
      groups and sequences do not nest. */
  lemma ValidIffAllPartsAre(c: Config)
    ensures ValidConfig(c) <==>
              && c.kind != Unrecognised && 1 <= |c.id| <= 255
              && forall p :: p in Parts(c) ==> p.kind == SingleTask(true, true) && 1 <= |p.id| <= 255
  {
    if c.kind.SequenceOf? {
      assert forall p :: p in Parts(c) <==>
        p in c.kind.pre || p == c.kind.task || p in c.kind.post || p in c.kind.last;
    }
  }

  /** The entries a group was built from, by id. */
  type Catalog = map<string, Config>

  ghost predicate Named(c: Catalog) { forall id :: id in c ==> c[id].id == id }

  // ---------------------------------------------------------------- the manager

  /** The three insertion-ordered tables, the ids of the tasks under way, the handlers the limiter holds (an
      id may have several), and the `endCycle` events so far. */
  datatype Manager = Manager(
    fast: seq<string>, slow: seq<string>, off: seq<string>, pending: set<string>, handlers: multiset<string>, ends: nat)

  /** `Map.set` of an id, in insertion order. */
  function Put(ids: seq<string>, id: string): seq<string> { if id in ids then ids else ids + [id] }

  /** `Map.delete`. */
  function Delete(ids: seq<string>, id: string): (r: seq<string>)
    ensures |r| <= |ids| && (id in ids <==> |r| < |ids|) && (id !in ids ==> r == ids)
  {
    if ids == [] then [] else if ids[0] == id then ids[1..] else [ids[0]] + Delete(ids[1..], id)
  }

  function TurnOff(m: Manager, id: string): Manager {
    if id in m.fast then m.(fast := Delete(m.fast, id), off := Put(m.off, id)) else m
  }

  function SlowDown(m: Manager, id: string): Manager {
    if id in m.fast then m.(slow := Put(m.slow, id), fast := Delete(m.fast, id)) else m
  }

  /** `done` of a handler. Its id may have left `pending` with an earlier handler of the same entry. */
  function Done(m: Manager, id: string, failed: bool): Manager {
    var m1 := m.(pending := m.pending - {id}, handlers := m.handlers - multiset{id});
    var m2 := if failed then SlowDown(m1, id) else m1;
    if m2.pending == {} then m2.(ends := m2.ends + 1) else m2
  }

  function Given(m: Manager, id: string): Manager {
    m.(pending := m.pending + {id}, handlers := m.handlers + multiset{id})
  }

  /** One entry met by a scan. `refuses(n)` says whether the limiter refuses the n-th task it is given:
      a refused task is cancelled, and so done, before `schedule` returns. */
  function Offer(c: Catalog, m: Manager, id: string, n: nat, refuses: nat -> bool): (Manager, nat) {
    if id in c && ValidConfig(c[id]) then
      var m' := Given(m, id);
      (if refuses(n) then Done(m', id, true) else m', n + 1)
    else (TurnOff(m, id), n)
  }

  /** The loop over the fast table from position `i`; an entry that leaves the table does not move the
      position on. */
  function ScanFast(c: Catalog, m: Manager, i: nat, n: nat, refuses: nat -> bool): (r: (Manager, nat))
    decreases |m.fast| - i
  {
    if i >= |m.fast| then (m, n)
    else
      var id := m.fast[i];
      var (m', n') := Offer(c, m, id, n, refuses);
      ScanFast(c, m', if i < |m'.fast| && m'.fast[i] == id then i + 1 else i, n', refuses)
  }

  function ScanSlow(c: Catalog, m: Manager, i: nat, n: nat, refuses: nat -> bool): (Manager, nat)
    requires forall id :: id in m.slow ==> id !in m.fast
    decreases |m.slow| - i
  {
    if i >= |m.slow| then (m, n)
    else
      var (m', n') := Offer(c, m, m.slow[i], n, refuses);
      ScanSlow(c, m', i + 1, n', refuses)
  }

  /** Every id is in one table, once. */
  ghost predicate Partition(m: Manager, ids: set<string>) {
    multiset(m.fast) + multiset(m.slow) + multiset(m.off) == multiset(ids)
  }

  lemma InOneTable(m: Manager, ids: set<string>, id: string)
    requires Partition(m, ids)
    ensures id in m.fast ==> id !in m.slow && id !in m.off && id !in Delete(m.fast, id)
    ensures id in m.slow ==> id !in m.off
    ensures id in ids <==> id in m.fast || id in m.slow || id in m.off
  {
    assert multiset(ids)[id] == multiset(m.fast)[id] + multiset(m.slow)[id] + multiset(m.off)[id];
    if id in m.fast { DeleteTakesOne(m.fast, id); }
  }

  lemma {:induction false} DeleteTakesOne(ids: seq<string>, id: string)
    requires id in ids
    ensures multiset(Delete(ids, id)) == multiset(ids) - multiset{id}
  {
    assert ids == [ids[0]] + ids[1..];
    if ids[0] != id { DeleteTakesOne(ids[1..], id); }
  }

  ghost predicate Forward(m: Manager, m': Manager) {
    && (forall id :: id in m'.fast ==> id in m.fast)
    && m.slow <= m'.slow
    && m.off <= m'.off
  }

  lemma MovesKeepPartition(m: Manager, ids: set<string>, id: string)
    requires Partition(m, ids)
    ensures Partition(TurnOff(m, id), ids) && Forward(m, TurnOff(m, id))
    ensures Partition(SlowDown(m, id), ids) && Forward(m, SlowDown(m, id))
  {
    if id in m.fast {
      InOneTable(m, ids, id);
      DeleteTakesOne(m.fast, id);
      assert multiset(m.slow + [id]) == multiset(m.slow) + multiset{id};
      assert multiset(m.off + [id]) == multiset(m.off) + multiset{id};
      forall x | x in Delete(m.fast, id) ensures x in m.fast { assert x in multiset(Delete(m.fast, id)); }
    }
  }

  lemma DoneKeepsPartition(m: Manager, ids: set<string>, id: string, failed: bool)
    requires Partition(m, ids)
    ensures Partition(Done(m, id, failed), ids) && Forward(m, Done(m, id, failed))
  {
    MovesKeepPartition(m.(pending := m.pending - {id}, handlers := m.handlers - multiset{id}), ids, id);
  }

  lemma OfferKeepsPartition(c: Catalog, m: Manager, ids: set<string>, id: string, n: nat, refuses: nat -> bool)
    requires Partition(m, ids)
    ensures Partition(Offer(c, m, id, n, refuses).0, ids) && Forward(m, Offer(c, m, id, n, refuses).0)
  {
    MovesKeepPartition(m, ids, id);
    DoneKeepsPartition(Given(m, id), ids, id, true);
  }

  lemma OfferShrinks(c: Catalog, m: Manager, id: string, n: nat, refuses: nat -> bool)
    ensures var m' := Offer(c, m, id, n, refuses).0; |m'.fast| < |m.fast| || m'.fast == m.fast
  {
  }

  lemma SlowOfferMovesNothing(c: Catalog, m: Manager, id: string, n: nat, refuses: nat -> bool)
    requires id !in m.fast
    ensures var m' := Offer(c, m, id, n, refuses).0; m'.fast == m.fast && m'.slow == m.slow && m'.off == m.off
  {
  }

  lemma {:induction false} ScanFastKeepsPartition(
    c: Catalog, m: Manager, ids: set<string>, i: nat, n: nat, refuses: nat -> bool)
    requires Partition(m, ids)
    ensures Partition(ScanFast(c, m, i, n, refuses).0, ids) && Forward(m, ScanFast(c, m, i, n, refuses).0)
    decreases |m.fast| - i
  {
    hide Partition, Offer;
    if i < |m.fast| {
      var id := m.fast[i];
      var (m', n') := Offer(c, m, id, n, refuses);
      OfferShrinks(c, m, id, n, refuses);
      OfferKeepsPartition(c, m, ids, id, n, refuses);
      ScanFastKeepsPartition(c, m', ids, if i < |m'.fast| && m'.fast[i] == id then i + 1 else i, n', refuses);
    }
  }

  /** A slow entry stays where it is, whatever becomes of it in the scan. */
  lemma {:induction false} ScanSlowMovesNothing(c: Catalog, m: Manager, i: nat, n: nat, refuses: nat -> bool)
    requires forall id :: id in m.slow ==> id !in m.fast
    ensures var m' := ScanSlow(c, m, i, n, refuses).0; m'.fast == m.fast && m'.slow == m.slow && m'.off == m.off
    decreases |m.slow| - i
  {
    if i < |m.slow| {
      var (m', n') := Offer(c, m, m.slow[i], n, refuses);
      ScanSlowMovesNothing(c, m', i + 1, n', refuses);
    }
  }

  lemma TablesAreApart(m: Manager, ids: set<string>)
    requires Partition(m, ids)
    ensures forall id :: id in m.slow ==> id !in m.fast
  {
    forall id | id in m.slow ensures id !in m.fast { InOneTable(m, ids, id); }
  }

  /** `schedule`: both loops, the slow one over the table as the fast one left it. */
  ghost function Scan(c: Catalog, m: Manager, refuses: nat -> bool): (r: (Manager, nat))
    requires Partition(m, c.Keys)
    ensures Partition(r.0, c.Keys) && Forward(m, r.0)
  {
    var (m1, n1) := ScanFast(c, m, 0, 0, refuses);
    ScanFastKeepsPartition(c, m, c.Keys, 0, 0, refuses);
    TablesAreApart(m1, c.Keys);
    ScanSlowMovesNothing(c, m1, 0, n1, refuses);
    ScanSlow(c, m1, 0, n1, refuses)
  }

  // ---------------------------------------------------------------- the executor

  /** The manager, the due times of the armed scan timers, the running cycle's start, and the record of
      cycles: when each scan began, when each cycle ended, and for when each ending armed the timer. */
  datatype Executor = Executor(
    manager: Manager, timers: seq<real>, cycleTimer: Option<real>,
    scans: seq<real>, endings: seq<real>, due: seq<real>, clock: real)

  function Round(x: real): real { (x + 0.5).Floor as real }

  function NextScan(period: real, cycleTimer: Option<real>, now: real): real {
    var lastCycleDuration := if cycleTimer.Some? then now - cycleTimer.value else 0.0;
    Round(if lastCycleDuration < period then period - lastCycleDuration else 0.0)
  }

  /** The wait is the whole number of milliseconds nearest to the rest of the period, halves going up; a
      cycle that took the period or longer is followed at once. */
  lemma WaitsForTheRest(period: real, cycleTimer: Option<real>, now: real)
    ensures var wait := NextScan(period, cycleTimer, now);
            var rest := period - if cycleTimer.Some? then now - cycleTimer.value else 0.0;
            && wait.Floor as real == wait
            && (rest > 0.0 ==> wait - 0.5 <= rest < wait + 0.5)
            && (rest <= 0.0 ==> wait == 0.0)
  {
  }

  function EndCycle(period: real, x: Executor, now: real): Executor {
    var at := now + NextScan(period, x.cycleTimer, now);
    x.(timers := x.timers + [at], cycleTimer := None, endings := x.endings + [now], due := x.due + [at])
  }

  function EndCycles(period: real, x: Executor, k: nat, now: real): Executor {
    if k == 0 then x else EndCycle(period, EndCycles(period, x, k - 1, now), now)
  }

  /** Goes on with the manager as the step left it, reacting to each `endCycle` it emitted. */
  function Follow(period: real, x: Executor, m: Manager, now: real): Executor {
    var k := if m.ends >= x.manager.ends then m.ends - x.manager.ends else 0;
    EndCycles(period, x.(manager := m, clock := now), k, now)
  }

  lemma {:induction false} EndCyclesKeepManager(period: real, x: Executor, k: nat, now: real)
    ensures EndCycles(period, x, k, now).manager == x.manager
  {
    if k > 0 { EndCyclesKeepManager(period, x, k - 1, now); }
  }

  lemma FollowKeepsManager(period: real, x: Executor, m: Manager, now: real)
    ensures Follow(period, x, m, now).manager == m
  {
    var k := if m.ends >= x.manager.ends then m.ends - x.manager.ends else 0;
    EndCyclesKeepManager(period, x.(manager := m, clock := now), k, now);
  }

  ghost function PerformScan(c: Catalog, period: real, x: Executor, now: real, refuses: nat -> bool): (r: Executor)
    requires Partition(x.manager, c.Keys)
    ensures Partition(r.manager, c.Keys) && Forward(x.manager, r.manager)
  {
    var x' := x.(cycleTimer := if x.cycleTimer.None? then Some(now) else x.cycleTimer, scans := x.scans + [now]);
    FollowKeepsManager(period, x', Scan(c, x.manager, refuses).0, now);
    Follow(period, x', Scan(c, x.manager, refuses).0, now)
  }

  datatype Event = TimerFires(timer: nat, at: real, refuses: nat -> bool) | TaskDone(id: string, failed: bool, at: real)

  ghost predicate Enabled(x: Executor, e: Event) {
    && e.at >= x.clock
    && match e
       case TimerFires(timer, at, _) => timer < |x.timers| && x.timers[timer] <= at
       case TaskDone(id, _, _) => id in x.manager.handlers
  }

  ghost function Step(c: Catalog, period: real, x: Executor, e: Event): Executor
    requires Partition(x.manager, c.Keys) && Enabled(x, e)
  {
    match e
    case TimerFires(timer, at, refuses) =>
      PerformScan(c, period, x.(timers := x.timers[..timer] + x.timers[timer + 1..]), at, refuses)
    case TaskDone(id, failed, at) =>
      Follow(period, x, Done(x.manager, id, failed), at)
  }

  lemma StepKeepsPartition(c: Catalog, period: real, x: Executor, e: Event)
    requires Partition(x.manager, c.Keys) && Enabled(x, e)
    ensures Partition(Step(c, period, x, e).manager, c.Keys) && Forward(x.manager, Step(c, period, x, e).manager)
  {
    hide Partition, Follow, Done, Forward;
    if e.TaskDone? {
      DoneKeepsPartition(x.manager, c.Keys, e.id, e.failed);
      FollowKeepsManager(period, x, Done(x.manager, e.id, e.failed), e.at);
    }
  }

  ghost predicate Legal(c: Catalog, period: real, x: Executor, es: seq<Event>)
    requires Partition(x.manager, c.Keys)
    decreases |es|
  {
    es == []
    || (Enabled(x, es[0])
        && (StepKeepsPartition(c, period, x, es[0]); Legal(c, period, Step(c, period, x, es[0]), es[1..])))
  }

  ghost function Exec(c: Catalog, period: real, x: Executor, es: seq<Event>): (r: Executor)
    requires Partition(x.manager, c.Keys) && Legal(c, period, x, es)
    decreases |es|
  {
    if es == [] then x
    else (StepKeepsPartition(c, period, x, es[0]); Exec(c, period, Step(c, period, x, es[0]), es[1..]))
  }
}
