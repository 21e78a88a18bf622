/** What a polling group keeps over every run. */
module PollingRuns {
  import opened Wrappers
  import opened PollingSpec

  // ---------------------------------------------------------------- entries

  /** In every run, whatever the limiter refuses and whatever fails, each entry is in exactly one table,
      and it only ever leaves the fast one. */
  lemma {:induction false} EntriesOnlyLeaveTheFastTable(c: Catalog, period: real, x: Executor, es: seq<Event>)
    requires Partition(x.manager, c.Keys) && Legal(c, period, x, es)
    ensures var m := Exec(c, period, x, es).manager; Partition(m, c.Keys) && Forward(x.manager, m)
    decreases |es|
  {
    hide Partition, Step;
    if es != [] {
      StepKeepsPartition(c, period, x, es[0]);
      EntriesOnlyLeaveTheFastTable(c, period, Step(c, period, x, es[0]), es[1..]);
    }
  }

  /** What the partition says of the tables as sets. */
  lemma TablesAreASplit(m: Manager, ids: set<string>)
    requires Partition(m, ids)
    ensures ids == (set id | id in m.fast) + (set id | id in m.slow) + (set id | id in m.off)
    ensures |ids| == |m.fast| + |m.slow| + |m.off|
  {
    forall id ensures id in ids <==> id in m.fast || id in m.slow || id in m.off { InOneTable(m, ids, id); }
    assert |multiset(ids)| == |multiset(m.fast) + multiset(m.slow) + multiset(m.off)|;
  }

  // ---------------------------------------------------------------- one scan

  predicate Valid(c: Catalog, id: string) { id in c && ValidConfig(c[id]) }

  /** The ids that can (`valid`) or cannot be built, in order. */
  function Select(c: Catalog, ids: seq<string>, valid: bool): seq<string> {
    if ids == [] then []
    else (if Valid(c, ids[0]) == valid then [ids[0]] else []) + Select(c, ids[1..], valid)
  }

  function Buildable(c: Catalog, ids: seq<string>): set<string> { set id | id in ids && Valid(c, id) }

  lemma Once(m: Manager, ids: set<string>, i: nat)
    requires Partition(m, ids) && i < |m.fast|
    ensures m.fast[i] !in m.fast[..i] && m.fast[i] !in m.fast[i+1..] && m.fast[i] !in m.off
    ensures Delete(m.fast, m.fast[i]) == m.fast[..i] + m.fast[i+1..]
  {
    var id := m.fast[i];
    InOneTable(m, ids, id);
    assert m.fast == m.fast[..i] + [id] + m.fast[i+1..];
    assert multiset(m.fast)[id] == multiset(m.fast[..i])[id] + 1 + multiset(m.fast[i+1..])[id];
    assert multiset(ids)[id] <= 1;
    DeleteAt(m.fast, i);
  }

  lemma {:induction false} DeleteAt(ids: seq<string>, i: nat)
    requires i < |ids| && ids[i] !in ids[..i]
    ensures Delete(ids, ids[i]) == ids[..i] + ids[i+1..]
  {
    if i > 0 {
      assert ids[0] in ids[..i];
      assert ids[1..][..i-1] == ids[..i][1..];
      DeleteAt(ids[1..], i - 1);
      assert ids[..i] == [ids[0]] + ids[1..][..i-1];
    }
  }

  /** When the limiter accepts, the fast loop leaves exactly the entries it could build, moves the others
      off in order, and ends no cycle. */
  lemma {:induction false} AcceptedFastScan(c: Catalog, m: Manager, i: nat, n: nat, refuses: nat -> bool)
    requires Partition(m, c.Keys) && i <= |m.fast| && forall k: nat :: !refuses(k)
    ensures var m' := ScanFast(c, m, i, n, refuses).0;
            && m'.ends == m.ends && m'.slow == m.slow
            && m'.pending == m.pending + Buildable(c, m.fast[i..])
            && m'.fast == m.fast[..i] + Select(c, m.fast[i..], true)
            && m'.off == m.off + Select(c, m.fast[i..], false)
    decreases |m.fast| - i
  {
    hide Partition, Select, Valid, ScanFast, Buildable;
    if i < |m.fast| {
      var id := m.fast[i];
      var m' := AfterAcceptedOffer(c, m, i);
      AcceptedFastTurn(c, m, i, n, refuses);
      SelectFirst(c, m.fast[i..], true);
      SelectFirst(c, m.fast[i..], false);
      assert m.fast[i..][1..] == m.fast[i+1..];
      if Valid(c, id) {
        AcceptedFastScan(c, m', i + 1, n + 1, refuses);
        assert m.fast[..i+1] == m.fast[..i] + [id];
      } else {
        assert m'.fast[..i] == m.fast[..i] && m'.fast[i..] == m.fast[i+1..];
        AcceptedFastScan(c, m', i, n, refuses);
      }
    } else {
      SelectNone(c);
      ScanFastIsOver(c, m, i, n, refuses);
      assert m.fast[i..] == [] && m.fast[..i] == m.fast;
    }
  }

  /** The manager after the entry at `i` was met by a limiter that accepts. */
  function AfterAcceptedOffer(c: Catalog, m: Manager, i: nat): Manager
    requires i < |m.fast|
  {
    if Valid(c, m.fast[i]) then Given(m, m.fast[i])
    else m.(fast := m.fast[..i] + m.fast[i+1..], off := m.off + [m.fast[i]])
  }

  lemma AcceptedFastTurn(c: Catalog, m: Manager, i: nat, n: nat, refuses: nat -> bool)
    requires Partition(m, c.Keys) && i < |m.fast| && !refuses(n)
    ensures Partition(AfterAcceptedOffer(c, m, i), c.Keys)
    ensures ScanFast(c, m, i, n, refuses)
            == if Valid(c, m.fast[i]) then ScanFast(c, AfterAcceptedOffer(c, m, i), i + 1, n + 1, refuses)
               else ScanFast(c, AfterAcceptedOffer(c, m, i), i, n, refuses)
  {
    hide Partition, Valid, Offer, Put, Delete;
    AcceptedOfferAt(c, m, i, n, refuses);
    OfferKeepsPartition(c, m, c.Keys, m.fast[i], n, refuses);
    Once(m, c.Keys, i);
  }

  lemma AcceptedOfferAt(c: Catalog, m: Manager, i: nat, n: nat, refuses: nat -> bool)
    requires Partition(m, c.Keys) && i < |m.fast| && !refuses(n)
    ensures Offer(c, m, m.fast[i], n, refuses)
            == (AfterAcceptedOffer(c, m, i), if Valid(c, m.fast[i]) then n + 1 else n)
  {
    hide Partition, Offer, Delete;
    AcceptedOffer(c, m, m.fast[i], n, refuses);
    Once(m, c.Keys, i);
  }

  lemma ScanFastIsOver(c: Catalog, m: Manager, i: nat, n: nat, refuses: nat -> bool)
    requires i >= |m.fast|
    ensures ScanFast(c, m, i, n, refuses) == (m, n)
  {
  }

  lemma SelectNone(c: Catalog)
    ensures Select(c, [], true) == Select(c, [], false) == [] && Buildable(c, []) == {}
  {
  }

  lemma SelectFirst(c: Catalog, ids: seq<string>, valid: bool)
    requires ids != []
    ensures Select(c, ids, valid) == (if Valid(c, ids[0]) == valid then [ids[0]] else []) + Select(c, ids[1..], valid)
    ensures Buildable(c, ids) == (if Valid(c, ids[0]) then {ids[0]} else {}) + Buildable(c, ids[1..])
  {
  }

  lemma AcceptedOffer(c: Catalog, m: Manager, id: string, n: nat, refuses: nat -> bool)
    requires !refuses(n)
    ensures Valid(c, id) ==> Offer(c, m, id, n, refuses) == (Given(m, id), n + 1)
    ensures !Valid(c, id) ==> Offer(c, m, id, n, refuses) == (TurnOff(m, id), n)
  {
  }

  lemma {:induction false} AcceptedSlowScan(c: Catalog, m: Manager, i: nat, n: nat, refuses: nat -> bool)
    requires (forall id :: id in m.slow ==> id !in m.fast) && i <= |m.slow| && forall k: nat :: !refuses(k)
    ensures var m' := ScanSlow(c, m, i, n, refuses).0;
            m'.ends == m.ends && m'.pending == m.pending + Buildable(c, m.slow[i..])
    decreases |m.slow| - i
  {
    hide Valid;
    if i < |m.slow| {
      var (m', n') := Offer(c, m, m.slow[i], n, refuses);
      AcceptedOffer(c, m, m.slow[i], n, refuses);
      SelectFirst(c, m.slow[i..], true);
      assert m.slow[i..][1..] == m.slow[i+1..];
      AcceptedSlowScan(c, m', i + 1, n', refuses);
    } else {
      SelectNone(c);
    }
  }

  /** Each task under way has the one handler. */
  ghost predicate Paired(m: Manager) { m.handlers == multiset(m.pending) }

  /** Where the fast loop goes on: at the next entry, whether or not the one at hand has left the table. */
  lemma NextPosition(c: Catalog, m: Manager, i: nat, n: nat, refuses: nat -> bool)
    requires Partition(m, c.Keys) && i < |m.fast|
    ensures var id := m.fast[i];
            var m' := Offer(c, m, id, n, refuses).0;
            var next := if i < |m'.fast| && m'.fast[i] == id then i + 1 else i;
            && next <= |m'.fast| && m'.fast[next..] == m.fast[i+1..]
            && m'.fast[..next] == m.fast[..i] + (if m'.fast == m.fast then [id] else []) && id !in m.fast[..i]
  {
    hide Partition, Offer;
    var m' := Offer(c, m, m.fast[i], n, refuses).0;
    OfferLeavesTheRest(c, m, i, n, refuses);
    Once(m, c.Keys, i);
    if m'.fast != m.fast { assert i < |m'.fast| ==> m'.fast[i] == m.fast[i+1..][0]; }
  }

  lemma OfferPairs(c: Catalog, m: Manager, id: string, n: nat, refuses: nat -> bool)
    requires Paired(m) && id !in m.pending
    ensures var m' := Offer(c, m, id, n, refuses).0;
            && Paired(m')
            && (m'.pending == m.pending || (m'.pending == m.pending + {id} && m'.fast == m.fast))
  {
    assert m.pending + {id} - {id} == m.pending;
    assert multiset(m.pending + {id}) == multiset(m.pending) + multiset{id};
    assert multiset(m.pending) + multiset{id} - multiset{id} == multiset(m.pending);
  }

  lemma {:induction false} FastScanPairs(c: Catalog, m: Manager, i: nat, n: nat, refuses: nat -> bool)
    requires Partition(m, c.Keys) && i <= |m.fast|
    requires Paired(m) && forall id :: id in m.pending ==> id in m.fast[..i]
    ensures var m' := ScanFast(c, m, i, n, refuses).0;
            Paired(m') && forall id :: id in m'.pending ==> id in m'.fast
    decreases |m.fast| - i
  {
    hide Partition, Paired, Offer;
    if i < |m.fast| {
      var id := m.fast[i];
      var (m', n') := Offer(c, m, id, n, refuses);
      OfferKeepsPartition(c, m, c.Keys, id, n, refuses);
      NextPosition(c, m, i, n, refuses);
      OfferPairs(c, m, id, n, refuses);
      FastScanPairs(c, m', if i < |m'.fast| && m'.fast[i] == id then i + 1 else i, n', refuses);
    }
  }

  lemma {:induction false} SlowScanPairs(c: Catalog, m: Manager, i: nat, n: nat, refuses: nat -> bool)
    requires Partition(m, c.Keys) && i <= |m.slow| && forall id :: id in m.slow ==> id !in m.fast
    requires Paired(m) && forall id :: id in m.pending ==> id in m.fast || id in m.slow[..i]
    ensures Paired(ScanSlow(c, m, i, n, refuses).0)
    decreases |m.slow| - i
  {
    hide Partition, Paired, Offer;
    if i < |m.slow| {
      var id := m.slow[i];
      var (m', n') := Offer(c, m, id, n, refuses);
      OfferKeepsPartition(c, m, c.Keys, id, n, refuses);
      OnceInSlow(m, c.Keys, i);
      SlowOfferMovesNothing(c, m, id, n, refuses);
      OfferPairs(c, m, id, n, refuses);
      assert m.slow[..i+1] == m.slow[..i] + [id];
      SlowScanPairs(c, m', i + 1, n', refuses);
    }
  }

  /** A scan that finds nothing under way leaves each task under way with one handler, whatever is refused. */
  lemma ScanPairs(c: Catalog, m: Manager, refuses: nat -> bool)
    requires Partition(m, c.Keys) && m.pending == {} && m.handlers == multiset{}
    ensures Paired(Scan(c, m, refuses).0)
  {
    hide Partition;
    var (m1, n1) := ScanFast(c, m, 0, 0, refuses);
    FastScanPairs(c, m, 0, 0, refuses);
    ScanFastKeepsPartition(c, m, c.Keys, 0, 0, refuses);
    TablesAreApart(m1, c.Keys);
    SlowScanPairs(c, m1, 0, n1, refuses);
  }

  /** What `schedule` does when the limiter takes every task: every fast and slow entry that can be built
      is under way, the fast entries that cannot are off, and the cycle has not ended. */
  lemma AcceptedScan(c: Catalog, m: Manager, refuses: nat -> bool)
    requires Partition(m, c.Keys) && forall k: nat :: !refuses(k)
    ensures var m' := Scan(c, m, refuses).0;
            && m'.ends == m.ends
            && m'.pending == m.pending + Buildable(c, m.fast + m.slow)
            && m'.fast == Select(c, m.fast, true)
            && m'.slow == m.slow
            && m'.off == m.off + Select(c, m.fast, false)
  {
    hide Partition, Select, Valid;
    var (m1, n1) := ScanFast(c, m, 0, 0, refuses);
    AcceptedFastScan(c, m, 0, 0, refuses);
    ScanFastKeepsPartition(c, m, c.Keys, 0, 0, refuses);
    TablesAreApart(m1, c.Keys);
    ScanSlowMovesNothing(c, m1, 0, n1, refuses);
    AcceptedSlowScan(c, m1, 0, n1, refuses);
    assert m.fast[0..] == m.fast && m.slow[0..] == m.slow;
    assert Buildable(c, m.fast + m.slow) == Buildable(c, m.fast) + Buildable(c, m.slow);
  }

  // ---------------------------------------------------------------- what a scan gives

  /** Nothing given yet; or the first given task, `a`, accepted and still under way; or an ending emitted. */
  ghost predicate Decided(m: Manager, n: nat, refuses: nat -> bool, ends: nat, a: string) {
    && m.ends >= ends
    && (n == 0 ==> m.pending == {} && m.ends == ends)
    && (n > 0 && refuses(0) ==> m.ends > ends)
    && (n > 0 && !refuses(0) ==> m.ends == ends && a in m.pending)
  }

  lemma OfferIsDecided(c: Catalog, m: Manager, id: string, n: nat, refuses: nat -> bool, ends: nat, a: string)
    requires Decided(m, n, refuses, ends, a) && (n > 0 && !refuses(0) ==> a != id)
    ensures var (m', n') := Offer(c, m, id, n, refuses);
            Decided(m', n', refuses, ends, if n == 0 then id else a)
  {
    if n > 0 && !refuses(0) { assert a in m.pending + {id} && a in m.pending + {id} - {id}; }
  }

  lemma {:induction false} FirstDecidesFast(
    c: Catalog, m: Manager, i: nat, n: nat, refuses: nat -> bool, ends: nat, a: string) returns (b: string)
    requires Partition(m, c.Keys) && Decided(m, n, refuses, ends, a) && i <= |m.fast|
    requires n > 0 && !refuses(0) ==> a in m.fast[..i]
    ensures var (m', n') := ScanFast(c, m, i, n, refuses);
            Decided(m', n', refuses, ends, b) && (n' > 0 && !refuses(0) ==> b in m'.fast)
    decreases |m.fast| - i
  {
    hide Partition, Decided;
    b := a;
    if i < |m.fast| {
      var id := m.fast[i];
      var (m', n') := Offer(c, m, id, n, refuses);
      OfferKeepsPartition(c, m, c.Keys, id, n, refuses);
      Once(m, c.Keys, i);
      OfferLeavesTheRest(c, m, i, n, refuses);
      OfferIsDecided(c, m, id, n, refuses, ends, a);
      b := FirstDecidesFast(c, m', if i < |m'.fast| && m'.fast[i] == id then i + 1 else i, n', refuses, ends,
        if n == 0 then id else a);
    }
  }

  lemma OfferLeavesTheRest(c: Catalog, m: Manager, i: nat, n: nat, refuses: nat -> bool)
    requires Partition(m, c.Keys) && i < |m.fast|
    ensures var (m', n') := Offer(c, m, m.fast[i], n, refuses);
            && (m'.fast == m.fast || m'.fast == m.fast[..i] + m.fast[i+1..])
            && (n' > n && !refuses(n) ==> m'.fast == m.fast)
            && n <= n' <= n + 1
  {
    hide Partition;
    Once(m, c.Keys, i);
  }

  lemma {:induction false} FirstDecidesSlow(
    c: Catalog, m: Manager, i: nat, n: nat, refuses: nat -> bool, ends: nat, a: string) returns (b: string)
    requires Partition(m, c.Keys) && Decided(m, n, refuses, ends, a) && i <= |m.slow|
    requires forall id :: id in m.slow ==> id !in m.fast
    requires n > 0 && !refuses(0) ==> a in m.fast || a in m.slow[..i]
    ensures var (m', n') := ScanSlow(c, m, i, n, refuses); Decided(m', n', refuses, ends, b)
    decreases |m.slow| - i
  {
    hide Partition, Decided;
    b := a;
    if i < |m.slow| {
      var id := m.slow[i];
      var (m', n') := Offer(c, m, id, n, refuses);
      OfferKeepsPartition(c, m, c.Keys, id, n, refuses);
      OnceInSlow(m, c.Keys, i);
      OfferIsDecided(c, m, id, n, refuses, ends, a);
      b := FirstDecidesSlow(c, m', i + 1, n', refuses, ends, if n == 0 then id else a);
    }
  }

  lemma OnceInSlow(m: Manager, ids: set<string>, i: nat)
    requires Partition(m, ids) && i < |m.slow|
    ensures m.slow[i] !in m.slow[..i] && m.slow[i] !in m.fast
  {
    var id := m.slow[i];
    assert m.slow == m.slow[..i] + [id] + m.slow[i+1..];
    assert multiset(m.slow)[id] == multiset(m.slow[..i])[id] + 1 + multiset(m.slow[i+1..])[id];
    assert multiset(ids)[id] == multiset(m.fast)[id] + multiset(m.slow)[id] + multiset(m.off)[id] <= 1;
  }

  /** Whether a loop gives the limiter anything depends on its entries only, not on what is refused. */
  lemma {:induction false} FastGivesIffBuildable(c: Catalog, m: Manager, i: nat, n: nat, refuses: nat -> bool)
    requires Partition(m, c.Keys) && i <= |m.fast|
    ensures var n' := ScanFast(c, m, i, n, refuses).1; n' >= n && (n' > n <==> Buildable(c, m.fast[i..]) != {})
    decreases |m.fast| - i
  {
    hide Partition, Valid, Buildable, Offer;
    if i < |m.fast| {
      var id := m.fast[i];
      var (m', n') := Offer(c, m, id, n, refuses);
      OfferKeepsPartition(c, m, c.Keys, id, n, refuses);
      NextPosition(c, m, i, n, refuses);
      OfferGivesIffValid(c, m, id, n, refuses);
      SelectFirst(c, m.fast[i..], true);
      assert m.fast[i..][1..] == m.fast[i+1..];
      FastGivesIffBuildable(c, m', if i < |m'.fast| && m'.fast[i] == id then i + 1 else i, n', refuses);
    } else {
      SelectNone(c);
      assert m.fast[i..] == [];
    }
  }

  lemma OfferGivesIffValid(c: Catalog, m: Manager, id: string, n: nat, refuses: nat -> bool)
    ensures Offer(c, m, id, n, refuses).1 == if Valid(c, id) then n + 1 else n
  {
  }

  lemma {:induction false} SlowGivesIffBuildable(c: Catalog, m: Manager, i: nat, n: nat, refuses: nat -> bool)
    requires (forall id :: id in m.slow ==> id !in m.fast) && i <= |m.slow|
    ensures var n' := ScanSlow(c, m, i, n, refuses).1; n' >= n && (n' > n <==> Buildable(c, m.slow[i..]) != {})
    decreases |m.slow| - i
  {
    hide Valid, Buildable;
    if i < |m.slow| {
      var (m', n') := Offer(c, m, m.slow[i], n, refuses);
      OfferGivesIffValid(c, m, m.slow[i], n, refuses);
      SelectFirst(c, m.slow[i..], true);
      assert m.slow[i..][1..] == m.slow[i+1..];
      SlowGivesIffBuildable(c, m', i + 1, n', refuses);
    } else {
      SelectNone(c);
      assert m.slow[i..] == [];
    }
  }

  /** A scan gives the limiter a task exactly when some scanned entry can be built. */
  lemma ScanGivesIffBuildable(c: Catalog, m: Manager, refuses: nat -> bool)
    requires Partition(m, c.Keys)
    ensures Scan(c, m, refuses).1 > 0 <==> Buildable(c, m.fast + m.slow) != {}
  {
    hide Partition, Valid;
    var (m1, n1) := ScanFast(c, m, 0, 0, refuses);
    ScanFastKeepsPartition(c, m, c.Keys, 0, 0, refuses);
    TablesAreApart(m1, c.Keys);
    FastGivesIffBuildable(c, m, 0, 0, refuses);
    SlowGivesIffBuildable(c, m1, 0, n1, refuses);
    assert m.fast[0..] == m.fast && m1.slow[0..] == m1.slow;
    ScanFastKeepsLive(c, m, 0, 0, refuses);
    LiveInEither(c, m, m1);
  }

  lemma LiveInEither(c: Catalog, m: Manager, m': Manager)
    requires SameLive(c, m, m') && m.slow <= m'.slow
    requires forall id :: id in m'.fast ==> id in m.fast
    ensures Buildable(c, m.fast + m.slow) != {} <==> Buildable(c, m.fast) != {} || Buildable(c, m'.slow) != {}
  {
    hide Valid;
    if x :| x in Buildable(c, m.fast + m.slow) {
      assert x in m.fast ==> x in Buildable(c, m.fast);
      assert x in m.slow ==> x in m'.slow;
      assert x in m.slow ==> x in Buildable(c, m'.slow);
    }
    if x :| x in Buildable(c, m.fast) { assert x in Buildable(c, m.fast + m.slow); }
    if x :| x in Buildable(c, m'.slow) { assert x in Buildable(c, m.fast + m.slow); }
  }

  /** A scan that finds nothing under way emits `endCycle` before it is over exactly when some entry can be
      built and the limiter refuses the first task the scan gives it; then the next scan is armed while
      tasks may be starting. Otherwise something is under way exactly when some entry can be built. */
  lemma EndsInsideIffFirstIsRefused(c: Catalog, m: Manager, refuses: nat -> bool)
    requires Partition(m, c.Keys) && m.pending == {}
    ensures var m' := Scan(c, m, refuses).0;
            && (m'.ends > m.ends <==> refuses(0) && Buildable(c, m.fast + m.slow) != {})
            && (!refuses(0) ==> m'.ends == m.ends && (m'.pending != {} <==> Buildable(c, m.fast + m.slow) != {}))
  {
    hide Partition, Buildable;
    var (m1, n1) := ScanFast(c, m, 0, 0, refuses);
    ScanFastKeepsPartition(c, m, c.Keys, 0, 0, refuses);
    TablesAreApart(m1, c.Keys);
    assert Decided(m, 0, refuses, m.ends, "");
    var a := FirstDecidesFast(c, m, 0, 0, refuses, m.ends, "");
    a := FirstDecidesSlow(c, m1, 0, n1, refuses, m.ends, a);
    ScanGivesIffBuildable(c, m, refuses);
  }

  // ---------------------------------------------------------------- the events emitted

  lemma OfferEmits(c: Catalog, m: Manager, id: string, n: nat, refuses: nat -> bool)
    ensures Offer(c, m, id, n, refuses).0.ends >= m.ends
  {
  }

  lemma {:induction false} ScanFastEmits(c: Catalog, m: Manager, i: nat, n: nat, refuses: nat -> bool)
    ensures ScanFast(c, m, i, n, refuses).0.ends >= m.ends
    decreases |m.fast| - i
  {
    if i < |m.fast| {
      var id := m.fast[i];
      var (m', n') := Offer(c, m, id, n, refuses);
      OfferEmits(c, m, id, n, refuses);
      ScanFastEmits(c, m', if i < |m'.fast| && m'.fast[i] == id then i + 1 else i, n', refuses);
    }
  }

  lemma {:induction false} ScanSlowEmits(c: Catalog, m: Manager, i: nat, n: nat, refuses: nat -> bool)
    requires forall id :: id in m.slow ==> id !in m.fast
    ensures ScanSlow(c, m, i, n, refuses).0.ends >= m.ends
    decreases |m.slow| - i
  {
    if i < |m.slow| {
      var (m', n') := Offer(c, m, m.slow[i], n, refuses);
      OfferEmits(c, m, m.slow[i], n, refuses);
      ScanSlowEmits(c, m', i + 1, n', refuses);
    }
  }

  /** A scan only adds to the events emitted. */
  lemma ScanEmits(c: Catalog, m: Manager, refuses: nat -> bool)
    requires Partition(m, c.Keys)
    ensures Scan(c, m, refuses).0.ends >= m.ends
  {
    var (m1, n1) := ScanFast(c, m, 0, 0, refuses);
    ScanFastKeepsPartition(c, m, c.Keys, 0, 0, refuses);
    TablesAreApart(m1, c.Keys);
    ScanFastEmits(c, m, 0, 0, refuses);
    ScanSlowEmits(c, m1, 0, n1, refuses);
  }

  // ---------------------------------------------------------------- entries that can be built

  /** Entries that can be built are in the fast or the slow table of both, or of neither. */
  ghost predicate SameLive(c: Catalog, m: Manager, m': Manager) {
    forall id :: Valid(c, id) ==> (id in m.fast || id in m.slow <==> id in m'.fast || id in m'.slow)
  }

  lemma SameLiveIsSameBuildable(c: Catalog, m: Manager, m': Manager)
    requires SameLive(c, m, m')
    ensures Buildable(c, m.fast + m.slow) == Buildable(c, m'.fast + m'.slow)
  {
  }

  lemma MovesKeepLive(c: Catalog, m: Manager, id: string)
    requires Partition(m, c.Keys)
    ensures !Valid(c, id) ==> SameLive(c, m, TurnOff(m, id))
    ensures SameLive(c, m, SlowDown(m, id))
  {
    hide Valid, Delete;
    if id in m.fast {
      DeleteTakesOne(m.fast, id);
      forall x ensures x != id ==> (x in Delete(m.fast, id) <==> x in m.fast) {
        assert x in Delete(m.fast, id) <==> x in multiset(Delete(m.fast, id));
      }
    }
  }

  lemma DoneKeepsLive(c: Catalog, m: Manager, id: string, failed: bool)
    requires Partition(m, c.Keys)
    ensures SameLive(c, m, Done(m, id, failed))
  {
    hide Valid;
    MovesKeepLive(c, m.(pending := m.pending - {id}, handlers := m.handlers - multiset{id}), id);
  }

  lemma OfferKeepsLive(c: Catalog, m: Manager, id: string, n: nat, refuses: nat -> bool)
    requires Partition(m, c.Keys)
    ensures SameLive(c, m, Offer(c, m, id, n, refuses).0)
  {
    MovesKeepLive(c, m, id);
    DoneKeepsLive(c, Given(m, id), id, true);
  }

  lemma {:induction false} ScanFastKeepsLive(c: Catalog, m: Manager, i: nat, n: nat, refuses: nat -> bool)
    requires Partition(m, c.Keys)
    ensures SameLive(c, m, ScanFast(c, m, i, n, refuses).0)
    decreases |m.fast| - i
  {
    hide Partition, Valid, Offer;
    if i < |m.fast| {
      var id := m.fast[i];
      var (m', n') := Offer(c, m, id, n, refuses);
      OfferLeavesTheRest(c, m, i, n, refuses);
      OfferKeepsPartition(c, m, c.Keys, id, n, refuses);
      OfferKeepsLive(c, m, id, n, refuses);
      ScanFastKeepsLive(c, m', if i < |m'.fast| && m'.fast[i] == id then i + 1 else i, n', refuses);
    }
  }

  lemma ScanKeepsLive(c: Catalog, m: Manager, refuses: nat -> bool)
    requires Partition(m, c.Keys)
    ensures SameLive(c, m, Scan(c, m, refuses).0)
  {
    hide Partition, Valid;
    var (m1, n1) := ScanFast(c, m, 0, 0, refuses);
    ScanFastKeepsLive(c, m, 0, 0, refuses);
    ScanFastKeepsPartition(c, m, c.Keys, 0, 0, refuses);
    TablesAreApart(m1, c.Keys);
    ScanSlowMovesNothing(c, m1, 0, n1, refuses);
  }

  lemma PerformScanKeepsLive(c: Catalog, period: real, x: Executor, now: real, refuses: nat -> bool)
    requires Partition(x.manager, c.Keys)
    ensures SameLive(c, x.manager, PerformScan(c, period, x, now, refuses).manager)
  {
    hide Partition, SameLive, Follow, Scan;
    ScanKeepsLive(c, x.manager, refuses);
    var x' := x.(cycleTimer := if x.cycleTimer.None? then Some(now) else x.cycleTimer, scans := x.scans + [now]);
    FollowKeepsManager(period, x', Scan(c, x.manager, refuses).0, now);
  }

  lemma StepKeepsLive(c: Catalog, period: real, x: Executor, e: Event)
    requires Partition(x.manager, c.Keys) && Enabled(x, e)
    ensures SameLive(c, x.manager, Step(c, period, x, e).manager)
  {
    hide Partition, SameLive, Follow, PerformScan, Done;
    match e {
      case TimerFires(timer, at, refuses) =>
        PerformScanKeepsLive(c, period, x.(timers := x.timers[..timer] + x.timers[timer + 1..]), at, refuses);
      case TaskDone(id, failed, at) =>
        DoneKeepsLive(c, x.manager, id, failed);
        FollowKeepsManager(period, x, Done(x.manager, id, failed), at);
    }
  }

  /** An entry that can be built never leaves the tables that are scanned, in any run. */
  lemma {:induction false} EntriesStayLive(c: Catalog, period: real, x: Executor, es: seq<Event>)
    requires Partition(x.manager, c.Keys) && Legal(c, period, x, es)
    ensures SameLive(c, x.manager, Exec(c, period, x, es).manager)
    decreases |es|
  {
    hide Partition, Step, Valid;
    if es != [] {
      StepKeepsPartition(c, period, x, es[0]);
      StepKeepsLive(c, period, x, es[0]);
      EntriesStayLive(c, period, Step(c, period, x, es[0]), es[1..]);
    }
  }
}
