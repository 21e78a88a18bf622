/** The manager object of packages/api/tasks/src/Polling/PollingManager.ts, its methods proved against
    the functions of PollingSpec. */
module PollingManagers {
  import opened PollingSpec
  import opened PollingDemotions
  import Spec = PollingSpec

  /** The table and the catalog after the entries were put in one by one: a repeated id keeps its place
      and takes the later configuration. */
  function Listed(entries: seq<Config>): (seq<string>, Catalog) {
    if entries == [] then ([], map[])
    else
      var (ids, c) := Listed(entries[..|entries| - 1]);
      var entry := entries[|entries| - 1];
      (Put(ids, entry.id), c[entry.id := entry])
  }

  /** A new manager holds every given id once, in the fast table. */
  lemma {:induction false} NewManagerIsPartitioned(entries: seq<Config>)
    ensures var (ids, c) := Listed(entries);
            && Partition(Manager(ids, [], [], {}, multiset{}, 0), c.Keys) && Named(c)
            && (forall id :: id in c <==> exists e :: e in entries && e.id == id)
  {
    if entries != [] {
      var (n, entry) := (|entries| - 1, entries[|entries| - 1]);
      NewManagerIsPartitioned(entries[..n]);
      var (ids, c) := Listed(entries[..n]);
      InOneTable(Manager(ids, [], [], {}, multiset{}, 0), c.Keys, entry.id);
      assert entries == entries[..n] + [entry];
      if entry.id !in c {
        assert c[entry.id := entry].Keys == c.Keys + {entry.id};
        assert multiset(ids + [entry.id]) == multiset(ids) + multiset{entry.id};
        assert multiset(c.Keys + {entry.id}) == multiset(c.Keys) + multiset{entry.id};
      } else {
        assert c[entry.id := entry].Keys == c.Keys;
      }
    }
  }

  class PollingManager {
    const catalog: Catalog
    var fastEntries: seq<string>
    var slowEntries: seq<string>
    var offEntries: seq<string>
    var pending: set<string>
    ghost var handlers: multiset<string>
    var ends: nat

    ghost function State(): Manager reads this {
      Manager(fastEntries, slowEntries, offEntries, pending, handlers, ends)
    }

    ghost predicate Valid() reads this { Named(catalog) && Partition(State(), catalog.Keys) }

    constructor (entries: seq<Config>)
      ensures Valid() && State() == Manager(Listed(entries).0, [], [], {}, multiset{}, 0)
      ensures catalog == Listed(entries).1
    {
      var ids, c := [], map[];
      for i := 0 to |entries|
        invariant Listed(entries[..i]) == (ids, c)
      {
        assert entries[..i+1][..i] == entries[..i];
        ids := Put(ids, entries[i].id);
        c := c[entries[i].id := entries[i]];
      }
      assert entries[..|entries|] == entries;
      NewManagerIsPartitioned(entries);
      catalog, fastEntries, slowEntries, offEntries, pending, ends := c, ids, [], [], {}, 0;
      handlers := multiset{};
    }

    /** Building a task fails exactly for a configuration the validator rejects, and then turns off no entry
        but that one: what a group or a sequence is made of never fails on its own. */
    method CreateTaskInstance(config: Config) returns (ok: bool)
      modifies this
      ensures ok <==> ValidConfig(config)
      ensures State() == if ok then old(State()) else TurnOff(old(State()), config.id)
      decreases config, 1
    {
      ok := false;
      if ValidConfig(config) && config.kind.SingleTask? {
        ok := true;
      } else if ValidConfig(config) && config.kind.GroupOf? {
        ok := CreateAll(config, config.kind.tasks);
      } else if ValidConfig(config) && config.kind.SequenceOf? {
        ok := CreateAll(config, config.kind.pre);
        if ok { ok := CreateTaskInstance(config.kind.task); }
        if ok { ok := CreateAll(config, config.kind.post); }
        if ok { ok := CreateAll(config, config.kind.last); }
      }
      if !ok && config.id in fastEntries {
        fastEntries := Delete(fastEntries, config.id);
        offEntries := Put(offEntries, config.id);
      }
    }

    method CreateAll(ghost parent: Config, configs: seq<Config>) returns (ok: bool)
      requires AllSingle(configs) && forall c :: c in configs ==> c < parent
      modifies this
      ensures ok && State() == old(State())
      decreases parent, 0
    {
      for i := 0 to |configs|
        invariant State() == old(State())
      {
        assert configs[i] in configs;
        ok := CreateTaskInstance(configs[i]);
      }
      ok := true;
    }

    method OnDone(id: string, failed: bool)
      modifies this
      ensures State() == Spec.Done(old(State()), id, failed)
      ensures old(Valid()) && id in old(fastEntries) ==>
                (id in slowEntries <==> failed) && (id in fastEntries <==> !failed)
    {
      hide Put, Delete, Partition;
      if Valid() { EndDemotesIffFailed(State(), catalog.Keys, id, failed, id); }
      ghost var m := old(State()).(pending := old(pending) - {id}, handlers := old(handlers) - multiset{id});
      pending := pending - {id};
      handlers := handlers - multiset{id};
      assert State() == m;
      if failed && id in fastEntries {
        slowEntries := Put(slowEntries, id);
        fastEntries := Delete(fastEntries, id);
      }
      assert State() == if failed then SlowDown(m, id) else m;
      if pending == {} { ends := ends + 1; }
    }

    /** Builds one entry and gives it to the limiter, as the n-th of the scan. */
    method ScheduleTask(id: string, n: nat, refuses: nat -> bool) returns (given: nat)
      requires id in catalog && catalog[id].id == id
      modifies this
      ensures (State(), given) == Offer(catalog, old(State()), id, n, refuses)
    {
      given := n;
      var created := CreateTaskInstance(catalog[id]);
      if created {
        pending := pending + {id};
        handlers := handlers + multiset{id};
        given := n + 1;
        if refuses(n) { OnDone(id, true); }
      }
    }

    /** The two live loops of a scan. */
    method Schedule(refuses: nat -> bool) returns (ghost given: nat)
      requires Valid()
      modifies this
      ensures Valid() && (State(), given) == Scan(catalog, old(State()), refuses)
    {
      hide Partition, Offer;
      var n, i := 0, 0;
      while i < |fastEntries|
        invariant Valid()
        invariant ScanFast(catalog, State(), i, n, refuses) == ScanFast(catalog, old(State()), 0, 0, refuses)
        decreases |fastEntries| - i
      {
        var id := fastEntries[i];
        FastIsKnown(State(), catalog, id);
        OfferKeepsPartition(catalog, State(), catalog.Keys, id, n, refuses);
        OfferShrinks(catalog, State(), id, n, refuses);
        n := ScheduleTask(id, n, refuses);
        if i < |fastEntries| && fastEntries[i] == id { i := i + 1; }
      }
      ghost var between, m := State(), n;
      TablesAreApart(between, catalog.Keys);
      i := 0;
      while i < |slowEntries|
        invariant Valid() && fastEntries == between.fast && slowEntries == between.slow
        invariant ScanSlow(catalog, State(), i, n, refuses) == ScanSlow(catalog, between, 0, m, refuses)
      {
        var id := slowEntries[i];
        FastIsKnown(State(), catalog, id);
        OfferKeepsPartition(catalog, State(), catalog.Keys, id, n, refuses);
        SlowOfferMovesNothing(catalog, State(), id, n, refuses);
        n := ScheduleTask(id, n, refuses);
        i := i + 1;
      }
      given := n;
    }
  }

  lemma FastIsKnown(m: Manager, c: Catalog, id: string)
    requires Partition(m, c.Keys) && Named(c) && (id in m.fast || id in m.slow)
    ensures id in c && c[id].id == id
  {
    InOneTable(m, c.Keys, id);
  }
}
