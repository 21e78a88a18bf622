/** The scheduler object (packages/api/tasks/src/Scheduler/Scheduler.ts): one limiter for each resource,
    piped into the main one, and the polling groups on it. SchedulerSpec says how they run. */
module Schedulers {
  import opened Wrappers
  import opened LimiterSpec

  /** A resource's entry: its limiter options and, for each period, the tasks polled. */
  datatype Entry = Entry(limiterOptions: LimiterOptions, pollingGroups: map<string, seq<string>>)

  datatype Addition = Addition(resource: string, entry: Entry)

  /** A resource's limiter: its options, and whether its jobs go to the scheduler's main limiter. */
  datatype ResourceLimiter = ResourceLimiter(options: LimiterOptions, piped: bool)

  predicate Mentioned(additions: seq<Addition>, resource: string) {
    exists k :: 0 <= k < |additions| && additions[k].resource == resource
  }

  /** The position of a resource's first mention: where its limiter comes from. */
  function FirstMention(additions: seq<Addition>, resource: string): (k: nat)
    requires Mentioned(additions, resource)
    ensures k < |additions| && additions[k].resource == resource
    ensures forall j :: 0 <= j < k ==> additions[j].resource != resource
  {
    if additions[0].resource == resource then 0
    else
      assert Mentioned(additions[1..], resource);
      1 + FirstMention(additions[1..], resource)
  }

  /** The tasks polled for a resource and period: those of the last mention that lists the period. */
  function LastPolled(additions: seq<Addition>, resource: string, period: string): Option<seq<string>> {
    if additions == [] then None
    else
      var last := additions[|additions| - 1];
      if last.resource == resource && period in last.entry.pollingGroups then Some(last.entry.pollingGroups[period])
      else LastPolled(additions[..|additions| - 1], resource, period)
  }

  predicate Lists(a: Addition, resource: string, period: string) {
    a.resource == resource && period in a.entry.pollingGroups
  }

  /** The tasks polled are those of the last addition that lists the period, and none if none does. */
  lemma {:induction false} LastListingDecides(additions: seq<Addition>, resource: string, period: string, k: int)
    requires -1 <= k < |additions| && forall j :: k < j < |additions| ==> !Lists(additions[j], resource, period)
    requires k >= 0 ==> Lists(additions[k], resource, period)
    ensures LastPolled(additions, resource, period)
            == if k >= 0 then Some(additions[k].entry.pollingGroups[period]) else None
  {
    var n := |additions| - 1;
    if 0 <= n && k < n {
      var before := additions[..n];
      assert forall j :: 0 <= j < n ==> before[j] == additions[j];
      assert !Lists(additions[n], resource, period);
      LastListingDecides(before, resource, period, k);
    }
  }

  /** The limiters told by the additions so far: the first mention of a resource decides its limiter, and
      each is piped into the main one. */
  ghost predicate LimitersTold(limiters: map<string, ResourceLimiter>, added: seq<Addition>) {
    && (forall r :: r in limiters <==> Mentioned(added, r))
    && (forall r :: r in limiters ==>
          limiters[r] == ResourceLimiter(added[FirstMention(added, r)].entry.limiterOptions, true))
  }

  /** The executors told by them: the last mention that lists a period decides the tasks polled in it. */
  ghost predicate PolledTold(executors: map<string, map<string, seq<string>>>, added: seq<Addition>) {
    && (forall r :: r in executors <==> Mentioned(added, r))
    && (forall r, p :: r in executors ==> PolledAt(executors[r], p) == LastPolled(added, r, p))
  }

  function PolledAt(executors: map<string, seq<string>>, period: string): Option<seq<string>> {
    if period in executors then Some(executors[period]) else None
  }

  class Scheduler {
    const limiterOptions: LimiterOptions
    var pollingExecutors: map<string, map<string, seq<string>>>
    var limiters: map<string, ResourceLimiter>   // each resource's limiter
    var isRunning: bool
    ghost var added: seq<Addition>

    ghost predicate Valid() reads this {
      limiters.Keys == pollingExecutors.Keys && LimitersTold(limiters, added) && PolledTold(pollingExecutors, added)
    }

    constructor (limiterOptions: LimiterOptions)
      ensures Valid() && this.limiterOptions == limiterOptions && added == [] && !isRunning
    {
      this.limiterOptions := limiterOptions;
      pollingExecutors, limiters, isRunning, added := map[], map[], false, [];
    }

    /** The limiter of a resource; `options` count only when it has none yet, and a new one is piped. */
    method GetLimiter(resource: string, options: LimiterOptions) returns (limiter: ResourceLimiter)
      modifies this`limiters
      ensures limiters == old(limiters)[resource := limiter]
      ensures limiter == if resource in old(limiters) then old(limiters)[resource] else ResourceLimiter(options, true)
    {
      if resource in limiters {
        limiter := limiters[resource];
      } else {
        limiter := ResourceLimiter(options, false);
        limiters := limiters[resource := limiter];
        limiter := limiter.(piped := true);
        limiters := limiters[resource := limiter];
      }
    }

    /** Refused, with nothing changed, while the scheduler runs. */
    method AddResource(resource: string, entry: Entry) returns (ok: bool)
      requires Valid()
      modifies this
      ensures Valid() && isRunning == old(isRunning) && ok == !isRunning
      ensures added == if ok then old(added) + [Addition(resource, entry)] else old(added)
      ensures !ok ==> limiters == old(limiters) && pollingExecutors == old(pollingExecutors)
    {
      hide LimitersTold, PolledTold;
      if isRunning { return false; }
      LimitersStayTold(limiters, added, Addition(resource, entry));
      PolledStaysTold(pollingExecutors, added, Addition(resource, entry));
      if resource !in pollingExecutors { pollingExecutors := pollingExecutors[resource := map[]]; }
      var limiter := GetLimiter(resource, entry.limiterOptions);
      pollingExecutors := pollingExecutors[resource := pollingExecutors[resource] + entry.pollingGroups];
      ghost var mine := if resource in old(pollingExecutors) then old(pollingExecutors)[resource] else map[];
      assert pollingExecutors == old(pollingExecutors)[resource := mine + entry.pollingGroups];
      added := added + [Addition(resource, entry)];
      ok := true;
    }
  }

  lemma LimitersStayTold(limiters: map<string, ResourceLimiter>, added: seq<Addition>, a: Addition)
    requires LimitersTold(limiters, added)
    ensures var mine := if a.resource in limiters then limiters[a.resource]
                        else ResourceLimiter(a.entry.limiterOptions, true);
            LimitersTold(limiters[a.resource := mine], added + [a])
  {
    hide Mentioned, FirstMention;
    MentionsGrow(added, a);
  }

  lemma PolledStaysTold(executors: map<string, map<string, seq<string>>>, added: seq<Addition>, a: Addition)
    requires PolledTold(executors, added)
    ensures var mine := if a.resource in executors then executors[a.resource] else map[];
            PolledTold(executors[a.resource := mine + a.entry.pollingGroups], added + [a])
  {
    hide Mentioned, LastPolled;
    MentionsGrow(added, a);
    PolledGrow(added, a);
    if a.resource !in executors { NeverPolled(added, a.resource); }
  }

  lemma MentionsGrow(additions: seq<Addition>, a: Addition)
    ensures forall r :: Mentioned(additions + [a], r) <==> Mentioned(additions, r) || r == a.resource
    ensures forall r :: Mentioned(additions, r) ==> FirstMention(additions + [a], r) == FirstMention(additions, r)
    ensures !Mentioned(additions, a.resource) ==> FirstMention(additions + [a], a.resource) == |additions|
  {
    var more := additions + [a];
    assert more[|additions|].resource == a.resource;
    forall r ensures Mentioned(more, r) <==> Mentioned(additions, r) || r == a.resource {
      if Mentioned(additions, r) {
        var k :| 0 <= k < |additions| && additions[k].resource == r;
        assert more[k].resource == r;
      }
    }
    forall r | Mentioned(additions, r) ensures FirstMention(more, r) == FirstMention(additions, r) {
      FirstIsUnique(more, r, FirstMention(additions, r));
    }
    if !Mentioned(additions, a.resource) { FirstIsUnique(more, a.resource, |additions|); }
  }

  lemma FirstIsUnique(additions: seq<Addition>, resource: string, k: nat)
    requires k < |additions| && additions[k].resource == resource
    requires forall j :: 0 <= j < k ==> additions[j].resource != resource
    ensures Mentioned(additions, resource) && FirstMention(additions, resource) == k
  {
  }

  lemma PolledGrow(additions: seq<Addition>, a: Addition)
    ensures forall r, p :: LastPolled(additions + [a], r, p)
              == if r == a.resource && p in a.entry.pollingGroups then Some(a.entry.pollingGroups[p])
                 else LastPolled(additions, r, p)
  {
  }

  lemma {:induction false} NeverPolled(additions: seq<Addition>, resource: string)
    requires !Mentioned(additions, resource)
    ensures forall p :: LastPolled(additions, resource, p).None?
  {
    if additions != [] {
      var n := |additions| - 1;
      assert additions[n].resource != resource;
      assert !Mentioned(additions[..n], resource) by {
        assert forall k :: 0 <= k < n ==> additions[..n][k] == additions[k];
      }
      NeverPolled(additions[..n], resource);
    }
  }
}
