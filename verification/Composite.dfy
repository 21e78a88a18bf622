/** Tasks made of tasks (packages/api/tasks/src/Tasks/Sequence.ts and Group.ts). A child is given by how
    its `execute` ends. */
module Composite {
  import opened Wrappers

  datatype Ended<T> = Returned(value: T) | Threw

  predicate AllReturned<T>(tasks: seq<Ended<T>>) { forall k :: 0 <= k < |tasks| ==> tasks[k].Returned? }

  predicate AllThrew<T>(tasks: seq<Ended<T>>) { forall k :: 0 <= k < |tasks| ==> tasks[k].Threw? }

  /** How many tasks of a phase are executed: up to and including the first that throws. */
  function Reach<T>(tasks: seq<Ended<T>>): (n: nat)
    ensures n <= |tasks|
    ensures forall k :: 0 <= k < n - 1 ==> tasks[k].Returned?
    ensures if AllReturned(tasks) then n == |tasks| else n > 0 && tasks[n-1].Threw?
  {
    if tasks == [] then 0 else if tasks[0].Threw? then 1 else 1 + Reach(tasks[1..])
  }

  lemma ReachIs<T>(tasks: seq<Ended<T>>, n: nat)
    requires 0 < n <= |tasks| && tasks[n-1].Threw? && forall k :: 0 <= k < n - 1 ==> tasks[k].Returned?
    ensures Reach(tasks) == n && !AllReturned(tasks)
  {
  }

  // ---------------------------------------------------------------- sequences

  datatype Phase = Pre | Main | Post | Finally

  datatype Child = Child(phase: Phase, index: nat)

  datatype Pattern<T> = Pattern(pre: seq<Ended<T>>, main: Ended<T>, post: seq<Ended<T>>, last: seq<Ended<T>>) {
    function Of(phase: Phase): seq<Ended<T>> {
      match phase
      case Pre => pre
      case Main => [main]
      case Post => post
      case Finally => last
    }
  }

  datatype SequenceEnd<T> = Resolves(value: T) | Rejects(phase: Phase)

  function Firsts(phase: Phase, n: nat): seq<Child> { seq(n, i requires 0 <= i < n => Child(phase, i)) }

  /** Every child that is executed, in order. */
  function Executed<T>(p: Pattern<T>): seq<Child> {
    Firsts(Pre, Reach(p.pre))
    + (if !AllReturned(p.pre) then []
       else [Child(Main, 0)] + (if p.main.Returned? then Firsts(Post, Reach(p.post)) else []))
    + Firsts(Finally, Reach(p.last))
  }

  function EndOf<T>(p: Pattern<T>): SequenceEnd<T> {
    if !AllReturned(p.last) then Rejects(Finally)
    else if !AllReturned(p.pre) then Rejects(Pre)
    else if p.main.Threw? then Rejects(Main)
    else if !AllReturned(p.post) then Rejects(Post)
    else Resolves(p.main.value)
  }

  ghost predicate ReturnedAt<T>(p: Pattern<T>, c: Child) {
    c.index < |p.Of(c.phase)| && p.Of(c.phase)[c.index].Returned?
  }

  lemma FirstsReturned<T>(p: Pattern<T>, phase: Phase)
    ensures var cs := Firsts(phase, Reach(p.Of(phase)));
            AllReturned(p.Of(phase)) <==> forall c :: c in cs ==> ReturnedAt(p, c)
  {
    var n := Reach(p.Of(phase));
    var cs := Firsts(phase, n);
    if AllReturned(p.Of(phase)) {
      forall c | c in cs ensures ReturnedAt(p, c) { assert p.Of(phase)[c.index].Returned?; }
    } else {
      assert cs[n-1] == Child(phase, n - 1) && !ReturnedAt(p, cs[n-1]);
    }
  }

  /** A sequence resolves exactly when every child it executed did, and then with the main task's value. */
  lemma ResolvesIffAllExecutedDid<T>(p: Pattern<T>)
    ensures EndOf(p).Resolves? <==> forall c :: c in Executed(p) ==> ReturnedAt(p, c)
    ensures EndOf(p).Resolves? ==> EndOf(p).value == p.main.value
  {
    hide Firsts, ReturnedAt, AllReturned;
    FirstsReturned(p, Pre);
    FirstsReturned(p, Post);
    FirstsReturned(p, Finally);
    MainReturned(p);
    var early := Firsts(Pre, Reach(p.pre));
    var late := Firsts(Finally, Reach(p.last));
    var middle := if AllReturned(p.pre)
      then [Child(Main, 0)] + (if p.main.Returned? then Firsts(Post, Reach(p.post)) else []) else [];
    assert Executed(p) == early + middle + late;
    assert forall c :: c in Executed(p) <==> c in early || c in middle || c in late;
    if AllReturned(p.pre) { assert Child(Main, 0) in middle; }
  }

  /** Whether a child's turn comes, from the outcomes alone: it waits for the earlier tasks of its phase, the
      main task for all of `pre`, `post` for the main task; the last phase waits for nothing. */
  predicate TurnComes<T>(p: Pattern<T>, c: Child) {
    && c.index < |p.Of(c.phase)|
    && (forall k :: 0 <= k < c.index ==> p.Of(c.phase)[k].Returned?)
    && (c.phase.Main? || c.phase.Post? ==> AllReturned(p.pre))
    && (c.phase.Post? ==> p.main.Returned?)
  }

  function Rank(phase: Phase): nat {
    match phase
    case Pre => 0
    case Main => 1
    case Post => 2
    case Finally => 3
  }

  predicate Earlier(a: Child, b: Child) {
    Rank(a.phase) < Rank(b.phase) || (a.phase == b.phase && a.index < b.index)
  }

  lemma FirstsAre<T>(p: Pattern<T>, phase: Phase, c: Child)
    ensures c in Firsts(phase, Reach(p.Of(phase)))
            <==> c.phase == phase && c.index < |p.Of(phase)|
                 && forall k :: 0 <= k < c.index ==> p.Of(phase)[k].Returned?
  {
    var tasks := p.Of(phase);
    var cs := Firsts(phase, Reach(tasks));
    if c.phase == phase && c.index < Reach(tasks) { assert cs[c.index] == c; }
  }

  /** The executed children, phase by phase. */
  function Middle<T>(p: Pattern<T>): seq<Child> {
    if AllReturned(p.pre)
    then [Child(Main, 0)] + (if p.main.Returned? then Firsts(Post, Reach(p.post)) else []) else []
  }

  lemma MiddleIs<T>(p: Pattern<T>, c: Child)
    ensures Executed(p) == Firsts(Pre, Reach(p.pre)) + Middle(p) + Firsts(Finally, Reach(p.last))
    ensures c in Middle(p) <==> (c.phase.Main? || c.phase.Post?) && TurnComes(p, c)
    ensures forall i, j :: 0 <= i < j < |Middle(p)| ==> Earlier(Middle(p)[i], Middle(p)[j])
  {
    hide Reach, AllReturned;
    FirstsAre(p, Post, c);
  }

  /** A child is executed exactly when its turn comes, and the executed children follow the order of the
      phases, each once. */
  lemma ExecutedIffItsTurnComes<T>(p: Pattern<T>, c: Child)
    ensures c in Executed(p) <==> TurnComes(p, c)
    ensures forall i, j :: 0 <= i < j < |Executed(p)| ==> Earlier(Executed(p)[i], Executed(p)[j])
  {
    hide Reach, AllReturned, Middle, Executed;
    MiddleIs(p, c);
    FirstsAre(p, Pre, c);
    FirstsAre(p, Finally, c);
    var early, late := Firsts(Pre, Reach(p.pre)), Firsts(Finally, Reach(p.last));
    assert c in Executed(p) <==> c in early || c in Middle(p) || c in late;
    forall k | 0 <= k < |Middle(p)| ensures Middle(p)[k].phase.Main? || Middle(p)[k].phase.Post? {
      MiddleIs(p, Middle(p)[k]);
    }
  }

  /** A sequence that rejects names the phase of the last child that threw: an error of the last phase hides
      the earlier one. */
  lemma RejectsWithTheLastThrow<T>(p: Pattern<T>, i: nat)
    requires i < |Executed(p)| && !ReturnedAt(p, Executed(p)[i])
    requires forall j :: i < j < |Executed(p)| ==> ReturnedAt(p, Executed(p)[j])
    ensures EndOf(p) == Rejects(Executed(p)[i].phase)
  {
    hide Reach, AllReturned, ReturnedAt, Firsts;
    var c := Executed(p)[i];
    ResolvesIffAllExecutedDid(p);
    ThrownPhase(p, c);
    FirstsReturned(p, Finally);
    if c.phase != Finally {
      forall d | d in Firsts(Finally, Reach(p.last)) ensures ReturnedAt(p, d) {
        FirstsAre(p, Finally, d);
        ExecutedIffItsTurnComes(p, d);
        var j :| 0 <= j < |Executed(p)| && Executed(p)[j] == d;
        LastPhaseIsLater(p, i, j);
      }
    }
  }

  lemma LastPhaseIsLater<T>(p: Pattern<T>, i: nat, j: nat)
    requires i < |Executed(p)| && j < |Executed(p)|
    ensures Executed(p)[i].phase != Finally && Executed(p)[j].phase == Finally ==> i < j
  {
    ExecutedIffItsTurnComes(p, Executed(p)[i]);
  }

  /** A child that was executed and threw tells how far the phases before the last one got. */
  lemma ThrownPhase<T>(p: Pattern<T>, c: Child)
    requires c in Executed(p) && !ReturnedAt(p, c)
    ensures !AllReturned(p.Of(c.phase))
    ensures c.phase.Main? || c.phase.Post? ==> AllReturned(p.pre)
    ensures c.phase.Post? ==> p.main.Returned?
    ensures c.phase.Main? ==> p.main.Threw?
  {
    ExecutedIffItsTurnComes(p, c);
  }

  lemma MainReturned<T>(p: Pattern<T>)
    ensures ReturnedAt(p, Child(Main, 0)) <==> p.main.Returned?
  {
  }

  /** The sequence object; `meta` names the children whose metadata was kept. */
  class Sequence<T> {
    const pattern: Pattern<T>
    var meta: seq<Child>
    ghost var executed: seq<Child>

    constructor (pattern: Pattern<T>)
      ensures this.pattern == pattern && meta == executed == []
    {
      this.pattern, meta, executed := pattern, [], [];
    }

    method ExecutePhase(phase: Phase) returns (failed: bool)
      modifies this
      ensures failed <==> !AllReturned(pattern.Of(phase))
      ensures meta == old(meta) + Firsts(phase, Reach(pattern.Of(phase)))
      ensures executed == old(executed) + Firsts(phase, Reach(pattern.Of(phase)))
    {
      var tasks := pattern.Of(phase);
      failed := false;
      var i := 0;
      while i < |tasks| && !failed
        invariant i <= |tasks| && (forall k :: 0 <= k < i ==> tasks[k].Returned? || (failed && k == i - 1))
        invariant failed ==> i > 0 && tasks[i-1].Threw?
        invariant meta == old(meta) + Firsts(phase, i) && executed == old(executed) + Firsts(phase, i)
        decreases |tasks| - i
      {
        failed := tasks[i].Threw?;
        assert Firsts(phase, i + 1) == Firsts(phase, i) + [Child(phase, i)];
        executed := executed + [Child(phase, i)];
        meta := meta + [Child(phase, i)];
        i := i + 1;
      }
      if failed {
        ReachIs(tasks, i);
      } else {
        assert AllReturned(tasks);
      }
    }

    /** A main task that throws leaves no metadata; an error of the last phase hides any earlier one. */
    method Execute() returns (end: SequenceEnd<T>)
      modifies this
      ensures end == EndOf(pattern)
      ensures executed == old(executed) + Executed(pattern)
      ensures var main := AllReturned(pattern.pre) && pattern.main.Threw?;
              meta == old(meta) + if main then Firsts(Pre, Reach(pattern.pre)) + Firsts(Finally, Reach(pattern.last))
                                  else Executed(pattern)
    {
      hide Firsts, AllReturned, Reach;
      ghost var (pre, post) := (Firsts(Pre, Reach(pattern.pre)), Firsts(Post, Reach(pattern.post)));
      ghost var (main, last) := ([Child(Main, 0)], Firsts(Finally, Reach(pattern.last)));
      Rejoined(executed, pre, main, post, last);
      Rejoined(meta, pre, main, post, last);
      var failed := ExecutePhase(Pre);
      if failed {
        end := Rejects(Pre);
      } else {
        executed := executed + [Child(Main, 0)];
        if pattern.main.Threw? {
          end := Rejects(Main);
        } else {
          meta := meta + [Child(Main, 0)];
          failed := ExecutePhase(Post);
          end := if failed then Rejects(Post) else Resolves(pattern.main.value);
        }
      }
      failed := ExecutePhase(Finally);
      if failed { end := Rejects(Finally); }
    }
  }

  lemma Rejoined(s: seq<Child>, pre: seq<Child>, main: seq<Child>, post: seq<Child>, last: seq<Child>)
    ensures s + pre + main + post + last == s + (pre + (main + post) + last)
    ensures s + pre + main + last == s + (pre + (main + []) + last)
    ensures s + pre + last == s + (pre + [] + last) == s + (pre + last)
  {
  }

  // ---------------------------------------------------------------- groups

  function Failures<T>(tasks: seq<Ended<T>>): (n: nat)
    ensures n <= |tasks|
    ensures n == 0 <==> AllReturned(tasks)
    ensures n == |tasks| <==> AllThrew(tasks)
  {
    if tasks == [] then 0 else Failures(tasks[1..]) + if tasks[0].Threw? then 1 else 0
  }

  /** What a group promises for one run: all children must succeed, or, with `atLeastOne` and any
      children at all, one of them. */
  predicate ShouldThrow<T>(atLeastOne: bool, tasks: seq<Ended<T>>) {
    if atLeastOne then |tasks| > 0 && AllThrew(tasks) else !AllReturned(tasks)
  }

  /** What the code decides, with `earlier` failures left in the group's error by previous runs. */
  predicate Throws<T>(atLeastOne: bool, earlier: nat, tasks: seq<Ended<T>>) {
    var causes := earlier + Failures(tasks);
    if atLeastOne then causes > 0 && causes == |tasks| else causes > 0
  }

  /** Whatever its children do, a group's verdict is the promised one exactly when no child failed in an
      earlier run: results and errors are never reset. */
  lemma RightIffNoEarlierFailure<T>(atLeastOne: bool, earlier: nat, size: nat, sample: T)
    ensures (forall tasks: seq<Ended<T>> :: |tasks| == size ==>
               (Throws(atLeastOne, earlier, tasks) <==> ShouldThrow(atLeastOne, tasks)))
            <==> earlier == 0 || (atLeastOne && size == 0)
  {
    if earlier > 0 {
      var good := seq(size, i => Returned(sample));
      var bad := seq(size, i => Ended<T>.Threw);
      assert Failures(good) == 0 by { assert AllReturned(good); }
      assert Failures(bad) == size by { assert AllThrew(bad); }
      if atLeastOne && size > 0 {
        assert !Throws(atLeastOne, earlier, bad) && ShouldThrow(atLeastOne, bad);
      }
      if !atLeastOne {
        assert Throws(atLeastOne, earlier, good) && !ShouldThrow(atLeastOne, good);
      }
    }
  }

  class Group<T> {
    const atLeastOne: bool
    var results: seq<Option<T>>
    var error: Option<nat>   // the number of causes gathered

    function Causes(): nat reads this { if error.Some? then error.value else 0 }

    predicate Valid() reads this { error != Some(0) }

    constructor (atLeastOne: bool)
      ensures Valid() && results == [] && Causes() == 0 && this.atLeastOne == atLeastOne
    {
      this.atLeastOne, results, error := atLeastOne, [], None;
    }

    method UnitaryExecution(task: Ended<T>)
      requires Valid()
      modifies this
      ensures Valid() && results == old(results) + [if task.Returned? then Some(task.value) else None]
      ensures Causes() == old(Causes()) + if task.Threw? then 1 else 0
    {
      match task {
        case Returned(value) =>
          results := results + [Some(value)];
        case Threw =>
          error := if error.None? then Some(1) else Some(error.value + 1);
          results := results + [None];
      }
    }

    /** One result per child is added, none exactly for the children that failed. */
    method Execute(tasks: seq<Ended<T>>) returns (thrown: bool, value: seq<Option<T>>)
      requires Valid()
      modifies this
      ensures Valid()
      ensures results == value && |results| == |old(results)| + |tasks| && old(results) <= results
      ensures forall i :: 0 <= i < |tasks| ==>
                results[|old(results)| + i] == if tasks[i].Returned? then Some(tasks[i].value) else None
      ensures Causes() == old(Causes()) + Failures(tasks)
      ensures thrown <==> Throws(atLeastOne, old(Causes()), tasks)
    {
      for i := 0 to |tasks|
        invariant Valid()
        invariant |results| == |old(results)| + i && old(results) <= results
        invariant forall k :: 0 <= k < i ==>
                    results[|old(results)| + k] == if tasks[k].Returned? then Some(tasks[k].value) else None
        invariant Causes() == old(Causes()) + Failures(tasks[..i])
      {
        FailuresSnoc(tasks[..i], tasks[i]);
        assert tasks[..i+1] == tasks[..i] + [tasks[i]];
        UnitaryExecution(tasks[i]);
      }
      assert tasks[..|tasks|] == tasks;
      value := results;
      thrown := (!atLeastOne && error.Some?) || (atLeastOne && error.Some? && |tasks| == error.value);
    }
  }

  lemma {:induction false} FailuresSnoc<T>(tasks: seq<Ended<T>>, e: Ended<T>)
    ensures Failures(tasks + [e]) == Failures(tasks) + if e.Threw? then 1 else 0
  {
    if tasks == [] {
      assert [e][1..] == [];
    } else {
      FailuresSnoc(tasks[1..], e);
      assert (tasks + [e])[1..] == tasks[1..] + [e];
    }
  }
}
