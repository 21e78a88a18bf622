/** The dependency graph of a factory and its plain, unmemoised meaning
    (packages/api/faker/src/Factory.ts).

    Builders are pure, the likelihood is 100, and no name is both an option and an attribute. */
module FactorySpec {
  import opened Wrappers

  datatype Value = Undefined | Defined(code: int)

  /** A generator and the names whose values it is called with; without dependencies it is called with nothing. */
  datatype Entry = Entry(dependencies: Option<seq<string>>, builder: seq<Value> -> Value)

  datatype Catalog = Catalog(attrs: map<string, Entry>, opts: map<string, Entry>)
  {
    ghost predicate Valid() { attrs.Keys !! opts.Keys }

    function Names(): set<string> { attrs.Keys + opts.Keys }
  }

  /** Options are looked up before attributes. A name that is neither has no entry, and is undefined. */
  function Find(c: Catalog, name: string): Option<Entry> {
    if name in c.opts then Some(c.opts[name]) else if name in c.attrs then Some(c.attrs[name]) else None
  }

  function Deps(c: Catalog, name: string): seq<string> {
    match Find(c, name)
    case None => []
    case Some(e) => if e.dependencies.Some? then e.dependencies.value else []
  }

  // ---------------------------------------------------------------- plain evaluation

  /** The dependencies below `name` are at most `n - 1` deep. */
  ghost predicate Settles(c: Catalog, name: string, n: nat)
    decreases n
  {
    n > 0 && forall d :: d in Deps(c, name) ==> Settles(c, d, n - 1)
  }

  ghost predicate Acyclic(c: Catalog, name: string) { exists n: nat :: Settles(c, name, n) }

  /** Recursive evaluation: every dependency is evaluated anew. */
  ghost function Eval(c: Catalog, name: string, n: nat): Value
    requires Settles(c, name, n)
    decreases n, 1, 0
  {
    match Find(c, name)
    case None => Undefined
    case Some(e) => e.builder(EvalAll(c, Deps(c, name), n - 1))
  }

  ghost function EvalAll(c: Catalog, ds: seq<string>, n: nat): (vs: seq<Value>)
    requires forall d :: d in ds ==> Settles(c, d, n)
    ensures |vs| == |ds|
    decreases n, 2, |ds|
  {
    if ds == [] then [] else [Eval(c, ds[0], n)] + EvalAll(c, ds[1..], n)
  }

  lemma {:induction false} EvalIsOne(c: Catalog, name: string, n: nat, m: nat)
    requires Settles(c, name, n) && Settles(c, name, m)
    ensures Eval(c, name, n) == Eval(c, name, m)
    decreases n, 1, 0
  {
    EvalAllIsOne(c, Deps(c, name), n - 1, m - 1);
  }

  lemma {:induction false} EvalAllIsOne(c: Catalog, ds: seq<string>, n: nat, m: nat)
    requires forall d :: d in ds ==> Settles(c, d, n) && Settles(c, d, m)
    ensures EvalAll(c, ds, n) == EvalAll(c, ds, m)
    decreases n, 2, |ds|
  {
    if ds != [] {
      EvalIsOne(c, ds[0], n, m);
      EvalAllIsOne(c, ds[1..], n, m);
    }
  }

  /** The value of a name in a graph without a cycle below it. */
  ghost function Plain(c: Catalog, name: string): Value
    requires Acyclic(c, name)
  {
    var n: nat :| Settles(c, name, n);
    Eval(c, name, n)
  }

  lemma PlainIsEval(c: Catalog, name: string, n: nat)
    requires Settles(c, name, n)
    ensures Acyclic(c, name) && Plain(c, name) == Eval(c, name, n)
  {
    forall m: nat | Settles(c, name, m) ensures Eval(c, name, m) == Eval(c, name, n) { EvalIsOne(c, name, m, n); }
  }

  lemma {:induction false} SettlesMore(c: Catalog, name: string, n: nat, m: nat)
    requires Settles(c, name, n) && n <= m
    ensures Settles(c, name, m)
    decreases n
  {
    forall d | d in Deps(c, name) ensures Settles(c, d, m - 1) { SettlesMore(c, d, n - 1, m - 1); }
  }

  /** One depth for all of them. */
  lemma {:induction false} SettleTogether(c: Catalog, ds: seq<string>) returns (n: nat)
    requires forall d :: d in ds ==> Acyclic(c, d)
    ensures forall d :: d in ds ==> Settles(c, d, n)
  {
    if ds == [] {
      n := 0;
    } else {
      var m := SettleTogether(c, ds[1..]);
      assert ds[0] in ds && Acyclic(c, ds[0]);
      var k: nat :| Settles(c, ds[0], k);
      n := if m < k then k else m;
      forall d | d in ds ensures Settles(c, d, n) {
        if d == ds[0] { SettlesMore(c, d, k, n); } else { SettlesMore(c, d, m, n); }
      }
    }
  }

  /** What is below an acyclic name is acyclic, and conversely. */
  lemma AcyclicIffDeps(c: Catalog, name: string)
    ensures Acyclic(c, name) <==> forall d :: d in Deps(c, name) ==> Acyclic(c, d)
  {
    if Acyclic(c, name) {
      var n: nat :| Settles(c, name, n);
      forall d | d in Deps(c, name) ensures Acyclic(c, d) { assert Settles(c, d, n - 1); }
    }
    if forall d :: d in Deps(c, name) ==> Acyclic(c, d) {
      var n := SettleTogether(c, Deps(c, name));
      assert Settles(c, name, n + 1);
    }
  }

  /** Plain evaluation of an option or an attribute is its builder applied to the plain values of its
      dependencies, to nothing if it has none. */
  lemma PlainUnfolds(c: Catalog, name: string, e: Entry, ds: seq<string>, args: seq<Value>)
    requires c.Valid() && (if name in c.attrs then e == c.attrs[name] else name in c.opts && e == c.opts[name])
    requires e.dependencies == Some(ds) || (e.dependencies == None && ds == [])
    requires |args| == |ds| && forall i :: 0 <= i < |args| ==> Acyclic(c, ds[i]) && args[i] == Plain(c, ds[i])
    ensures Acyclic(c, name) && Plain(c, name) == e.builder(args)
  {
    assert Find(c, name) == Some(e);
    assert Deps(c, name) == ds;
    assert forall i :: 0 <= i < |args| ==> Acyclic(c, ds[i]);
    PlainIsBuilt(c, name, args);
  }

  /** A name that is neither an option nor an attribute is undefined. */
  lemma UnknownIsUndefined(c: Catalog, name: string)
    requires name !in c.Names()
    ensures Acyclic(c, name) && Plain(c, name) == Undefined
  {
    assert Settles(c, name, 1);
    PlainIsEval(c, name, 1);
  }

  lemma PlainIsBuilt(c: Catalog, name: string, args: seq<Value>)
    requires Find(c, name).Some? && |args| == |Deps(c, name)|
    requires forall d :: d in Deps(c, name) ==> Acyclic(c, d)
    requires forall i :: 0 <= i < |args| ==> args[i] == Plain(c, Deps(c, name)[i])
    ensures Acyclic(c, name) && Plain(c, name) == Find(c, name).value.builder(args)
  {
    AcyclicIffDeps(c, name);
    var n: nat :| Settles(c, name, n);
    PlainIsEval(c, name, n);
    ArgsArePlain(c, Deps(c, name), n - 1, args);
  }

  lemma {:induction false} ArgsArePlain(c: Catalog, ds: seq<string>, n: nat, args: seq<Value>)
    requires forall d :: d in ds ==> Settles(c, d, n)
    requires |args| == |ds| && forall i :: 0 <= i < |args| ==> Acyclic(c, ds[i]) && args[i] == Plain(c, ds[i])
    ensures EvalAll(c, ds, n) == args
  {
    if ds != [] {
      PlainIsEval(c, ds[0], n);
      ArgsArePlain(c, ds[1..], n, args[1..]);
    }
  }

  // ---------------------------------------------------------------- cycles

  ghost predicate Walk(c: Catalog, p: seq<string>) {
    forall i :: 0 <= i < |p| - 1 ==> p[i+1] in Deps(c, p[i])
  }

  ghost predicate Repeats(p: seq<string>) { exists i, j :: 0 <= i < j < |p| && p[i] == p[j] }

  /** A cycle can be reached from `name` along dependencies. */
  ghost predicate CycleFrom(c: Catalog, name: string) {
    exists p :: CyclicWalk(c, name, p)
  }

  ghost predicate CyclicWalk(c: Catalog, name: string, p: seq<string>) {
    p != [] && p[0] == name && Walk(c, p) && Repeats(p)
  }

  /** From a cyclic walk one step on there is again a cyclic walk. */
  lemma NextOnWalk(c: Catalog, name: string, p: seq<string>) returns (q: seq<string>)
    requires CyclicWalk(c, name, p)
    ensures q != [] && q[0] in Deps(c, name) && CyclicWalk(c, q[0], q)
  {
    var i, j :| 0 <= i < j < |p| && p[i] == p[j];
    assert p[1] in Deps(c, p[0]);
    if i > 0 {
      q := p[1..];
      assert q[i-1] == q[j-1];
      forall k | 0 <= k < |q| - 1 ensures q[k+1] in Deps(c, q[k]) { assert p[k+1+1] in Deps(c, p[k+1]); }
    } else {
      q := p[1..j+1] + [p[1]];
      assert q[0] == q[j];
      forall k | 0 <= k < |q| - 1 ensures q[k+1] in Deps(c, q[k]) {
        if k < j - 1 { assert p[k+1+1] in Deps(c, p[k+1]); }
      }
    }
  }

  lemma {:induction false} SettledHasNoCycle(c: Catalog, name: string, n: nat, p: seq<string>)
    requires Settles(c, name, n)
    ensures !CyclicWalk(c, name, p)
    decreases n
  {
    if CyclicWalk(c, name, p) {
      var q := NextOnWalk(c, name, p);
      SettledHasNoCycle(c, q[0], n - 1, q);
    }
  }

  /** No value without a cycle-free graph below. */
  lemma AcyclicHasNoCycle(c: Catalog, name: string)
    requires Acyclic(c, name)
    ensures !CycleFrom(c, name)
  {
    var n: nat :| Settles(c, name, n);
    forall p ensures !CyclicWalk(c, name, p) { SettledHasNoCycle(c, name, n, p); }
  }

  function OnStack(stack: seq<string>): set<string> { set x | x in stack }

  lemma WalkGrows(c: Catalog, p: seq<string>, d: string)
    requires p != [] && Walk(c, p) && d in Deps(c, p[|p|-1])
    ensures Walk(c, p + [d])
    ensures d in p ==> Repeats(p + [d])
  {
    var q := p + [d];
    forall i | 0 <= i < |q| - 1 ensures q[i+1] in Deps(c, q[i]) {
      if i < |p| - 1 { assert p[i+1] in Deps(c, p[i]); }
    }
    if d in p {
      var i :| 0 <= i < |p| && p[i] == d;
      assert q[i] == q[|p|];
    }
  }

  /** Depth-first search along a walk: either everything below settles or the walk closes. */
  lemma {:induction false} Decide(c: Catalog, p: seq<string>) returns (q: seq<string>)
    requires p != [] && Walk(c, p)
    ensures Acyclic(c, p[|p|-1]) || CyclicWalk(c, p[0], q)
    decreases c.Names() - OnStack(p), 1, 0
  {
    q := DecideAll(c, p, Deps(c, p[|p|-1]));
    AcyclicIffDeps(c, p[|p|-1]);
  }

  lemma {:induction false} DecideAll(c: Catalog, p: seq<string>, ds: seq<string>) returns (q: seq<string>)
    requires p != [] && Walk(c, p) && forall d :: d in ds ==> d in Deps(c, p[|p|-1])
    ensures (forall d :: d in ds ==> Acyclic(c, d)) || CyclicWalk(c, p[0], q)
    decreases c.Names() - OnStack(p), 0, |ds|
  {
    q := [];
    if ds != [] {
      var d := ds[0];
      assert d in ds && forall x :: x in ds[1..] ==> x in ds;
      WalkGrows(c, p, d);
      if d in p {
        q := p + [d];
        return;
      }
      if Find(c, d).None? {
        AcyclicIffDeps(c, d);
      } else {
        assert d in c.Names() - OnStack(p) && d !in c.Names() - OnStack(p + [d]);
        q := Decide(c, p + [d]);
        if CyclicWalk(c, p[0], q) { return; }
      }
      q := DecideAll(c, p, ds[1..]);
    }
  }

  /** A name has a plain value exactly when no cycle can be reached from it. */
  lemma AcyclicIffNoCycle(c: Catalog, name: string)
    ensures Acyclic(c, name) <==> !CycleFrom(c, name)
  {
    if Acyclic(c, name) {
      AcyclicHasNoCycle(c, name);
    } else {
      var q := Decide(c, [name]);
      assert CyclicWalk(c, name, q);
    }
  }

  // ---------------------------------------------------------------- what a build touches

  /** `name` is found along dependencies from `from`. */
  ghost predicate Uses(c: Catalog, from: string, name: string) {
    exists p :: WalkTo(c, from, name, p)
  }

  ghost predicate WalkTo(c: Catalog, from: string, name: string, p: seq<string>) {
    p != [] && p[0] == from && p[|p|-1] == name && Walk(c, p)
  }

  /** Some attribute uses some option. */
  ghost predicate OptionUsed(c: Catalog) {
    exists a, o :: a in c.attrs && o in c.opts && Uses(c, a, o)
  }

  /** Resolved names whose resolvable dependencies are all resolved. */
  ghost predicate Closed(c: Catalog, attrs: set<string>, opts: set<string>) {
    forall n, d :: (n in attrs || n in opts) && d in Deps(c, n) ==> Resolved(c, attrs, opts, d)
  }

  ghost predicate Resolved(c: Catalog, attrs: set<string>, opts: set<string>, d: string) {
    (d in c.opts ==> d in opts) && (d in c.attrs ==> d in attrs)
  }

  lemma ClosedGrows(c: Catalog, attrs: set<string>, opts: set<string>, n: string)
    requires Closed(c, attrs, opts) && forall d :: d in Deps(c, n) ==> Resolved(c, attrs, opts, d)
    ensures Closed(c, attrs + {n}, opts) && Closed(c, attrs, opts + {n})
  {
    forall m, d | (m in attrs + {n} || m in opts + {n}) && d in Deps(c, m)
      ensures Resolved(c, attrs + {n}, opts, d) && Resolved(c, attrs, opts + {n}, d)
    {
      if m != n { assert m in attrs || m in opts; }
      assert Resolved(c, attrs, opts, d);
    }
  }

  /** A closed set that has a name has everything the name uses. */
  lemma {:induction false} ClosedHasUsed(c: Catalog, attrs: set<string>, opts: set<string>, p: seq<string>)
    requires Closed(c, attrs, opts) && p != [] && Walk(c, p) && Resolved(c, attrs, opts, p[0])
    ensures Resolved(c, attrs, opts, p[|p|-1])
  {
    if |p| > 1 {
      var q := p[..|p|-1];
      assert forall i :: 0 <= i < |q| ==> q[i] == p[i];
      ClosedHasUsed(c, attrs, opts, q);
      assert p[|p|-2+1] in Deps(c, p[|p|-2]);
      assert Find(c, q[|q|-1]).Some?;
    }
  }
}
