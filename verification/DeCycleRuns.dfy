/** What the walk of `deCycle` leaves behind: every reachable object expanded once, every other edge a
    reference to its first visit. */
module DeCycleRuns {
  import opened Paths
  import opened CycleSpec

  /** Nothing recorded or created so far lies at or below `p`. */
  ghost predicate Untouched(w: Walk, p: Path) {
    && (forall id :: id in w.seen ==> !(p <= w.seen[id]))
    && (forall a :: a in w.out ==> !(p <= a))
  }

  ghost predicate Injective(m: map<nat, Path>) {
    forall x, y :: x in m && y in m && m[x] == m[y] ==> x == y
  }

  /** The walk only ever adds. */
  ghost predicate Extends(w: Walk, w': Walk) {
    && (forall id :: id in w.seen ==> id in w'.seen && w'.seen[id] == w.seen[id])
    && (forall a :: a in w.out ==> a in w'.out && w'.out[a] == w.out[a])
  }

  /** The member `v` became `v'` at `x`: a primitive as it is; a first visit in place; else a reference. */
  ghost predicate EntryOk(w: Walk, v: Value<nat>, v': Value<Path>, x: Path) {
    match v
    case P(p) => v' == P(p)
    case Ref(c) =>
      && v' == Ref(x) && c in w.seen
      && (w.seen[c] == x || (x in w.out && w.out[x] == RefNode(w.seen[c])))
  }

  ghost predicate Finished(g: Graph, w: Walk, id: nat) {
    && id in g && id in w.seen && w.seen[id] in w.out
    && var n, n' := g[id], w.out[w.seen[id]];
       && n'.isArray == n.isArray && n'.keys == n.keys && |n'.vals| == |n.vals| == |n.keys|
       && forall k :: 0 <= k < |n.vals| ==> EntryOk(w, n.vals[k], n'.vals[k], w.seen[id] + [n.keys[k]])
  }

  /** The k-th member of `pid` is a first visit to `id`. */
  ghost predicate TreeEdge(g: Graph, seen: map<nat, Path>, pid: nat, k: nat, id: nat) {
    && pid in seen && pid in g && id in seen
    && k < |g[pid].vals| && k < |g[pid].keys|
    && g[pid].vals[k] == Ref(id) && seen[id] == seen[pid] + [g[pid].keys[k]]
  }

  ghost predicate Parented(g: Graph, seen: map<nat, Path>, id: nat) {
    exists pid, k :: TreeEdge(g, seen, pid, k, id)
  }

  lemma Clash(path: Path, s: Step, t: Step, a: Path)
    requires path + [s] <= a && path + [t] <= a
    ensures s == t
  {
    assert (path + [s])[|path|] == a[|path|] == (path + [t])[|path|];
  }

  lemma StrictlyBelow(path: Path, s: Step, a: Path)
    requires path + [s] <= a
    ensures path <= a && |path| < |a|
  {
  }

  lemma EntryOkStays(w: Walk, w': Walk, v: Value<nat>, v': Value<Path>, x: Path)
    requires Extends(w, w') && EntryOk(w, v, v', x)
    ensures EntryOk(w', v, v', x)
  {
  }

  lemma FinishedStays(g: Graph, w: Walk, w': Walk, id: nat)
    requires Extends(w, w') && Finished(g, w, id)
    ensures Finished(g, w', id)
  {
  }

  lemma ParentedStays(g: Graph, w: Walk, w': Walk, id: nat)
    requires Extends(w, w') && Parented(g, w.seen, id)
    ensures Parented(g, w'.seen, id)
  {
    var pid: nat, k: nat :| TreeEdge(g, w.seen, pid, k, id);
    assert TreeEdge(g, w'.seen, pid, k, id);
  }

  /** What one call adds, told from its own point of view: below `p`, finished, and parented unless it
      is `top`, the value the call was made for. */
  ghost predicate Grown(g: Graph, w: Walk, w': Walk, p: Path, top: Value<nat>) {
    && Extends(w, w') && w'.seen.Keys <= g.Keys && Injective(w'.seen)
    && (forall a :: a in w'.out && a !in w.out ==> p <= a)
    && (forall id :: id in w'.seen && id !in w.seen ==>
          && p <= w'.seen[id] && Finished(g, w', id)
          && ((top == Ref(id) && w'.seen[id] == p) || Parented(g, w'.seen, id)))
  }

  /** The same for the members of a node from the i-th on, whose own node is still open. */
  ghost predicate GrownAll(g: Graph, n: Node<nat>, i: nat, p: Path, w: Walk, w': Walk) {
    && Extends(w, w') && w'.seen.Keys <= g.Keys && Injective(w'.seen)
    && (forall a :: a in w'.out && a !in w.out ==> Below(n, i, p, a))
    && (forall id :: id in w'.seen && id !in w.seen ==>
          && Below(n, i, p, w'.seen[id]) && Finished(g, w', id)
          && (MemberOf(n, p, w'.seen, id) || Parented(g, w'.seen, id)))
  }

  ghost predicate Below(n: Node<nat>, i: nat, p: Path, a: Path) {
    exists k :: BelowMember(n, i, p, a, k)
  }

  ghost predicate BelowMember(n: Node<nat>, i: nat, p: Path, a: Path, k: nat) {
    i <= k < |n.keys| && p + [n.keys[k]] <= a
  }

  ghost predicate MemberOf(n: Node<nat>, p: Path, seen: map<nat, Path>, id: nat) {
    exists k :: MemberAt(n, p, seen, id, k)
  }

  ghost predicate MemberAt(n: Node<nat>, p: Path, seen: map<nat, Path>, id: nat, k: nat) {
    && k < |n.vals| && k < |n.keys| && id in seen
    && n.vals[k] == Ref(id) && seen[id] == p + [n.keys[k]]
  }

  lemma {:induction false} UnrefGrows(g: Graph, v: Value<nat>, path: Path, w: Walk)
    requires GraphOk(g) && (v.Ref? ==> v.to in g)
    requires w.seen.Keys <= g.Keys && Injective(w.seen) && Untouched(w, path)
    ensures var (v', w') := Unref(g, v, path, w);
            Grown(g, w, w', path, v) && EntryOk(w', v, v', path)
    decreases g.Keys - w.seen.Keys, 0, 0
  {
    hide Finished, Parented, Untouched, UnrefAll, Grown, GrownAll, EntryOk, Injective, NodeOk;
    match v
    case P(p) => NothingGrows(g, w, path, v);
    case Ref(id) =>
      if id in w.seen {
        RevisitGrows(g, id, path, w);
      } else {
        var n, seen := g[id], w.seen[id := path];
        assert id in g.Keys - w.seen.Keys && id !in g.Keys - seen.Keys;
        var w1 := w.(seen := seen);
        OpenNode(g, id, path, w);
        UnrefAllGrows(g, n, 0, path, w1);
        var (vals, w2) := UnrefAll(g, n, 0, path, w1);
        CloseNode(g, id, path, w, vals, w2);
      }
  }

  lemma NothingGrows(g: Graph, w: Walk, path: Path, v: Value<nat>)
    requires w.seen.Keys <= g.Keys && Injective(w.seen)
    ensures Grown(g, w, w, path, v)
    ensures v.P? ==> EntryOk(w, v, P(v.prim), path)
  {
  }

  lemma RevisitGrows(g: Graph, id: nat, path: Path, w: Walk)
    requires w.seen.Keys <= g.Keys && Injective(w.seen) && Untouched(w, path) && id in w.seen
    ensures var w' := w.(out := w.out[path := RefNode(w.seen[id])]);
            Grown(g, w, w', path, Ref(id)) && EntryOk(w', Ref(id), Ref(path), path)
  {
  }

  lemma GrownExtends(g: Graph, w: Walk, w': Walk, p: Path, v: Value<nat>)
    requires Grown(g, w, w', p, v)
    ensures Extends(w, w') && w.seen.Keys <= w'.seen.Keys
  {
  }

  lemma GrownAllExtends(g: Graph, n: Node<nat>, i: nat, p: Path, w: Walk, w': Walk)
    requires GrownAll(g, n, i, p, w, w')
    ensures Extends(w, w')
  {
  }

  lemma NothingGrowsAll(g: Graph, n: Node<nat>, i: nat, path: Path, w: Walk)
    requires w.seen.Keys <= g.Keys && Injective(w.seen)
    ensures GrownAll(g, n, i, path, w, w)
  {
  }

  lemma OpenNode(g: Graph, id: nat, path: Path, w: Walk)
    requires id in g && id !in w.seen && w.seen.Keys <= g.Keys && Injective(w.seen) && Untouched(w, path)
    ensures Injective(w.seen[id := path]) && w.seen[id := path].Keys <= g.Keys
    ensures forall k :: 0 <= k < |g[id].keys| ==> Untouched(w.(seen := w.seen[id := path]), path + [g[id].keys[k]])
  {
  }

  lemma BelowIsBelow(n: Node<nat>, i: nat, p: Path, a: Path)
    requires Below(n, i, p, a)
    ensures p <= a && |p| < |a|
  {
  }

  /** The node itself, once its members are done. */
  lemma CloseNode(g: Graph, id: nat, path: Path, w: Walk, vals: seq<Value<Path>>, w2: Walk)
    requires GraphOk(g) && id in g && id !in w.seen && Untouched(w, path)
    requires GrownAll(g, g[id], 0, path, w.(seen := w.seen[id := path]), w2)
    requires |vals| == |g[id].vals|
    requires forall k :: 0 <= k < |vals| ==> EntryOk(w2, g[id].vals[k], vals[k], path + [g[id].keys[k]])
    ensures var w' := w2.(out := w2.out[path := Node(g[id].isArray, g[id].keys, vals)]);
            Grown(g, w, w', path, Ref(id)) && EntryOk(w', Ref(id), Ref(path), path)
  {
    hide Below, MemberOf, EntryOk, Parented, Injective, Finished, GraphOk;
    var n := g[id];
    var w' := w2.(out := w2.out[path := Node(n.isArray, n.keys, vals)]);
    OwnPlaceIsFree(g, id, path, w, w2);
    assert Extends(w2, w');
    OwnNodeIsFinished(g, id, path, vals, w2, w');
    forall x | x in w'.seen && x !in w.seen
      ensures path <= w'.seen[x] && Finished(g, w', x)
              && ((x == id && w'.seen[x] == path) || Parented(g, w'.seen, x))
    {
      if x != id {
        BelowIsBelow(n, 0, path, w2.seen[x]);
        FinishedStays(g, w2, w', x);
        MemberIsParented(g, id, path, w2.seen, x);
      }
    }
    forall a | a in w'.out && a !in w.out ensures path <= a {
      if a != path { BelowIsBelow(n, 0, path, a); }
    }
  }

  lemma OwnPlaceIsFree(g: Graph, id: nat, path: Path, w: Walk, w2: Walk)
    requires id in g && id !in w.seen && Untouched(w, path)
    requires GrownAll(g, g[id], 0, path, w.(seen := w.seen[id := path]), w2)
    ensures path !in w2.out && id in w2.seen && w2.seen[id] == path
  {
  }

  lemma OwnNodeIsFinished(g: Graph, id: nat, path: Path, vals: seq<Value<Path>>, w2: Walk, w': Walk)
    requires GraphOk(g) && id in g && id in w2.seen && w2.seen[id] == path && |vals| == |g[id].vals|
    requires forall k :: 0 <= k < |vals| ==> EntryOk(w2, g[id].vals[k], vals[k], path + [g[id].keys[k]])
    requires w' == w2.(out := w2.out[path := Node(g[id].isArray, g[id].keys, vals)]) && Extends(w2, w')
    ensures Finished(g, w', id) && EntryOk(w', Ref(id), Ref(path), path)
  {
  }

  lemma MemberIsParented(g: Graph, id: nat, path: Path, seen: map<nat, Path>, x: nat)
    requires id in g && id in seen && seen[id] == path
    ensures MemberOf(g[id], path, seen, x) ==> Parented(g, seen, x)
  {
    if MemberOf(g[id], path, seen, x) {
      var k: nat :| MemberAt(g[id], path, seen, x, k);
      assert TreeEdge(g, seen, id, k, x);
    }
  }

  lemma {:induction false} UnrefAllGrows(g: Graph, n: Node<nat>, i: nat, path: Path, w: Walk)
    requires GraphOk(g) && NodeOk(g, n) && i <= |n.vals|
    requires w.seen.Keys <= g.Keys && Injective(w.seen)
    requires forall k :: i <= k < |n.keys| ==> Untouched(w, path + [n.keys[k]])
    ensures var (vals, w') := UnrefAll(g, n, i, path, w);
            && GrownAll(g, n, i, path, w, w')
            && |vals| == |n.vals| - i
            && forall k :: i <= k < |n.vals| ==> EntryOk(w', n.vals[k], vals[k - i], path + [n.keys[k]])
    decreases g.Keys - w.seen.Keys, 1, |n.vals| - i
  {
    hide Finished, Parented, Untouched, Unref, EntryOk, Below, MemberOf, Grown, GrownAll;
    if i == |n.vals| {
      NothingGrowsAll(g, n, i, path, w);
    } else {
      var p := path + [n.keys[i]];
      UnrefGrows(g, n.vals[i], p, w);
      var (v, w1) := Unref(g, n.vals[i], p, w);
      GrownExtends(g, w, w1, p, n.vals[i]);
      SiblingsUntouched(g, n, i, path, w, w1);
      UnrefAllGrows(g, n, i + 1, path, w1);
      var (vs, w2) := UnrefAll(g, n, i + 1, path, w1);
      GrowthAddsUp(g, n, i, path, w, w1, w2);
      GrownAllExtends(g, n, i + 1, path, w1, w2);
      EntryOkStays(w1, w2, n.vals[i], v, p);
      forall k | i <= k < |n.vals| ensures EntryOk(w2, n.vals[k], ([v] + vs)[k - i], path + [n.keys[k]]) {
        if k > i { assert ([v] + vs)[k - i] == vs[k - (i + 1)]; }
      }
    }
  }

  lemma SiblingsUntouched(g: Graph, n: Node<nat>, i: nat, path: Path, w: Walk, w1: Walk)
    requires NodeOk(g, n) && i < |n.vals|
    requires forall k :: i <= k < |n.keys| ==> Untouched(w, path + [n.keys[k]])
    requires Grown(g, w, w1, path + [n.keys[i]], n.vals[i])
    ensures w1.seen.Keys <= g.Keys && Injective(w1.seen)
    ensures forall k :: i + 1 <= k < |n.keys| ==> Untouched(w1, path + [n.keys[k]])
  {
    hide Finished, Parented, Injective;
    forall k | i + 1 <= k < |n.keys| ensures Untouched(w1, path + [n.keys[k]]) {
      var q := path + [n.keys[k]];
      assert Untouched(w, q) && n.keys[i] != n.keys[k];
      forall id | id in w1.seen ensures !(q <= w1.seen[id]) {
        if q <= w1.seen[id] && id !in w.seen { Clash(path, n.keys[i], n.keys[k], w1.seen[id]); }
      }
      forall a | a in w1.out ensures !(q <= a) {
        if q <= a && a !in w.out { Clash(path, n.keys[i], n.keys[k], a); }
      }
    }
  }

  lemma GrowthAddsUp(g: Graph, n: Node<nat>, i: nat, path: Path, w: Walk, w1: Walk, w2: Walk)
    requires NodeOk(g, n) && i < |n.vals|
    requires Grown(g, w, w1, path + [n.keys[i]], n.vals[i])
    requires GrownAll(g, n, i + 1, path, w1, w2)
    ensures GrownAll(g, n, i, path, w, w2)
  {
    hide Finished, Parented, Injective, Below, MemberOf;
    forall a | a in w2.out && a !in w.out ensures Below(n, i, path, a) {
      if a in w1.out { ThisMember(n, i, path, a); } else { LaterMember(n, i, path, a); }
    }
    forall id | id in w2.seen && id !in w.seen
      ensures Below(n, i, path, w2.seen[id]) && Finished(g, w2, id)
              && (MemberOf(n, path, w2.seen, id) || Parented(g, w2.seen, id))
    {
      if id in w1.seen {
        ThisMember(n, i, path, w2.seen[id]);
        FinishedStays(g, w1, w2, id);
        if n.vals[i] == Ref(id) && w1.seen[id] == path + [n.keys[i]] {
          assert MemberAt(n, path, w2.seen, id, i);
          IsMember(n, path, w2.seen, id, i);
        } else {
          ParentedStays(g, w1, w2, id);
        }
      } else {
        LaterMember(n, i, path, w2.seen[id]);
      }
    }
  }

  lemma IsMember(n: Node<nat>, p: Path, seen: map<nat, Path>, id: nat, k: nat)
    requires MemberAt(n, p, seen, id, k)
    ensures MemberOf(n, p, seen, id)
  {
  }

  lemma ThisMember(n: Node<nat>, i: nat, path: Path, a: Path)
    requires i < |n.keys| && path + [n.keys[i]] <= a
    ensures Below(n, i, path, a)
  {
    assert BelowMember(n, i, path, a, i);
  }

  lemma LaterMember(n: Node<nat>, i: nat, path: Path, a: Path)
    requires Below(n, i + 1, path, a)
    ensures Below(n, i, path, a)
  {
    var k: nat :| BelowMember(n, i + 1, path, a, k);
    assert BelowMember(n, i, path, a, k);
  }

  // ---------------------------------------------------------------- the finished walk

  /** All that the round trip needs to know about the output of `deCycle`. */
  ghost predicate Decycled(g: Graph, root: nat, w: Walk) {
    && GraphOk(g) && root in g && w.seen.Keys <= g.Keys
    && root in w.seen && w.seen[root] == []
    && Injective(w.seen)
    && (forall id :: id in w.seen ==> Finished(g, w, id))
    && (forall id :: id in w.seen && id != root ==> Parented(g, w.seen, id))
  }

  function FullWalk(g: Graph, root: nat): Walk { Walk(FirstVisits(g, root), DeCycle(g, root)) }

  lemma DeCycleIsDecycled(g: Graph, root: nat)
    requires GraphOk(g) && root in g
    ensures Decycled(g, root, FullWalk(g, root))
  {
    var w := Walk(map[], map[]);
    UnrefGrows(g, Ref(root), [], w);
    var w' := Unref(g, Ref(root), [], w).1;
    assert FullWalk(g, root) == w';
    assert w'.seen[root] == [] by { RootIsAtTop(g, root); }
  }

  lemma RootIsAtTop(g: Graph, root: nat)
    requires GraphOk(g) && root in g
    ensures root in FirstVisits(g, root) && FirstVisits(g, root)[root] == []
  {
    var w := Walk(map[], map[]);
    var n, w1 := g[root], w.(seen := w.seen[root := []]);
    OpenNode(g, root, [], w);
    UnrefAllGrows(g, n, 0, [], w1);
  }

  lemma DecycledParts(g: Graph, root: nat, w: Walk)
    requires Decycled(g, root, w)
    ensures GraphOk(g) && root in w.seen && w.seen[root] == [] && w.seen.Keys <= g.Keys
  {
  }

  lemma ParentOf(g: Graph, root: nat, w: Walk, id: nat) returns (pid: nat, k: nat)
    requires Decycled(g, root, w) && id in w.seen && id != root
    ensures TreeEdge(g, w.seen, pid, k, id) && w.seen[pid] == w.seen[id][..|w.seen[id]| - 1]
  {
    assert Parented(g, w.seen, id);
    pid, k :| TreeEdge(g, w.seen, pid, k, id);
  }

  ghost predicate Edge(g: Graph, a: nat, b: nat) {
    a in g && exists k :: 0 <= k < |g[a].vals| && g[a].vals[k] == Ref(b)
  }

  ghost predicate Route(g: Graph, p: seq<nat>) {
    p != [] && forall i :: 0 <= i < |p| - 1 ==> Edge(g, p[i], p[i+1])
  }

  ghost predicate Reachable(g: Graph, root: nat, id: nat) {
    exists p :: Route(g, p) && p[0] == root && p[|p|-1] == id
  }

  lemma EdgesStaySeen(g: Graph, root: nat, w: Walk, a: nat, b: nat)
    requires Decycled(g, root, w) && a in w.seen && Edge(g, a, b)
    ensures b in w.seen
  {
    var k :| 0 <= k < |g[a].vals| && g[a].vals[k] == Ref(b);
    assert Finished(g, w, a);
    assert EntryOk(w, g[a].vals[k], w.out[w.seen[a]].vals[k], w.seen[a] + [g[a].keys[k]]);
  }

  lemma {:induction false} RoutesAreSeen(g: Graph, root: nat, w: Walk, p: seq<nat>)
    requires Decycled(g, root, w) && Route(g, p) && p[0] == root
    ensures p[|p|-1] in w.seen
  {
    hide Decycled, Edge;
    DecycledParts(g, root, w);
    if |p| > 1 {
      var q := p[..|p|-1];
      assert forall i :: 0 <= i < |q| - 1 ==> Edge(g, q[i], q[i+1]) by {
        assert forall i :: 0 <= i < |q| ==> q[i] == p[i];
      }
      RoutesAreSeen(g, root, w, q);
      assert Edge(g, p[|p|-2], p[|p|-1]);
      EdgesStaySeen(g, root, w, q[|q|-1], p[|p|-1]);
    }
  }

  lemma RouteGrows(g: Graph, q: seq<nat>, id: nat)
    requires Route(g, q) && Edge(g, q[|q|-1], id)
    ensures Route(g, q + [id])
  {
  }

  lemma {:induction false} SeenHaveRoutes(g: Graph, root: nat, w: Walk, id: nat) returns (p: seq<nat>)
    requires Decycled(g, root, w) && id in w.seen
    ensures Route(g, p) && p[0] == root && p[|p|-1] == id
    decreases |w.seen[id]|
  {
    hide Decycled;
    if id == root {
      p := [root];
    } else {
      var pid, k := ParentOf(g, root, w, id);
      var q := SeenHaveRoutes(g, root, w, pid);
      assert Edge(g, pid, id);
      p := q + [id];
      RouteGrows(g, q, id);
    }
  }

  /** `deCycle` expands each object it visits exactly once: the object has one place of its own, where its
      members are all there, primitives unchanged, every other member either the one first visit to its
      object or a reference object naming that visit. */
  lemma ExpandsEachVisitedObjectOnce(g: Graph, root: nat)
    requires GraphOk(g) && root in g
    ensures forall id :: id in FirstVisits(g, root) ==> Finished(g, FullWalk(g, root), id)
    ensures Injective(FirstVisits(g, root))
  {
    DeCycleIsDecycled(g, root);
  }

  /** And it visits exactly what is reachable. */
  lemma VisitsExactlyTheReachable(g: Graph, root: nat)
    requires GraphOk(g) && root in g
    ensures forall id :: id in FirstVisits(g, root) <==> Reachable(g, root, id)
  {
    DeCycleIsDecycled(g, root);
    var w := FullWalk(g, root);
    forall id ensures id in w.seen <==> Reachable(g, root, id) {
      if id in w.seen {
        var p := SeenHaveRoutes(g, root, w, id);
      }
      if Reachable(g, root, id) {
        var p :| Route(g, p) && p[0] == root && p[|p|-1] == id;
        RoutesAreSeen(g, root, w, p);
      }
    }
  }

  lemma SnocEqual(p: Path, s: Step, q: Path, t: Step)
    requires p + [s] == q + [t]
    ensures p == q && s == t
  {
    assert p == (p + [s])[..|p|] == (q + [t])[..|q|] == q;
    assert (p + [s])[|p|] == (q + [t])[|q|];
  }

  lemma SamePlace(g: Graph, root: nat, w: Walk, a: nat, b: nat)
    requires Decycled(g, root, w) && a in w.seen && b in w.seen && w.seen[a] == w.seen[b]
    ensures a == b
  {
  }

  lemma SameKey(g: Graph, id: nat, j: nat, k: nat)
    requires GraphOk(g) && id in g && j < |g[id].keys| && k < |g[id].keys| && g[id].keys[j] == g[id].keys[k]
    ensures j == k
  {
  }

  /** An address below a node is the first visit of at most the object its own edge leads to. */
  lemma FirstVisitIsByOwnEdge(g: Graph, root: nat, w: Walk, id: nat, k: nat, d: nat)
    requires Decycled(g, root, w) && id in w.seen && id in g && k < |g[id].vals| && k < |g[id].keys| && d in w.seen
    requires w.seen[d] == w.seen[id] + [g[id].keys[k]]
    ensures g[id].vals[k] == Ref(d)
  {
    hide Decycled, GraphOk;
    DecycledParts(g, root, w);
    var pid, j := ParentOf(g, root, w, d);
    SnocEqual(w.seen[pid], g[pid].keys[j], w.seen[id], g[id].keys[k]);
    SamePlace(g, root, w, pid, id);
    SameKey(g, id, j, k);
  }
}
