/** `retroCycle` after `deCycle` gives the graph back, and exactly when. */
module RoundTrip {
  import opened Wrappers
  import opened Paths
  import opened CycleSpec
  import opened DeCycleRuns

  /** The member as `deCycle` left it. */
  function OrigAt(g: Graph, w: Walk, id: nat, k: nat): Value<Path>
    requires id in g && id in w.seen && k < |g[id].vals| && k < |g[id].keys|
  {
    match g[id].vals[k]
    case P(p) => P(p)
    case Ref(c) => Ref(w.seen[id] + [g[id].keys[k]])
  }

  /** The member as it should be: the one copy of its object, if its path can be written readably. */
  function FixAt(g: Graph, w: Walk, id: nat, k: nat): Value<Path>
    requires id in g && id in w.seen && k < |g[id].vals| && k < |g[id].keys|
  {
    match g[id].vals[k]
    case P(p) => P(p)
    case Ref(c) =>
      if c in w.seen && AllNames(w.seen[c]) then Ref(w.seen[c]) else Ref(w.seen[id] + [g[id].keys[k]])
  }

  /** A slot: a member of a visited object. */
  ghost predicate Slot(g: Graph, w: Walk, id: nat, k: nat) {
    id in w.seen && id in g && k < |g[id].vals| && k < |g[id].keys|
  }

  /** A heap between the output of `deCycle` and the repaired graph: each slot is in one of its two states. */
  ghost predicate Mixed(g: Graph, w: Walk, h: Heap) {
    && h.Keys == w.out.Keys
    && (forall id :: id in w.seen && id in g ==>
          && w.seen[id] in h
          && h[w.seen[id]].isArray == g[id].isArray && h[w.seen[id]].keys == g[id].keys
          && |h[w.seen[id]].vals| == |g[id].vals|)
    && (forall id, k: nat :: Slot(g, w, id, k) ==>
          h[w.seen[id]].vals[k] == OrigAt(g, w, id, k) || h[w.seen[id]].vals[k] == FixAt(g, w, id, k))
    && (forall a :: a in w.out && a !in w.seen.Values ==> h[a] == w.out[a])
  }

  /** What reading `$ref` on an object of the graph gives. */
  ghost predicate HasMatchingRef(n: Node<nat>) {
    exists k :: 0 <= k < |n.keys| && k < |n.vals| && Text(n.keys[k]) == "$ref"
                && n.vals[k].P? && n.vals[k].prim.Str? && Parse(n.vals[k].prim.text) != NoMatch
  }

  /** No reachable object but the root carries a `$ref` text of its own that `retroCycle` would take for a reference. */
  ghost predicate NoOwnRefs(g: Graph, root: nat) {
    forall id :: id in g && id != root && Reachable(g, root, id) ==> !HasMatchingRef(g[id])
  }

  // ---------------------------------------------------------------- reading properties

  lemma {:induction false} LookupFromAt(n: Node<Path>, text: string, i: nat, k: nat)
    requires |n.keys| == |n.vals| && i <= k < |n.keys| && Text(n.keys[k]) == text
    requires forall j :: i <= j < k ==> Text(n.keys[j]) != text
    ensures LookupFrom(n, text, i) == n.vals[k]
    decreases k - i
  {
    if i < k { LookupFromAt(n, text, i + 1, k); }
  }

  lemma {:induction false} LookupMissing(n: Node<Path>, text: string, i: nat)
    requires |n.keys| == |n.vals| && forall j :: i <= j < |n.keys| ==> Text(n.keys[j]) != text
    ensures LookupFrom(n, text, i) == P(Undefined)
    decreases |n.keys| - i
  {
    if i < |n.keys| { LookupMissing(n, text, i + 1); }
  }

  /** In a mixed heap a property of a visited object's copy is the slot of that name. */
  lemma LookupSlot(g: Graph, w: Walk, h: Heap, id: nat, k: nat)
    requires GraphOk(g) && Mixed(g, w, h) && Slot(g, w, id, k)
    ensures Lookup(h[w.seen[id]], Text(g[id].keys[k])) == h[w.seen[id]].vals[k]
  {
    assert NodeOk(g, g[id]);
    LookupFromAt(h[w.seen[id]], Text(g[id].keys[k]), 0, k);
  }

  lemma CopyKeys(g: Graph, w: Walk, h: Heap, id: nat)
    requires Mixed(g, w, h) && id in w.seen && id in g
    ensures w.seen[id] in h && h[w.seen[id]].keys == g[id].keys && |h[w.seen[id]].vals| == |g[id].vals|
  {
  }

  lemma SlotValue(g: Graph, w: Walk, h: Heap, id: nat, k: nat)
    requires Mixed(g, w, h) && Slot(g, w, id, k)
    ensures w.seen[id] in h && k < |h[w.seen[id]].vals|
    ensures h[w.seen[id]].vals[k] == OrigAt(g, w, id, k) || h[w.seen[id]].vals[k] == FixAt(g, w, id, k)
  {
  }

  lemma NoRefHere(g: Graph, root: nat, w: Walk, id: nat)
    requires Decycled(g, root, w) && NoOwnRefs(g, root) && id in w.seen && id != root
    ensures id in g && NodeOk(g, g[id]) && !HasMatchingRef(g[id])
  {
    var route := SeenHaveRoutes(g, root, w, id);
    assert Reachable(g, root, id);
  }

  /** No copy of a non-root object looks like a reference. */
  lemma CopiesAreNoRefs(g: Graph, root: nat, w: Walk, h: Heap, id: nat)
    requires Decycled(g, root, w) && NoOwnRefs(g, root) && Mixed(g, w, h) && id in w.seen && id != root
    ensures w.seen[id] in h && RefOf(h[w.seen[id]]) == NoMatch
  {
    hide Decycled, GraphOk, NoOwnRefs, Mixed;
    DecycledParts(g, root, w);
    NoRefHere(g, root, w, id);
    KeysAreKept(g, w, h, id);
    CopyKeys(g, w, h, id);
    var n := h[w.seen[id]];
    if k: nat :| k < |n.keys| && Text(n.keys[k]) == "$ref" {
      assert Slot(g, w, id, k);
      LookupSlot(g, w, h, id, k);
      SlotValue(g, w, h, id, k);
    } else {
      LookupMissing(n, "$ref", 0);
    }
  }

  /** What stands for an object met again is a plain object with the one property `$ref`, and the reader takes
      it for a reference to that very place exactly when the path has no array step. */
  lemma RefNodesAreRefs(path: Path)
    ensures !RefNode(path).isArray && RefNode(path).keys == [Name("$ref")]
    ensures RefOf(RefNode(path)) == if AllNames(path) then Keys(Texts(path)) else NoMatch
  {
    ParseRender(path);
    LookupFromAt(RefNode(path), "$ref", 0, 0);
  }

  // ---------------------------------------------------------------- evaluating a written path

  lemma {:induction false} EvalSnoc(h: Heap, v: Value<Path>, ts: seq<string>, t: string)
    ensures Eval(h, v, ts + [t]) == match Eval(h, v, ts) case None => None case Some(u) => Eval(h, u, [t])
    decreases |ts|
  {
    if ts == [] {
      assert ts + [t] == [t];
    } else {
      assert (ts + [t])[0] == ts[0] && (ts + [t])[1..] == ts[1..] + [t];
      match v
      case P(p) => if !(p.Undefined? || p.Null?) { EvalSnoc(h, P(Undefined), ts[1..], t); }
      case Ref(a) => if a in h { EvalSnoc(h, Lookup(h[a], ts[0]), ts[1..], t); }
    }
  }

  lemma {:induction false} TextsSnoc(p: Path, s: Step)
    ensures Texts(p + [s]) == Texts(p) + [Text(s)]
  {
    if p == [] {
      assert p + [s] == [s] && [s][1..] == [];
    } else {
      TextsSnoc(p[1..], s);
      assert (p + [s])[1..] == p[1..] + [s];
    }
  }

  lemma TreeEdgeValue(g: Graph, w: Walk, h: Heap, pid: nat, k: nat, id: nat)
    requires Mixed(g, w, h) && TreeEdge(g, w.seen, pid, k, id)
    ensures Slot(g, w, pid, k) && w.seen[pid] in h
    ensures k < |h[w.seen[pid]].vals| && h[w.seen[pid]].vals[k] == Ref(w.seen[id])
  {
  }

  /** A first visit's path leads to its object in every mixed heap: it only follows tree edges, and those
      look the same in both states. */
  lemma {:induction false} EvalFirstVisit(g: Graph, root: nat, w: Walk, h: Heap, id: nat)
    requires Decycled(g, root, w) && Mixed(g, w, h) && id in w.seen
    ensures Eval(h, Ref([]), Texts(w.seen[id])) == Some(Ref(w.seen[id]))
    decreases |w.seen[id]|
  {
    hide Decycled, GraphOk, Mixed, Lookup, Text;
    DecycledParts(g, root, w);
    if id == root {
      assert Texts([]) == [];
    } else {
      var pid, k := ParentOf(g, root, w, id);
      EvalFirstVisit(g, root, w, h, pid);
      var p, s := w.seen[pid], g[pid].keys[k];
      TreeEdgeValue(g, w, h, pid, k, id);
      LookupSlot(g, w, h, pid, k);
      TextsSnoc(p, s);
      EvalSnoc(h, Ref([]), Texts(p), Text(s));
      assert [Text(s)][1..] == [];
      assert Eval(h, Ref(p), [Text(s)]) == Eval(h, Lookup(h[p], Text(s)), []);
    }
  }

  // ---------------------------------------------------------------- the walk of retroCycle

  /** Slot (id', k') is one that `rez` on `id`, from its i-th member on, is responsible for. */
  ghost predicate Region(g: Graph, w: Walk, id: nat, i: nat, id': nat, k': nat)
    requires id in g && id in w.seen && id' in w.seen
  {
    (id' == id && k' >= i) || Below(g[id], i, w.seen[id], w.seen[id'])
  }

  ghost predicate At(w: Walk, h: Heap, id: nat, k: nat, v: Value<Path>) {
    id in w.seen && w.seen[id] in h && k < |h[w.seen[id]].vals| && h[w.seen[id]].vals[k] == v
  }

  /** All slots of the region are still as `deCycle` left them. */
  ghost predicate Unvisited(g: Graph, w: Walk, h: Heap, id: nat, i: nat)
    requires id in g && id in w.seen
  {
    forall id', k': nat :: Slot(g, w, id', k') && Region(g, w, id, i, id', k') ==>
      At(w, h, id', k', OrigAt(g, w, id', k'))
  }

  /** From `h` to `h'` the region was repaired and nothing else changed. */
  ghost predicate Repaired(g: Graph, w: Walk, h: Heap, h': Heap, id: nat, i: nat)
    requires id in g && id in w.seen
  {
    && (forall id', k': nat :: Slot(g, w, id', k') && Region(g, w, id, i, id', k') ==>
          At(w, h', id', k', FixAt(g, w, id', k')))
    && (forall id', k': nat :: Slot(g, w, id', k') && !Region(g, w, id, i, id', k') ==> Same(w, h, h', id', k'))
  }

  ghost predicate Same(w: Walk, h: Heap, h': Heap, id: nat, k: nat) {
    && id in w.seen && w.seen[id] in h && w.seen[id] in h'
    && k < |h[w.seen[id]].vals| && k < |h'[w.seen[id]].vals|
    && h'[w.seen[id]].vals[k] == h[w.seen[id]].vals[k]
  }

  /** The i-th member's share of the region: its slot, and everything at or below its own address. */
  ghost predicate Share(g: Graph, w: Walk, id: nat, i: nat, id': nat, k': nat)
    requires id in g && id in w.seen && id' in w.seen && i < |g[id].keys|
  {
    (id' == id && k' == i) || w.seen[id] + [g[id].keys[i]] <= w.seen[id']
  }

  lemma RegionSplits(g: Graph, w: Walk, id: nat, i: nat, id': nat, k': nat)
    requires GraphOk(g) && id in g && id in w.seen && id' in w.seen && i < |g[id].keys|
    ensures Region(g, w, id, i, id', k') <==> Share(g, w, id, i, id', k') || Region(g, w, id, i + 1, id', k')
    ensures !(Share(g, w, id, i, id', k') && Region(g, w, id, i + 1, id', k'))
  {
    var n, a, b := g[id], w.seen[id], w.seen[id'];
    if Below(n, i, a, b) {
      var j: nat :| BelowMember(n, i, a, b, j);
      if j > i { assert BelowMember(n, i + 1, a, b, j); }
    }
    if a + [n.keys[i]] <= b { ThisMember(n, i, a, b); }
    if Below(n, i + 1, a, b) {
      LaterMember(n, i, a, b);
      BelowIsBelow(n, i + 1, a, b);
      var j: nat :| BelowMember(n, i + 1, a, b, j);
      assert NodeOk(g, n) && n.keys[i] != n.keys[j];
      if a + [n.keys[i]] <= b { Clash(a, n.keys[i], n.keys[j], b); }
    }
    if a + [n.keys[i]] <= b { StrictlyBelow(a, n.keys[i], b); }
  }

  /** One member handled, then the rest: together the whole. */
  ghost predicate ShareDone(g: Graph, w: Walk, h: Heap, h1: Heap, id: nat, i: nat)
    requires id in g && id in w.seen && i < |g[id].keys|
  {
    && (forall id', k': nat :: Slot(g, w, id', k') && Share(g, w, id, i, id', k') ==>
          At(w, h1, id', k', FixAt(g, w, id', k')))
    && (forall id', k': nat :: Slot(g, w, id', k') && !Share(g, w, id, i, id', k') ==> Same(w, h, h1, id', k'))
  }

  lemma ShareThenRest(g: Graph, w: Walk, h: Heap, h1: Heap, h2: Heap, id: nat, i: nat)
    requires GraphOk(g) && id in g && id in w.seen && i < |g[id].keys|
    requires ShareDone(g, w, h, h1, id, i) && Repaired(g, w, h1, h2, id, i + 1)
    ensures Repaired(g, w, h, h2, id, i)
  {
    hide Region, Share;
    forall id', k': nat | Slot(g, w, id', k')
      ensures Region(g, w, id, i, id', k') ==> At(w, h2, id', k', FixAt(g, w, id', k'))
      ensures !Region(g, w, id, i, id', k') ==> Same(w, h, h2, id', k')
    {
      RegionSplits(g, w, id, i, id', k');
    }
  }

  lemma RestStaysUnvisited(g: Graph, w: Walk, h: Heap, h1: Heap, id: nat, i: nat)
    requires GraphOk(g) && id in g && id in w.seen && i < |g[id].keys|
    requires Unvisited(g, w, h, id, i) && ShareDone(g, w, h, h1, id, i)
    ensures Unvisited(g, w, h1, id, i + 1)
  {
    hide Region, Share;
    forall id', k': nat | Slot(g, w, id', k') && Region(g, w, id, i + 1, id', k')
      ensures At(w, h1, id', k', OrigAt(g, w, id', k'))
    {
      RegionSplits(g, w, id, i, id', k');
    }
  }

  /** Whatever lies strictly below a first visit lies below one of its own members. */
  lemma {:induction false} BelowFirstVisit(g: Graph, root: nat, w: Walk, c: nat, id: nat)
    requires Decycled(g, root, w) && c in w.seen && id in w.seen && id != c && w.seen[c] <= w.seen[id]
    ensures Below(g[c], 0, w.seen[c], w.seen[id])
    decreases |w.seen[id]|
  {
    hide Finished;
    assert w.seen[c] != w.seen[id];
    assert Parented(g, w.seen, id);
    var pid: nat, k: nat :| TreeEdge(g, w.seen, pid, k, id);
    if pid == c {
      assert BelowMember(g[c], 0, w.seen[c], w.seen[id], k);
    } else {
      assert w.seen[c] <= w.seen[pid] by {
        assert w.seen[pid] == w.seen[id][..|w.seen[id]| - 1];
      }
      BelowFirstVisit(g, root, w, c, pid);
      var j: nat :| BelowMember(g[c], 0, w.seen[c], w.seen[pid], j);
      assert BelowMember(g[c], 0, w.seen[c], w.seen[id], j);
    }
  }

  /** So the region of a whole object is everything at or below it. */
  lemma WholeRegion(g: Graph, root: nat, w: Walk, c: nat, id: nat, k: nat)
    requires Decycled(g, root, w) && c in w.seen && id in w.seen
    ensures Region(g, w, c, 0, id, k) <==> w.seen[c] <= w.seen[id]
  {
    hide Finished, Parented;
    if w.seen[c] <= w.seen[id] && id != c { BelowFirstVisit(g, root, w, c, id); }
    if Below(g[c], 0, w.seen[c], w.seen[id]) { BelowIsBelow(g[c], 0, w.seen[c], w.seen[id]); }
  }

  /** Every prefix of a first visit's path is a first visit's path. */
  lemma {:induction false} PrefixIsVisit(g: Graph, root: nat, w: Walk, id: nat, p: Path) returns (d: nat)
    requires Decycled(g, root, w) && id in w.seen && p <= w.seen[id]
    ensures d in w.seen && w.seen[d] == p
    decreases |w.seen[id]|
  {
    hide Finished, Injective;
    if p == w.seen[id] {
      d := id;
    } else {
      assert Parented(g, w.seen, id);
      var pid: nat, k: nat :| TreeEdge(g, w.seen, pid, k, id);
      assert w.seen[pid] == w.seen[id][..|w.seen[id]| - 1];
      assert p <= w.seen[pid];
      d := PrefixIsVisit(g, root, w, pid, p);
    }
  }

  /** Below a member that is no first visit there are no visited objects. */
  lemma NothingBelow(g: Graph, root: nat, w: Walk, id: nat, i: nat)
    requires Decycled(g, root, w) && Slot(g, w, id, i)
    requires var v := g[id].vals[i]; v.P? || (v.to in w.seen && w.seen[v.to] != w.seen[id] + [g[id].keys[i]])
    ensures forall id' :: id' in w.seen ==> !(w.seen[id] + [g[id].keys[i]] <= w.seen[id'])
    ensures w.seen[id] + [g[id].keys[i]] !in w.seen.Values
  {
    hide Finished, Parented, Injective;
    var x := w.seen[id] + [g[id].keys[i]];
    forall id' | id' in w.seen ensures !(x <= w.seen[id']) {
      if x <= w.seen[id'] {
        var d := PrefixIsVisit(g, root, w, id', x);
        FirstVisitIsByOwnEdge(g, root, w, id, i, d);
      }
    }
  }

  lemma SlotIsMixed(g: Graph, w: Walk, h: Heap, id: nat, i: nat)
    requires Mixed(g, w, h) && Slot(g, w, id, i)
    ensures w.seen[id] in h && h[w.seen[id]].keys == g[id].keys && |h[w.seen[id]].vals| == |g[id].vals|
    ensures Same(w, h, h, id, i)
  {
  }

  /** A member that stays as it is: primitives, and references whose path cannot be read back. */
  lemma ShareOfOne(g: Graph, root: nat, w: Walk, h: Heap, id: nat, i: nat)
    requires Decycled(g, root, w) && Mixed(g, w, h) && Slot(g, w, id, i) && Unvisited(g, w, h, id, i)
    requires var v := g[id].vals[i]; v.P? || (v.to in w.seen && w.seen[v.to] != w.seen[id] + [g[id].keys[i]])
    requires FixAt(g, w, id, i) == OrigAt(g, w, id, i)
    ensures ShareDone(g, w, h, h, id, i)
  {
    hide Decycled, Below, Mixed;
    NothingBelow(g, root, w, id, i);
    assert Region(g, w, id, i, id, i);
    forall id', k': nat | Slot(g, w, id', k') ensures Same(w, h, h, id', k') { SlotIsMixed(g, w, h, id', k'); }
  }

  /** A reference that is replaced in place. */
  lemma ShareOfReplaced(g: Graph, root: nat, w: Walk, h: Heap, id: nat, i: nat, c: nat)
    requires Decycled(g, root, w) && Mixed(g, w, h) && Slot(g, w, id, i)
    requires g[id].vals[i] == Ref(c) && c in w.seen && w.seen[c] != w.seen[id] + [g[id].keys[i]] && AllNames(w.seen[c])
    requires w.seen[id] in h && i < |h[w.seen[id]].vals|
    ensures var a := w.seen[id];
            var h1 := h[a := h[a].(vals := h[a].vals[i := Ref(w.seen[c])])];
            Mixed(g, w, h1) && ShareDone(g, w, h, h1, id, i)
  {
    hide AllNames, Finished, Parented, Below;
    NothingBelow(g, root, w, id, i);
    var a := w.seen[id];
    var h1 := h[a := h[a].(vals := h[a].vals[i := Ref(w.seen[c])])];
    assert Injective(w.seen);
    ReplacingOne(g, w, h, id, i, c);
    hide Decycled, Mixed, Injective;
    forall id', k': nat | Slot(g, w, id', k')
      ensures Share(g, w, id, i, id', k') ==> At(w, h1, id', k', FixAt(g, w, id', k'))
      ensures !Share(g, w, id, i, id', k') ==> Same(w, h, h1, id', k')
    {
    }
  }

  lemma ReplacingOne(g: Graph, w: Walk, h: Heap, id: nat, i: nat, c: nat)
    requires Injective(w.seen) && Mixed(g, w, h) && Slot(g, w, id, i)
    requires g[id].vals[i] == Ref(c) && c in w.seen && AllNames(w.seen[c])
    requires w.seen[id] in h && i < |h[w.seen[id]].vals|
    ensures var a := w.seen[id];
            var h1 := h[a := h[a].(vals := h[a].vals[i := Ref(w.seen[c])])];
            && Mixed(g, w, h1)
            && At(w, h1, id, i, FixAt(g, w, id, i))
            && forall id', k': nat :: Slot(g, w, id', k') && (id' != id || k' != i) ==> Same(w, h, h1, id', k')
  {
    hide AllNames;
    var a := w.seen[id];
    var h1 := h[a := h[a].(vals := h[a].vals[i := Ref(w.seen[c])])];
    forall id', k': nat | Slot(g, w, id', k') && (id' != id || k' != i) ensures Same(w, h, h1, id', k') {
      SlotIsMixed(g, w, h, id', k');
      if id' != id { assert w.seen[id'] != a; }
    }
    assert a in w.seen.Values;
  }

  /** A first visit: the object itself is walked into. */
  lemma VisitIsPartOfRegion(g: Graph, root: nat, w: Walk, h: Heap, id: nat, i: nat, c: nat)
    requires Decycled(g, root, w) && Slot(g, w, id, i) && Unvisited(g, w, h, id, i)
    requires g[id].vals[i] == Ref(c) && c in w.seen && w.seen[c] == w.seen[id] + [g[id].keys[i]]
    ensures c in g && Unvisited(g, w, h, c, 0)
  {
    hide Finished, Parented, Injective, Below, Region;
    forall id', k': nat | Slot(g, w, id', k') && Region(g, w, c, 0, id', k')
      ensures At(w, h, id', k', OrigAt(g, w, id', k'))
    {
      WholeRegion(g, root, w, c, id', k');
      assert Share(g, w, id, i, id', k');
      RegionSplits(g, w, id, i, id', k');
    }
  }

  lemma ShareOfVisit(g: Graph, root: nat, w: Walk, h: Heap, h1: Heap, id: nat, i: nat, c: nat)
    requires Decycled(g, root, w) && Slot(g, w, id, i) && Unvisited(g, w, h, id, i)
    requires g[id].vals[i] == Ref(c) && c in w.seen && w.seen[c] == w.seen[id] + [g[id].keys[i]]
    requires c in g && Repaired(g, w, h, h1, c, 0)
    ensures ShareDone(g, w, h, h1, id, i)
  {
    hide Finished, Parented, Injective, Below, Region, AllNames;
    forall id', k': nat | Slot(g, w, id', k')
      ensures Share(g, w, id, i, id', k') ==> At(w, h1, id', k', FixAt(g, w, id', k'))
      ensures !Share(g, w, id, i, id', k') ==> Same(w, h, h1, id', k')
    {
      WholeRegion(g, root, w, c, id', k');
      if id' == id && k' == i {
        RegionSplits(g, w, id, i, id', k');
        assert !(w.seen[c] <= w.seen[id]);
        assert OrigAt(g, w, id, i) == FixAt(g, w, id, i);
      }
    }
  }

  /** No object of the region hides `hasOwnProperty`. */
  ghost predicate Calm(g: Graph, w: Walk, id: nat, i: nat)
    requires id in g && id in w.seen
  {
    forall id', k': nat :: Slot(g, w, id', k') && Region(g, w, id, i, id', k') ==> !Spoiled(g[id'])
  }

  ghost predicate ShareCalm(g: Graph, w: Walk, id: nat, i: nat)
    requires id in g && id in w.seen && i < |g[id].keys|
  {
    forall id', k': nat :: Slot(g, w, id', k') && Share(g, w, id, i, id', k') ==> !Spoiled(g[id'])
  }

  lemma CalmSplits(g: Graph, w: Walk, id: nat, i: nat)
    requires GraphOk(g) && id in g && id in w.seen && i < |g[id].keys|
    ensures Calm(g, w, id, i) <==> ShareCalm(g, w, id, i) && Calm(g, w, id, i + 1)
  {
    hide Region, Share, Spoiled;
    forall id', k': nat | Slot(g, w, id', k')
      ensures Region(g, w, id, i, id', k') <==> Share(g, w, id, i, id', k') || Region(g, w, id, i + 1, id', k')
    {
      RegionSplits(g, w, id, i, id', k');
    }
  }

  /** A first visit's share is its slot and the whole of its object. */
  lemma CalmVisit(g: Graph, root: nat, w: Walk, id: nat, i: nat, c: nat)
    requires Decycled(g, root, w) && Slot(g, w, id, i) && !Spoiled(g[id])
    requires g[id].vals[i] == Ref(c) && c in w.seen && c in g && w.seen[c] == w.seen[id] + [g[id].keys[i]]
    ensures ShareCalm(g, w, id, i) <==> Calm(g, w, c, 0)
  {
    hide Finished, Parented, Injective, Below, Region, Spoiled;
    forall id', k': nat | Slot(g, w, id', k')
      ensures Share(g, w, id, i, id', k') <==> (id' == id && k' == i) || Region(g, w, c, 0, id', k')
    {
      WholeRegion(g, root, w, c, id', k');
    }
  }

  /** The share of any other member is its slot alone. */
  lemma CalmOther(g: Graph, root: nat, w: Walk, id: nat, i: nat)
    requires Decycled(g, root, w) && Slot(g, w, id, i) && !Spoiled(g[id])
    requires var v := g[id].vals[i]; v.P? || (v.to in w.seen && w.seen[v.to] != w.seen[id] + [g[id].keys[i]])
    ensures ShareCalm(g, w, id, i)
  {
    hide Decycled, Spoiled;
    NothingBelow(g, root, w, id, i);
  }

  lemma OwnSlotIsCalm(g: Graph, w: Walk, id: nat, i: nat)
    requires Slot(g, w, id, i) && ShareCalm(g, w, id, i)
    ensures !Spoiled(g[id])
  {
    hide Spoiled;
    assert Share(g, w, id, i, id, i);
  }

  lemma NothingLeftIsCalm(g: Graph, w: Walk, id: nat)
    requires id in g && id in w.seen && |g[id].vals| == |g[id].keys|
    ensures Calm(g, w, id, |g[id].vals|)
  {
    hide Spoiled;
  }

  /** A copy hides the method when its object does. */
  lemma CopySpoiled(g: Graph, w: Walk, h: Heap, id: nat)
    requires Mixed(g, w, h) && id in w.seen && id in g && |g[id].vals| == |g[id].keys|
    ensures w.seen[id] in h && (Spoiled(h[w.seen[id]]) <==> Spoiled(g[id]))
  {
    var n := h[w.seen[id]];
    forall k: nat | k < |g[id].vals|
      ensures HidesMethod(n.keys[k], n.vals[k]) <==> HidesMethod(g[id].keys[k], g[id].vals[k])
    {
      assert Slot(g, w, id, k);
    }
  }

  /** The stack still has room for the tree at and below an object. */
  ghost predicate Room(w: Walk, h: Heap, id: nat, depth: nat) {
    id in w.seen && forall b :: b in h ==> |b| <= depth + |w.seen[id]|
  }

  /** `rez` on an object whose region is unvisited, where no object hides `hasOwnProperty`, repairs that
      region and nothing else. */
  lemma {:induction false} RezRepairs(g: Graph, root: nat, w: Walk, h: Heap, id: nat, i: nat, depth: nat)
    returns (h': Heap)
    requires Decycled(g, root, w) && NoOwnRefs(g, root) && Mixed(g, w, h) && Room(w, h, id, depth)
    requires id in w.seen && id in g && w.seen[id] in h && i <= |g[id].vals| == |g[id].keys|
    requires Unvisited(g, w, h, id, i) && Calm(g, w, id, i)
    ensures Rez(h, w.seen[id], i, depth) == Some(h')
    ensures Mixed(g, w, h') && Repaired(g, w, h, h', id, i)
    decreases depth, |g[id].vals| - i
  {
    hide Decycled, GraphOk, NoOwnRefs, Mixed, Unvisited, Repaired, Eval, RefOf, Lookup, Parse, Calm, ShareCalm;
    hide Spoiled, Room, Rez, ShareDone;
    DecycledParts(g, root, w);
    KeysAreKept(g, w, h, id);
    RezEnds(h, w.seen[id], i, depth);
    if i == |g[id].vals| {
      h' := h;
      NothingLeft(g, w, h, id);
    } else {
      assert Slot(g, w, id, i);
      SlotIsUnvisited(g, w, h, id, i);
      CalmSplits(g, w, id, i);
      var h1 := RezMember(g, root, w, h, id, i, depth);
      RestStaysUnvisited(g, w, h, h1, id, i);
      KeysAreKept(g, w, h1, id);
      RoomStays(w, h, h1, id, depth);
      h' := RezRepairs(g, root, w, h1, id, i + 1, depth);
      ShareThenRest(g, w, h, h1, h', id, i);
    }
  }

  lemma RezEnds(h: Heap, a: Path, i: nat, depth: nat)
    requires a in h
    ensures i >= |h[a].vals| ==> Rez(h, a, i, depth) == Some(h)
  {
  }

  lemma RoomStays(w: Walk, h: Heap, h1: Heap, id: nat, depth: nat)
    requires Room(w, h, id, depth) && h1.Keys == h.Keys
    ensures Room(w, h1, id, depth)
  {
  }

  lemma RoomBelow(w: Walk, h: Heap, id: nat, depth: nat, x: Path)
    requires Room(w, h, id, depth) && x in h && |x| == |w.seen[id]| + 1
    ensures depth > 0 && forall c :: c in w.seen && w.seen[c] == x ==> Room(w, h, c, depth - 1)
  {
  }

  lemma KeysAreKept(g: Graph, w: Walk, h: Heap, id: nat)
    requires Mixed(g, w, h) && id in w.seen && id in g
    ensures h.Keys == w.out.Keys && w.seen[id] in h && |h[w.seen[id]].vals| == |g[id].vals|
  {
  }

  lemma NothingLeft(g: Graph, w: Walk, h: Heap, id: nat)
    requires Mixed(g, w, h) && id in w.seen && id in g && |g[id].vals| == |g[id].keys|
    ensures Repaired(g, w, h, h, id, |g[id].vals|)
  {
  }

  lemma SlotIsUnvisited(g: Graph, w: Walk, h: Heap, id: nat, i: nat)
    requires Slot(g, w, id, i) && Unvisited(g, w, h, id, i)
    ensures At(w, h, id, i, OrigAt(g, w, id, i))
  {
  }

  /** What `deCycle` guarantees of one reference member. */
  lemma ReferenceMember(g: Graph, root: nat, w: Walk, id: nat, i: nat, c: nat)
    requires Decycled(g, root, w) && Slot(g, w, id, i) && g[id].vals[i] == Ref(c)
    ensures c in w.seen && c in g
    ensures var x := w.seen[id] + [g[id].keys[i]];
            x in w.out && (w.seen[c] == x || (w.out[x] == RefNode(w.seen[c]) && x !in w.seen.Values))
    ensures w.seen[c] == w.seen[id] + [g[id].keys[i]] ==> c != root && |g[c].keys| == |g[c].vals|
  {
    hide Parented, Injective;
    assert Finished(g, w, id);
    var x := w.seen[id] + [g[id].keys[i]];
    assert EntryOk(w, g[id].vals[i], w.out[w.seen[id]].vals[i], x);
    assert Finished(g, w, c);
    if w.seen[c] != x { NothingBelow(g, root, w, id, i); }
  }

  /** One member of the walk: afterwards its share is repaired, and the walk is at the next one. */
  lemma RezMember(g: Graph, root: nat, w: Walk, h: Heap, id: nat, i: nat, depth: nat) returns (h1: Heap)
    requires Decycled(g, root, w) && NoOwnRefs(g, root) && Mixed(g, w, h) && Room(w, h, id, depth)
    requires id in w.seen && id in g && Slot(g, w, id, i) && Unvisited(g, w, h, id, i) && ShareCalm(g, w, id, i)
    requires |g[id].vals| == |g[id].keys|
    requires w.seen[id] in h && i < |h[w.seen[id]].vals| && h[w.seen[id]].vals[i] == OrigAt(g, w, id, i)
    ensures Mixed(g, w, h1) && ShareDone(g, w, h, h1, id, i)
    ensures w.seen[id] in h1 && Rez(h, w.seen[id], i, depth) == Rez(h1, w.seen[id], i + 1, depth)
    decreases depth, |g[id].vals| - i, 0
  {
    hide Decycled, NoOwnRefs, Mixed, Unvisited, Repaired, ShareDone, AllNames, Eval, RefOf, Lookup;
    hide Calm, ShareCalm, Spoiled, Room;
    var a := w.seen[id];
    OwnSlotIsCalm(g, w, id, i);
    CopySpoiled(g, w, h, id);
    match g[id].vals[i]
    case P(p) =>
      h1 := h;
      ShareOfOne(g, root, w, h, id, i);
    case Ref(c) =>
      var x := a + [g[id].keys[i]];
      ReferenceMember(g, root, w, id, i, c);
      KeysAreKept(g, w, h, id);
      if w.seen[c] == x {
        CopiesAreNoRefs(g, root, w, h, c);
        RoomBelow(w, h, id, depth, x);
        VisitIsPartOfRegion(g, root, w, h, id, i, c);
        CalmVisit(g, root, w, id, i, c);
        h1 := RezRepairs(g, root, w, h, c, 0, depth - 1);
        KeysAreKept(g, w, h1, id);
        ShareOfVisit(g, root, w, h, h1, id, i, c);
      } else {
        h1 := RezReference(g, root, w, h, id, i, c, depth);
      }
  }

  lemma RefNodeIsKept(g: Graph, w: Walk, h: Heap, x: Path)
    requires Mixed(g, w, h) && x in w.out && x !in w.seen.Values
    ensures x in h && h[x] == w.out[x]
  {
  }

  /** A reference object: replaced when its path reads back, left alone otherwise. */
  lemma RezReference(g: Graph, root: nat, w: Walk, h: Heap, id: nat, i: nat, c: nat, depth: nat) returns (h1: Heap)
    requires Decycled(g, root, w) && Mixed(g, w, h) && Room(w, h, id, depth)
    requires id in w.seen && id in g && Slot(g, w, id, i) && Unvisited(g, w, h, id, i)
    requires w.seen[id] in h && i < |h[w.seen[id]].vals| && h[w.seen[id]].vals[i] == OrigAt(g, w, id, i)
    requires g[id].vals[i] == Ref(c) && c in w.seen && !Spoiled(h[w.seen[id]])
    requires var x := w.seen[id] + [g[id].keys[i]];
             w.seen[c] != x && x in w.out && w.out[x] == RefNode(w.seen[c]) && x !in w.seen.Values
    ensures Mixed(g, w, h1) && ShareDone(g, w, h, h1, id, i)
    ensures w.seen[id] in h1 && Rez(h, w.seen[id], i, depth) == Rez(h1, w.seen[id], i + 1, depth)
  {
    hide Decycled, Mixed, Unvisited, ShareDone, AllNames, Eval, RefOf, Lookup, Room, Spoiled;
    var a := w.seen[id];
    var x := a + [g[id].keys[i]];
    RefNodeIsKept(g, w, h, x);
    RefNodesAreRefs(w.seen[c]);
    if AllNames(w.seen[c]) {
      EvalFirstVisit(g, root, w, h, c);
      h1 := h[a := h[a].(vals := h[a].vals[i := Ref(w.seen[c])])];
      ShareOfReplaced(g, root, w, h, id, i, c);
    } else {
      h1 := h;
      ShareOfOne(g, root, w, h, id, i);
      RoomBelow(w, h, id, depth, x);
      RezOfRefNode(h, x, w.seen[c], depth - 1);
    }
  }

  /** Walking into a reference object that is not recognised changes nothing. */
  lemma RezOfRefNode(h: Heap, x: Path, path: Path, depth: nat)
    requires x in h && h[x] == RefNode(path)
    ensures Rez(h, x, 0, depth) == Some(h)
  {
    hide Render;
    assert !Spoiled(RefNode(path));
    assert Rez(h, x, 1, depth) == Some(h);
  }

  // ---------------------------------------------------------------- where the walk throws

  /** `rez` throws when some object of the region hides `hasOwnProperty`. */
  lemma {:induction false} RezThrows(g: Graph, root: nat, w: Walk, h: Heap, id: nat, i: nat, depth: nat)
    requires Decycled(g, root, w) && NoOwnRefs(g, root) && Mixed(g, w, h) && Room(w, h, id, depth)
    requires id in w.seen && id in g && w.seen[id] in h && i <= |g[id].vals| == |g[id].keys|
    requires Unvisited(g, w, h, id, i) && !Calm(g, w, id, i)
    ensures Rez(h, w.seen[id], i, depth).None?
    decreases depth, |g[id].vals| - i
  {
    hide Decycled, GraphOk, NoOwnRefs, Mixed, Unvisited, Repaired, Eval, RefOf, Lookup, Parse;
    hide Calm, ShareCalm, Spoiled, Room;
    DecycledParts(g, root, w);
    KeysAreKept(g, w, h, id);
    CopySpoiled(g, w, h, id);
    NothingLeftIsCalm(g, w, id);
    if !Spoiled(g[id]) {
      assert Slot(g, w, id, i);
      SlotIsUnvisited(g, w, h, id, i);
      CalmSplits(g, w, id, i);
      if ShareCalm(g, w, id, i) {
        var h1 := RezMember(g, root, w, h, id, i, depth);
        RestStaysUnvisited(g, w, h, h1, id, i);
        KeysAreKept(g, w, h1, id);
        RoomStays(w, h, h1, id, depth);
        RezThrows(g, root, w, h1, id, i + 1, depth);
      } else {
        var c := SpoiledVisit(g, root, w, id, i);
        var x := w.seen[id] + [g[id].keys[i]];
        ReferenceMember(g, root, w, id, i, c);
        KeysAreKept(g, w, h, c);
        CopiesAreNoRefs(g, root, w, h, c);
        RoomBelow(w, h, id, depth, x);
        VisitIsPartOfRegion(g, root, w, h, id, i, c);
        RezThrows(g, root, w, h, c, 0, depth - 1);
      }
    }
  }

  /** Then the member is the first visit of an object in whose region it is. */
  lemma SpoiledVisit(g: Graph, root: nat, w: Walk, id: nat, i: nat) returns (c: nat)
    requires Decycled(g, root, w) && Slot(g, w, id, i) && !Spoiled(g[id]) && !ShareCalm(g, w, id, i)
    ensures g[id].vals[i] == Ref(c) && c in w.seen && c in g && w.seen[c] == w.seen[id] + [g[id].keys[i]]
    ensures !Calm(g, w, c, 0)
  {
    hide Decycled, ShareCalm, Calm, Spoiled;
    c := 0;
    if g[id].vals[i].P? {
      CalmOther(g, root, w, id, i);
    } else {
      c := g[id].vals[i].to;
      ReferenceMember(g, root, w, id, i, c);
      if w.seen[c] != w.seen[id] + [g[id].keys[i]] {
        CalmOther(g, root, w, id, i);
      } else {
        CalmVisit(g, root, w, id, i, c);
      }
    }
  }

  // ---------------------------------------------------------------- the round trip

  /** The heap from `[]` is the graph from `root`, object by object, under the one-to-one map `m`. */
  ghost predicate IsoVia(g: Graph, root: nat, h: Heap, m: map<nat, Path>) {
    && root in m && m[root] == [] && Injective(m)
    && (forall id :: id in m ==>
          && id in g && m[id] in h
          && h[m[id]].isArray == g[id].isArray && h[m[id]].keys == g[id].keys
          && |h[m[id]].vals| == |g[id].vals|)
    && (forall id, k: nat :: id in m && k < |g[id].vals| ==> SameValue(m, g[id].vals[k], h[m[id]].vals[k]))
  }

  ghost predicate SameValue(m: map<nat, Path>, v: Value<nat>, v': Value<Path>) {
    match v
    case P(p) => v' == P(p)
    case Ref(c) => c in m && v' == Ref(m[c])
  }

  ghost predicate Isomorphic(g: Graph, root: nat, h: Heap) { exists m :: IsoVia(g, root, h, m) }

  /** Every member that is no first visit refers to an object first visited through property names only. */
  ghost predicate RepeatsReadable(g: Graph, w: Walk) {
    forall id, k: nat :: Slot(g, w, id, k) ==> Readable(g, w, id, k)
  }

  ghost predicate Readable(g: Graph, w: Walk, id: nat, k: nat)
    requires Slot(g, w, id, k)
  {
    match g[id].vals[k]
    case P(_) => true
    case Ref(c) => c in w.seen && (w.seen[c] == w.seen[id] + [g[id].keys[k]] || AllNames(w.seen[c]))
  }

  /** All slots repaired, in the shape of the graph. */
  ghost predicate AllFixed(g: Graph, w: Walk, h: Heap) {
    && Mixed(g, w, h)
    && forall id, k: nat :: Slot(g, w, id, k) ==> At(w, h, id, k, FixAt(g, w, id, k))
  }

  /** No reachable plain object has a property of its own that hides `hasOwnProperty` and is no function. */
  ghost predicate NobodyHides(g: Graph, root: nat) {
    forall id :: id in g && Reachable(g, root, id) ==> !Spoiled(g[id])
  }

  /** Where the walk of `retroCycle` starts. */
  lemma WalkStarts(g: Graph, root: nat, depth: nat)
    requires GraphOk(g) && root in g && Fits(DeCycle(g, root), depth)
    ensures var w := FullWalk(g, root);
            && Decycled(g, root, w) && Mixed(g, w, w.out) && Room(w, w.out, root, depth)
            && root in w.seen && w.seen[root] == [] && [] in w.out && |g[root].vals| == |g[root].keys|
            && Unvisited(g, w, w.out, root, 0)
            && forall id, k: nat :: Slot(g, w, id, k) ==> Region(g, w, root, 0, id, k)
  {
    DeCycleIsDecycled(g, root);
    var w := FullWalk(g, root);
    DecycledIsMixed(g, root, w);
    hide Finished, Parented, Injective, Mixed;
    forall id', k': nat | Slot(g, w, id', k') ensures Region(g, w, root, 0, id', k') {
      WholeRegion(g, root, w, root, id', k');
    }
    hide Region;
    assert Finished(g, w, root);
    RootArity(g, w, root);
  }

  /** A hiding object has a slot, so the whole walk is calm exactly when there is none. */
  lemma CalmIffNobodyHides(g: Graph, root: nat, w: Walk)
    requires Decycled(g, root, w) && w == FullWalk(g, root)
    requires forall id, k: nat :: Slot(g, w, id, k) ==> Region(g, w, root, 0, id, k)
    ensures Calm(g, w, root, 0) <==> NobodyHides(g, root)
  {
    hide Region, Finished, Parented, Injective;
    VisitsExactlyTheReachable(g, root);
    forall id | id in w.seen && Spoiled(g[id]) ensures exists k: nat :: Slot(g, w, id, k) {
      var k: nat :| k < |g[id].keys| && k < |g[id].vals| && HidesMethod(g[id].keys[k], g[id].vals[k]);
      assert Slot(g, w, id, k);
    }
  }

  lemma RetroRepairsAll(g: Graph, root: nat, depth: nat) returns (h: Heap)
    requires GraphOk(g) && root in g && NoOwnRefs(g, root) && NobodyHides(g, root) && Fits(DeCycle(g, root), depth)
    ensures RetroCycle(DeCycle(g, root), depth) == Some(h) && AllFixed(g, FullWalk(g, root), h)
  {
    hide Decycled, Mixed, Region, Rez, Room, NobodyHides, Calm;
    var w := FullWalk(g, root);
    WalkStarts(g, root, depth);
    CalmIffNobodyHides(g, root, w);
    h := RezRepairs(g, root, w, w.out, root, 0, depth);
  }

  /** `retroCycle` of `deCycle` succeeds exactly when no reachable object hides `hasOwnProperty`. */
  lemma RetroSucceedsIffNobodyHides(g: Graph, root: nat, depth: nat)
    requires GraphOk(g) && root in g && NoOwnRefs(g, root) && Fits(DeCycle(g, root), depth)
    ensures RetroCycle(DeCycle(g, root), depth).Some? <==> NobodyHides(g, root)
  {
    hide Decycled, Mixed, Region, Rez, Room, NobodyHides, Calm, Unvisited, AllFixed;
    var w := FullWalk(g, root);
    WalkStarts(g, root, depth);
    CalmIffNobodyHides(g, root, w);
    if NobodyHides(g, root) {
      var h := RetroRepairsAll(g, root, depth);
    } else {
      RezThrows(g, root, w, w.out, root, 0, depth);
    }
  }

  lemma RootArity(g: Graph, w: Walk, id: nat)
    requires Finished(g, w, id)
    ensures |g[id].vals| == |g[id].keys| && w.seen[id] in w.out
  {
  }

  lemma DecycledIsMixed(g: Graph, root: nat, w: Walk)
    requires Decycled(g, root, w)
    ensures Mixed(g, w, w.out)
    ensures forall id, k: nat :: Slot(g, w, id, k) ==> At(w, w.out, id, k, OrigAt(g, w, id, k))
  {
    hide Parented, Injective;
    forall id | id in w.seen && id in g
      ensures w.seen[id] in w.out
              && w.out[w.seen[id]].isArray == g[id].isArray && w.out[w.seen[id]].keys == g[id].keys
              && |w.out[w.seen[id]].vals| == |g[id].vals|
    {
      assert Finished(g, w, id);
    }
    forall id, k: nat | Slot(g, w, id, k) ensures At(w, w.out, id, k, OrigAt(g, w, id, k)) {
      assert Finished(g, w, id);
      assert EntryOk(w, g[id].vals[k], w.out[w.seen[id]].vals[k], w.seen[id] + [g[id].keys[k]]);
    }
  }

  lemma FixedMember(g: Graph, root: nat, w: Walk, h: Heap, id: nat, k: nat)
    requires Decycled(g, root, w) && AllFixed(g, w, h) && RepeatsReadable(g, w)
    requires id in w.seen && id in g && k < |g[id].vals|
    ensures w.seen[id] in h && k < |h[w.seen[id]].vals|
    ensures SameValue(w.seen, g[id].vals[k], h[w.seen[id]].vals[k])
  {
    hide Parented, Finished, AllNames, Injective;
    assert NodeOk(g, g[id]);
    assert Slot(g, w, id, k) && Readable(g, w, id, k);
    assert At(w, h, id, k, FixAt(g, w, id, k));
  }

  lemma FixedIsIso(g: Graph, root: nat, w: Walk, h: Heap)
    requires Decycled(g, root, w) && AllFixed(g, w, h) && RepeatsReadable(g, w)
    ensures IsoVia(g, root, h, w.seen)
  {
    hide Parented, Finished, SameValue, RepeatsReadable, Injective;
    forall id, k: nat | id in w.seen && k < |g[id].vals|
      ensures SameValue(w.seen, g[id].vals[k], h[w.seen[id]].vals[k])
    {
      FixedMember(g, root, w, h, id, k);
    }
  }

  /** Any isomorphism puts every object at the place of its first visit. */
  lemma {:induction false} IsoFollowsFirstVisits(g: Graph, root: nat, w: Walk, h: Heap, m: map<nat, Path>, id: nat)
    requires Decycled(g, root, w) && AllFixed(g, w, h) && IsoVia(g, root, h, m) && id in w.seen
    ensures id in m && m[id] == w.seen[id]
    decreases |w.seen[id]|
  {
    hide Finished, Injective, AllNames, Mixed, NodeOk;
    if id != root {
      assert Parented(g, w.seen, id);
      var pid: nat, k: nat :| TreeEdge(g, w.seen, pid, k, id);
      IsoFollowsFirstVisits(g, root, w, h, m, pid);
      assert Slot(g, w, pid, k);
      assert At(w, h, pid, k, FixAt(g, w, pid, k));
      assert SameValue(m, g[pid].vals[k], h[m[pid]].vals[k]);
    }
  }

  lemma IsoIsReadable(g: Graph, root: nat, w: Walk, h: Heap, m: map<nat, Path>)
    requires Decycled(g, root, w) && AllFixed(g, w, h) && IsoVia(g, root, h, m)
    ensures RepeatsReadable(g, w)
  {
    hide Finished, Parented, Injective, AllNames, Mixed, NodeOk;
    forall id, k: nat | Slot(g, w, id, k) ensures Readable(g, w, id, k) {
      IsoFollowsFirstVisits(g, root, w, h, m, id);
      assert At(w, h, id, k, FixAt(g, w, id, k));
      assert SameValue(m, g[id].vals[k], h[m[id]].vals[k]);
      if g[id].vals[k].Ref? {
        ReferenceMember(g, root, w, id, k, g[id].vals[k].to);
        IsoFollowsFirstVisits(g, root, w, h, m, g[id].vals[k].to);
      }
    }
  }

  /** When every object met again was first met through property names, the graph comes back. */
  lemma RoundTripWhenReadable(g: Graph, root: nat, depth: nat)
    requires GraphOk(g) && root in g && NoOwnRefs(g, root) && NobodyHides(g, root) && Fits(DeCycle(g, root), depth)
    requires RepeatsReadable(g, FullWalk(g, root))
    ensures RetroCycle(DeCycle(g, root), depth).Some?
    ensures Isomorphic(g, root, RetroCycle(DeCycle(g, root), depth).value)
  {
    hide Decycled, AllFixed, IsoVia, RepeatsReadable, NobodyHides, NoOwnRefs;
    var w := FullWalk(g, root);
    DeCycleIsDecycled(g, root);
    var h := RetroRepairsAll(g, root, depth);
    FixedIsIso(g, root, w, h);
  }

  /** The round trip. For every finite graph, cyclic and shared or not, in which only the root may carry a
      matching `$ref` text of its own: `retroCycle` of `deCycle`, with a stack deep enough for the tree,
      gives back a graph isomorphic to the given one exactly when no reachable object hides
      `hasOwnProperty` and no object that is met more than once was first met through an array. */
  lemma RoundTripIffReadable(g: Graph, root: nat, depth: nat)
    requires GraphOk(g) && root in g && NoOwnRefs(g, root) && Fits(DeCycle(g, root), depth)
    ensures var r := RetroCycle(DeCycle(g, root), depth);
            (r.Some? && Isomorphic(g, root, r.value))
            <==> (NobodyHides(g, root) && RepeatsReadable(g, FullWalk(g, root)))
  {
    hide Decycled, AllFixed, IsoVia, RepeatsReadable, NobodyHides, NoOwnRefs;
    var w := FullWalk(g, root);
    DeCycleIsDecycled(g, root);
    RetroSucceedsIffNobodyHides(g, root, depth);
    if NobodyHides(g, root) {
      var h := RetroRepairsAll(g, root, depth);
      if RepeatsReadable(g, w) { RoundTripWhenReadable(g, root, depth); }
      if m :| IsoVia(g, root, h, m) { IsoIsReadable(g, root, w, h, m); }
    }
  }
}
