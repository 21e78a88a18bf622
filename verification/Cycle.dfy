/** `deCycle` and `retroCycle` with the state they mutate, proved against CycleSpec
    (packages/api/utils/src/cycle/cycle.ts). */
module Cycles {
  import opened Wrappers
  import opened Paths
  import opened CycleSpec
  import Spec = CycleSpec

  /** The walk of `deCycle`: `seen` and the objects it fills. */
  class DeCycler {
    const graph: Graph
    var seen: map<nat, Path>
    var out: Heap

    function State(): Walk reads this { Walk(seen, out) }

    constructor (graph: Graph)
      ensures this.graph == graph && State() == Walk(map[], map[])
    {
      this.graph := graph;
      seen, out := map[], map[];
    }

    method Unref(value: Value<nat>, path: Path) returns (copy: Value<Path>)
      requires GraphOk(graph) && (value.Ref? ==> value.to in graph)
      modifies this
      ensures Spec.Unref(graph, value, path, old(State())) == (copy, State())
      ensures old(seen.Keys) <= seen.Keys
      decreases graph.Keys - seen.Keys
    {
      if value.P? {
        return P(value.prim);
      }
      var id := value.to;
      if id in seen {
        out := out[path := RefNode(seen[id])];
        return Ref(path);
      }
      seen := seen[id := path];
      ghost var entered := State();
      assert id in graph.Keys - old(seen.Keys) && id !in graph.Keys - seen.Keys;
      var node := graph[id];
      assert NodeOk(graph, node);
      var vals: seq<Value<Path>> := [];
      var i := 0;
      while i < |node.vals|
        invariant 0 <= i <= |node.vals|
        invariant entered.seen.Keys <= seen.Keys
        invariant UnrefAll(graph, node, 0, path, entered).0 == vals + UnrefAll(graph, node, i, path, State()).0
        invariant UnrefAll(graph, node, 0, path, entered).1 == UnrefAll(graph, node, i, path, State()).1
      {
        ghost var before := State();
        var v := Unref(node.vals[i], path + [node.keys[i]]);
        assert UnrefAll(graph, node, i, path, before).0 == [v] + UnrefAll(graph, node, i + 1, path, State()).0;
        assert vals + ([v] + UnrefAll(graph, node, i + 1, path, State()).0)
            == vals + [v] + UnrefAll(graph, node, i + 1, path, State()).0;
        vals := vals + [v];
        i := i + 1;
      }
      assert vals + [] == vals;
      out := out[path := Node(node.isArray, node.keys, vals)];
      copy := Ref(path);
    }
  }

  method DeCycle(graph: Graph, root: nat) returns (out: Heap)
    requires GraphOk(graph) && root in graph
    ensures out == Spec.DeCycle(graph, root)
  {
    var walk := new DeCycler(graph);
    var _ := walk.Unref(Ref(root), []);
    out := walk.out;
  }

  /** The objects that `retroCycle` rewrites in place. */
  class RetroCycler {
    var heap: Heap

    constructor (heap: Heap)
      ensures this.heap == heap
    {
      this.heap := heap;
    }

    /** `processArray` or `processObject` on the object at `a`. False: it threw. */
    method Rez(a: Path, depth: nat) returns (ok: bool)
      requires a in heap
      modifies this
      ensures Spec.Rez(old(heap), a, 0, depth) == if ok then Some(heap) else None
      ensures ok ==> heap.Keys == old(heap.Keys) && forall b :: b in heap ==> |heap[b].vals| == |old(heap)[b].vals|
      decreases depth
    {
      hide Lookup, Eval, RefOf, Spoiled, Spec.Rez;
      ghost var start := heap;
      var i := 0;
      while i < |heap[a].vals|
        invariant a in heap && heap.Keys == start.Keys && forall b :: b in heap ==> |heap[b].vals| == |start[b].vals|
        invariant Spec.Rez(start, a, 0, depth) == Spec.Rez(heap, a, i, depth)
        decreases |heap[a].vals| - i
      {
        RezUnfolds(heap, a, i, depth);
        if Spoiled(heap[a]) {
          return false;
        }
        var item := heap[a].vals[i];
        if item.Ref? {
          var x := item.to;
          if x !in heap {
            return false;
          }
          var path := RefOf(heap[x]);
          if path.Throws? {
            return false;
          } else if path.Keys? {
            var target := Eval(heap, Ref([]), path.texts);
            if target.None? {
              return false;
            }
            heap := heap[a := heap[a].(vals := heap[a].vals[i := target.value])];
          } else {
            if depth == 0 {
              return false;
            }
            var done := Rez(x, depth - 1);
            if !done {
              return false;
            }
          }
        }
        i := i + 1;
      }
      RezEnds(heap, a, i, depth);
      ok := true;
    }
  }

  lemma RezEnds(h: Heap, a: Path, i: nat, depth: nat)
    requires a in h && i >= |h[a].vals|
    ensures Spec.Rez(h, a, i, depth) == Some(h)
  {
  }

  lemma RezUnfolds(h: Heap, a: Path, i: nat, depth: nat)
    requires a in h && i < |h[a].vals|
    ensures Spoiled(h[a]) ==> Spec.Rez(h, a, i, depth) == None
    ensures !Spoiled(h[a]) && h[a].vals[i].P? ==> Spec.Rez(h, a, i, depth) == Spec.Rez(h, a, i + 1, depth)
    ensures !Spoiled(h[a]) && h[a].vals[i].Ref? ==>
              var x := h[a].vals[i].to;
              if x !in h || RefOf(h[x]).Throws? then Spec.Rez(h, a, i, depth) == None
              else if RefOf(h[x]).Keys? then
                var v := Eval(h, Ref([]), RefOf(h[x]).texts);
                Spec.Rez(h, a, i, depth) == if v.None? then None
                  else Spec.Rez(h[a := h[a].(vals := h[a].vals[i := v.value])], a, i + 1, depth)
              else if depth == 0 then Spec.Rez(h, a, i, depth) == None
              else
                var h' := Spec.Rez(h, x, 0, depth - 1);
                Spec.Rez(h, a, i, depth) == if h'.None? then None else Spec.Rez(h'.value, a, i + 1, depth)
  {
    hide Lookup, Eval, RefOf, Spoiled;
  }

  method RetroCycle(argument: Heap, depth: nat) returns (ok: bool, graph: Heap)
    ensures Spec.RetroCycle(argument, depth) == if ok then Some(graph) else None
  {
    if [] !in argument {
      return true, argument;
    }
    var walk := new RetroCycler(argument);
    ok := walk.Rez([], depth);
    graph := walk.heap;
  }
}
