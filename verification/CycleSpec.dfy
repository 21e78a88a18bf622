/** `deCycle` and `retroCycle` as functions (packages/api/utils/src/cycle/cycle.ts).

    The input is a graph of objects and arrays. The output of `deCycle` is a fresh tree; each of its
    objects is addressed by its path from the root, which is what the walk carries along. */
module CycleSpec {
  import opened Wrappers
  import opened Paths

  /** Values that are not walked into. Atoms stand for numbers, booleans, dates and the like. */
  datatype Prim = Undefined | Null | Str(text: string) | Fun(code: nat) | Atom(code: nat)

  datatype Value<A> = P(prim: Prim) | Ref(to: A)

  /** An array or a plain object: its own enumerable properties in order. */
  datatype Node<A> = Node(isArray: bool, keys: seq<Step>, vals: seq<Value<A>>)

  type Graph = map<nat, Node<nat>>
  type Heap = map<Path, Node<Path>>

  /** Arity, distinct property names, array indices in order, and references inside the graph. */
  ghost predicate NodeOk(g: Graph, n: Node<nat>) {
    && |n.keys| == |n.vals|
    && (forall i, j :: 0 <= i < j < |n.keys| ==> Text(n.keys[i]) != Text(n.keys[j]))
    && (forall i :: 0 <= i < |n.keys| ==> if n.isArray then n.keys[i] == Idx(i) else n.keys[i].Name?)
    && (forall i :: 0 <= i < |n.vals| && n.vals[i].Ref? ==> n.vals[i].to in g)
  }

  ghost predicate GraphOk(g: Graph) { forall id :: id in g ==> NodeOk(g, g[id]) }

  // ---------------------------------------------------------------- deCycle

  const REF := Name("$ref")

  function RefNode(path: Path): Node<Path> { Node(false, [REF], [P(Str(Render(path)))]) }

  /** `seen` with the path of each first visit, and the objects created so far. */
  datatype Walk = Walk(seen: map<nat, Path>, out: Heap)

  /** `unref`: a value met at `path`. */
  function Unref(g: Graph, v: Value<nat>, path: Path, w: Walk): (Value<Path>, Walk)
    decreases g.Keys - w.seen.Keys, 0, 0
  {
    match v
    case P(p) => (P(p), w)
    case Ref(id) =>
      if id in w.seen then (Ref(path), w.(out := w.out[path := RefNode(w.seen[id])]))
      else if id !in g then (P(Undefined), w)
      else
        var n := g[id];
        var seen := w.seen[id := path];
        assert id in g.Keys - w.seen.Keys && id !in g.Keys - seen.Keys;
        var (vals, w') := UnrefAll(g, n, 0, path, w.(seen := seen));
        (Ref(path), w'.(out := w'.out[path := Node(n.isArray, n.keys, vals)]))
  }

  /** The members of a node from the i-th on. */
  function UnrefAll(g: Graph, n: Node<nat>, i: nat, path: Path, w: Walk): (r: (seq<Value<Path>>, Walk))
    ensures w.seen.Keys <= r.1.seen.Keys
    ensures i <= |n.keys| == |n.vals| ==> |r.0| == |n.vals| - i
    decreases g.Keys - w.seen.Keys, 1, |n.vals| - i
  {
    if i >= |n.vals| || i >= |n.keys| then ([], w)
    else
      var (v, w1) := Unref(g, n.vals[i], path + [n.keys[i]], w);
      var (vs, w2) := UnrefAll(g, n, i + 1, path, w1);
      ([v] + vs, w2)
  }

  function DeCycle(g: Graph, root: nat): Heap { Unref(g, Ref(root), [], Walk(map[], map[])).1.out }

  /** Where each object was expanded. */
  function FirstVisits(g: Graph, root: nat): map<nat, Path> { Unref(g, Ref(root), [], Walk(map[], map[])).1.seen }

  // ---------------------------------------------------------------- retroCycle

  /** Reading a property: undefined when it is missing. */
  function Lookup(n: Node<Path>, text: string): Value<Path> {
    LookupFrom(n, text, 0)
  }

  function LookupFrom(n: Node<Path>, text: string, i: nat): Value<Path>
    decreases |n.keys| - i
  {
    if i >= |n.keys| || i >= |n.vals| then P(Undefined)
    else if Text(n.keys[i]) == text then n.vals[i]
    else LookupFrom(n, text, i + 1)
  }

  /** Evaluating a reference from a value on: reading from undefined or null throws. */
  function Eval(h: Heap, v: Value<Path>, texts: seq<string>): Option<Value<Path>>
    decreases |texts|
  {
    if texts == [] then Some(v)
    else match v
      case P(p) => if p.Undefined? || p.Null? then None else Eval(h, P(Undefined), texts[1..])
      case Ref(a) => if a in h then Eval(h, Lookup(h[a], texts[0]), texts[1..]) else None
  }

  /** What the pattern says about the item's `$ref`. */
  function RefOf(item: Node<Path>): Parsed {
    match Lookup(item, "$ref")
    case P(p) => if p.Str? then Parse(p.text) else NoMatch
    case Ref(_) => NoMatch
  }

  /** `hasOwnProperty` is called on every plain object that is walked. An own property of that name hides the
      inherited method, and calling it throws unless it is a function. */
  predicate Spoiled<A>(n: Node<A>) {
    !n.isArray && exists k :: 0 <= k < |n.keys| && k < |n.vals| && HidesMethod(n.keys[k], n.vals[k])
  }

  predicate HidesMethod<A>(key: Step, v: Value<A>) {
    Text(key) == "hasOwnProperty" && !(v.P? && v.prim.Fun?)
  }

  /** `rez` on the object at `a`, from its i-th member on, with room on the stack for `depth` more nested
      calls. Every item with a matching `$ref` is overwritten in place by the object the reference names
      in the heap as it is then; other objects are walked into, shared ones each time they are met. None:
      it threw, because an evaluation did, a plain object hides `hasOwnProperty`, or the stack was full. */
  function Rez(h: Heap, a: Path, i: nat, depth: nat): (r: Option<Heap>)
    requires a in h
    ensures r.Some? ==> r.value.Keys == h.Keys && forall b :: b in h ==> |r.value[b].vals| == |h[b].vals|
    decreases depth, |h[a].vals| - i
  {
    if i >= |h[a].vals| then Some(h)
    else if Spoiled(h[a]) then None
    else match h[a].vals[i]
      case P(_) => Rez(h, a, i + 1, depth)
      case Ref(x) =>
        if x !in h then None
        else match RefOf(h[x])
          case Throws => None
          case Keys(texts) =>
            var v := Eval(h, Ref([]), texts);
            if v.None? then None
            else Rez(h[a := h[a].(vals := h[a].vals[i := v.value])], a, i + 1, depth)
          case NoMatch =>
            if depth == 0 then None
            else
              var h' := Rez(h, x, 0, depth - 1);
              if h'.None? then None else Rez(h'.value, a, i + 1, depth)
  }

  /** The root itself is never taken for a reference. */
  function RetroCycle(h: Heap, depth: nat): Option<Heap> {
    if [] in h then Rez(h, [], 0, depth) else Some(h)
  }

  /** The stack is deep enough for a tree. */
  ghost predicate Fits(h: Heap, depth: nat) { forall a :: a in h ==> |a| <= depth }
}
