/** Graphs that do not come back from `deCycle` and `retroCycle`
    (packages/api/utils/src/cycle/cycle.ts). */
module CycleCases {
  import opened Wrappers
  import opened Paths
  import opened CycleSpec
  import opened DeCycleRuns
  import opened RoundTrip

  // ---------------------------------------------------------------- an object that hides the method

  const HIDING: Graph := map[0 := Node(false, [Name("hasOwnProperty")], [P(Atom(1))])]

  /** `{ hasOwnProperty: 1 }` */
  lemma HidingThrows(depth: nat)
    ensures RetroCycle(DeCycle(HIDING, 0), depth).None?
  {
    var n := HIDING[0];
    var w := Walk(map[0 := []], map[]);
    assert n.vals[0] == P(Atom(1));
    assert Unref(HIDING, P(Atom(1)), [] + [n.keys[0]], w) == (P(Atom(1)), w);
    assert UnrefAll(HIDING, n, 1, [], w) == ([], w);
    assert UnrefAll(HIDING, n, 0, [], w) == ([P(Atom(1))] + [], w);
    var out := DeCycle(HIDING, 0);
    assert out[[]].vals == [P(Atom(1))] && !out[[]].isArray && out[[]].keys == n.keys;
    assert HidesMethod(out[[]].keys[0], out[[]].vals[0]);
  }

  // ---------------------------------------------------------------- an array element met again

  const MET_AGAIN: Graph := map[
    0 := Node(false, [Name("list"), Name("again")], [Ref(1), Ref(2)]),
    1 := Node(true, [Idx(0)], [Ref(2)]),
    2 := Node(false, [], [])]

  /** `const x = {}; ({ list: [x], again: x })` */
  lemma MetAgainIsFirstMetInTheList()
    ensures 0 in FirstVisits(MET_AGAIN, 0) && FirstVisits(MET_AGAIN, 0)[0] == []
    ensures 2 in FirstVisits(MET_AGAIN, 0) && FirstVisits(MET_AGAIN, 0)[2] == [Name("list"), Idx(0)]
  {
    var g := MET_AGAIN;
    var p1: Path := [Name("list")];
    var p2: Path := [Name("list"), Idx(0)];
    var w0 := Walk(map[0 := []], map[]);
    var w1 := Walk(map[0 := [], 1 := p1], map[]);
    var w2 := Walk(map[0 := [], 1 := p1, 2 := p2], map[]);
    var w3 := w2.(out := w2.out[p2 := Node(false, [], [])]);
    assert UnrefAll(g, g[2], 0, p2, w2) == ([], w2);
    assert Unref(g, Ref(2), p2, w1) == (Ref(p2), w3) by { assert w1.seen[2 := p2] == w2.seen; }
    assert UnrefAll(g, g[1], 1, p1, w3) == ([], w3);
    assert p1 + [g[1].keys[0]] == p2;
    assert UnrefAll(g, g[1], 0, p1, w1) == ([Ref(p2)] + [], w3);
    var w4 := w3.(out := w3.out[p1 := Node(true, g[1].keys, [Ref(p2)] + [])]);
    assert Unref(g, Ref(1), p1, w0) == (Ref(p1), w4) by { assert w0.seen[1 := p1] == w1.seen; }
    assert [] + [g[0].keys[0]] == p1;
    var (vs, w5) := UnrefAll(g, g[0], 1, [], w4);
    var last := Unref(g, Ref(2), [] + [g[0].keys[1]], w4).1;
    assert last.seen == w4.seen && UnrefAll(g, g[0], 2, [], last) == ([], last);
    assert w5 == last;
    assert UnrefAll(g, g[0], 0, [], w0).1 == w5;
  }

  lemma MetAgainDoesNotComeBack(depth: nat)
    requires Fits(DeCycle(MET_AGAIN, 0), depth)
    ensures RetroCycle(DeCycle(MET_AGAIN, 0), depth).Some?
    ensures !Isomorphic(MET_AGAIN, 0, RetroCycle(DeCycle(MET_AGAIN, 0), depth).value)
  {
    hide Isomorphic, RetroCycle, DeCycle, FirstVisits, Reachable, Fits;
    MetAgainIsPlain();
    MetAgainIsFirstMetInTheList();
    var w := FullWalk(MET_AGAIN, 0);
    assert [Name("list"), Idx(0)][1] == Idx(0);
    assert Slot(MET_AGAIN, w, 0, 1) && !AllNames([Name("list"), Idx(0)]);
    assert !Readable(MET_AGAIN, w, 0, 1);
    RetroSucceedsIffNobodyHides(MET_AGAIN, 0, depth);
    RoundTripIffReadable(MET_AGAIN, 0, depth);
  }

  lemma MetAgainIsPlain()
    ensures GraphOk(MET_AGAIN) && 0 in MET_AGAIN && NoOwnRefs(MET_AGAIN, 0) && NobodyHides(MET_AGAIN, 0)
  {
    hide Reachable;
    assert Text(Idx(0)) == "0" && "list"[0] != "again"[0] && "list"[0] != "$ref"[0] && "again"[0] != "$ref"[0];
    assert "list"[0] != "hasOwnProperty"[0] && "again"[0] != "hasOwnProperty"[0];
    forall id | id in MET_AGAIN
      ensures NodeOk(MET_AGAIN, MET_AGAIN[id]) && !HasMatchingRef(MET_AGAIN[id]) && !Spoiled(MET_AGAIN[id])
    {
    }
  }

  // ---------------------------------------------------------------- a reference beyond the objects

  /** A reference that goes on behind a value that is no object: one step reads undefined, or throws on
      undefined and null, and two steps throw. */
  lemma ReadingFromAPrim(h: Heap, p: Prim, texts: seq<string>)
    requires texts != []
    ensures Eval(h, P(p), texts) == if p == Undefined || p == Null || |texts| > 1 then None else Some(P(Undefined))
  {
    if |texts| > 1 { assert texts[1..] != []; }
  }

  // ---------------------------------------------------------------- an object with a reference of its own

  const PLACE: Path := [Name("a")]

  /** `{ a: { $ref: text } }` */
  function OwnRef(text: string): Graph {
    map[0 := Node(false, [Name("a")], [Ref(1)]), 1 := Node(false, [REF], [P(Str(text))])]
  }

  /** The copied tree with `v` in place of the member `a`. */
  function TreeWith(text: string, v: Value<Path>): Heap {
    map[PLACE := Node(false, [REF], [P(Str(text))]), [] := Node(false, [Name("a")], [v])]
  }

  lemma OwnRefIsCopied(text: string)
    ensures DeCycle(OwnRef(text), 0) == TreeWith(text, Ref(PLACE))
  {
    var g := OwnRef(text);
    var w0 := Walk(map[0 := []], map[]);
    var w1 := Walk(map[0 := [], 1 := PLACE], map[]);
    assert UnrefAll(g, g[1], 1, PLACE, w1) == ([], w1);
    assert Unref(g, g[1].vals[0], PLACE + [g[1].keys[0]], w1) == (P(Str(text)), w1);
    assert UnrefAll(g, g[1], 0, PLACE, w1) == ([P(Str(text))] + [], w1);
    var w2 := w1.(out := map[PLACE := Node(false, [REF], [P(Str(text))] + [])]);
    assert Unref(g, Ref(1), PLACE, w0) == (Ref(PLACE), w2) by { assert w0.seen[1 := PLACE] == w1.seen; }
    assert [] + [g[0].keys[0]] == PLACE;
    assert UnrefAll(g, g[0], 1, [], w2) == ([], w2);
    assert UnrefAll(g, g[0], 0, [], w0) == ([Ref(PLACE)] + [], w2);
    var member: Value<Path> := P(Str(text));
    assert [member] + [] == [member] && [Ref(PLACE)] + [] == [Ref(PLACE)];
    assert Walk(map[], map[]).seen[0 := []] == w0.seen;
    assert DeCycle(g, 0) == w2.out[[] := Node(false, g[0].keys, [Ref(PLACE)] + [])];
  }

  /** Only the object itself in its own place is the graph again. */
  lemma OnlyItselfIsIsomorphic(text: string, v: Value<Path>)
    ensures Isomorphic(OwnRef(text), 0, TreeWith(text, v)) <==> v == Ref(PLACE)
  {
    var g, h := OwnRef(text), TreeWith(text, v);
    if m :| IsoVia(g, 0, h, m) {
      assert SameValue(m, g[0].vals[0], h[m[0]].vals[0]);
      assert m[1] in h && m[1] != [];
    }
    if v == Ref(PLACE) {
      var m: map<nat, Path> := map[0 := [], 1 := PLACE];
      forall id, k: nat | id in m && k < |g[id].vals| ensures SameValue(m, g[id].vals[k], h[m[id]].vals[k]) {}
      assert IsoVia(g, 0, h, m);
    }
  }

  lemma {:induction false} PrimsLeadNowhere(h: Heap, p: Prim, texts: seq<string>)
    ensures Eval(h, P(p), texts).Some? ==> Eval(h, P(p), texts).value.P?
    decreases |texts|
  {
    if texts != [] && !p.Undefined? && !p.Null? { PrimsLeadNowhere(h, Undefined, texts[1..]); }
  }

  /** Only the one name leads from the root to the object. */
  lemma OnlyOneNameLeadsThere(text: string, texts: seq<string>)
    ensures Eval(TreeWith(text, Ref(PLACE)), Ref([]), texts) == Some(Ref(PLACE)) <==> texts == ["a"]
  {
    var h := TreeWith(text, Ref(PLACE));
    if texts != [] {
      MemberOfRoot(text, texts[0]);
      if texts[0] != "a" {
        PrimsLeadNowhere(h, Undefined, texts[1..]);
      } else if |texts| > 1 {
        MemberIsPrim(text, texts[1]);
        var p := Lookup(h[PLACE], texts[1]).prim;
        PrimsLeadNowhere(h, p, texts[2..]);
        assert texts[1..][1..] == texts[2..];
        assert Eval(h, Ref(PLACE), texts[1..]) == Eval(h, P(p), texts[2..]);
      } else {
        assert texts[1..] == [];
      }
    }
  }

  lemma MemberOfRoot(text: string, name: string)
    ensures Lookup(TreeWith(text, Ref(PLACE))[[]], name) == if name == "a" then Ref(PLACE) else P(Undefined)
  {
    var n := TreeWith(text, Ref(PLACE))[[]];
    assert LookupFrom(n, name, 1) == P(Undefined);
  }

  lemma MemberIsPrim(text: string, name: string)
    ensures Lookup(TreeWith(text, Ref(PLACE))[PLACE], name).P?
    ensures name == "$ref" ==> Lookup(TreeWith(text, Ref(PLACE))[PLACE], name) == P(Str(text))
  {
    var n := TreeWith(text, Ref(PLACE))[PLACE];
    assert LookupFrom(n, name, 1) == P(Undefined);
  }

  /** `{ a: { $ref: text } }` comes back exactly when the reader's pattern rejects the text, or the text names
      the object under `a`. */
  lemma OwnRefComesBackIff(text: string, depth: nat)
    requires depth > 0
    ensures var r := RetroCycle(DeCycle(OwnRef(text), 0), depth);
            (r.Some? && Isomorphic(OwnRef(text), 0, r.value))
              <==> (Parse(text) == NoMatch || Parse(text) == Keys(["a"]))
  {
    hide Isomorphic, Parse, DeCycle, Eval;
    OwnRefIsCopied(text);
    var h := TreeWith(text, Ref(PLACE));
    MemberIsPrim(text, "$ref");
    assert RefOf(h[PLACE]) == Parse(text);
    assert !Spoiled(h[[]]) && !Spoiled(h[PLACE]);
    OnlyItselfIsIsomorphic(text, Ref(PLACE));
    match Parse(text)
    case Throws =>
    case NoMatch =>
      assert Rez(h, PLACE, 1, depth - 1) == Some(h);
      assert Rez(h, PLACE, 0, depth - 1) == Some(h);
      assert Rez(h, [], 1, depth) == Some(h);
    case Keys(texts) =>
      OnlyOneNameLeadsThere(text, texts);
      var v := Eval(h, Ref([]), texts);
      if v.Some? {
        OnlyItselfIsIsomorphic(text, v.value);
        var h' := TreeWith(text, v.value);
        assert h[[]].vals[0 := v.value] == [v.value];
        assert h[[] := h[[]].(vals := h[[]].vals[0 := v.value])] == h';
        assert Rez(h', [], 1, depth) == Some(h');
      }
  }

  /** `$` names the root, `$["a"]` the object. */
  lemma TwoTexts()
    ensures Parse("$") == Keys([]) && Parse("$[\"a\"]") == Keys(["a"])
  {
    var rest := "[\"a\"]";
    assert "$[\"a\"]"[1..] == rest && rest[2..] == "a\"]";
    assert "a\"]"[1..] == "\"]" && "\"]"[1..] == "]" && "]"[1..] == "";
    assert "$"[1..] == "";
    assert ScanString("\"]") == Scanned(Some(""), "]");
    assert ['a'] + "" == "a";
    assert ScanString("a\"]") == Scanned(Some("a"), "]");
    assert ParseSteps("") == Keys([]);
  }

  /** So `{ a: { $ref: "$" } }` does not come back, and `{ a: { $ref: '$["a"]' } }` does. */
  lemma TwoOwnRefs(depth: nat)
    requires depth > 0
    ensures var r := RetroCycle(DeCycle(OwnRef("$"), 0), depth);
            !(r.Some? && Isomorphic(OwnRef("$"), 0, r.value))
    ensures var r := RetroCycle(DeCycle(OwnRef("$[\"a\"]"), 0), depth);
            r.Some? && Isomorphic(OwnRef("$[\"a\"]"), 0, r.value)
  {
    hide Isomorphic, Parse, DeCycle, RetroCycle, OwnRef;
    TwoTexts();
    OwnRefComesBackIff("$", depth);
    OwnRefComesBackIff("$[\"a\"]", depth);
  }
}
