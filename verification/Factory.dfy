/** Building an object: memoised resolution with a stack for cycle detection
    (packages/api/faker/src/Factory.ts). */
module Factories {
  import opened Wrappers
  import opened FactorySpec

  datatype Result = Built(value: Value) | CycleError(stack: seq<string>)

  /** What one build fills: the attributes of the object under construction and the resolved options. */
  class Build {
    const catalog: Catalog
    var object_: map<string, Value>
    var resolvedOptions: map<string, Value>

    constructor (catalog: Catalog)
      requires catalog.Valid()
      ensures this.catalog == catalog && Valid() && object_ == map[] && resolvedOptions == map[]
    {
      this.catalog := catalog;
      object_, resolvedOptions := map[], map[];
    }

    /** Every memoised value is the plain value of its name. */
    ghost predicate Valid() reads this {
      && catalog.Valid()
      && object_.Keys <= catalog.attrs.Keys && resolvedOptions.Keys <= catalog.opts.Keys
      && (forall n :: n in object_ ==> Acyclic(catalog, n) && object_[n] == Plain(catalog, n))
      && (forall n :: n in resolvedOptions ==> Acyclic(catalog, n) && resolvedOptions[n] == Plain(catalog, n))
      && Closed(catalog, object_.Keys, resolvedOptions.Keys)
    }

    ghost predicate Has(name: string) reads this {
      Resolved(catalog, object_.Keys, resolvedOptions.Keys, name)
    }

    /** `object[name] = value` */
    method SetAttribute(name: string, value: Value)
      requires Valid() && name in catalog.attrs && Acyclic(catalog, name) && value == Plain(catalog, name)
      requires forall d :: d in Deps(catalog, name) ==> Has(d)
      modifies this`object_
      ensures Valid() && object_ == old(object_)[name := value]
    {
      hide Closed, Resolved, Acyclic, Plain;
      ClosedGrows(catalog, object_.Keys, resolvedOptions.Keys, name);
      object_ := object_[name := value];
      assert object_.Keys == old(object_.Keys) + {name};
    }

    /** `resolvedOptions[name] = value` */
    method SetOption(name: string, value: Value)
      requires Valid() && name in catalog.opts && Acyclic(catalog, name) && value == Plain(catalog, name)
      requires forall d :: d in Deps(catalog, name) ==> Has(d)
      modifies this`resolvedOptions
      ensures Valid() && resolvedOptions == old(resolvedOptions)[name := value]
    {
      hide Closed, Resolved, Acyclic, Plain;
      ClosedGrows(catalog, object_.Keys, resolvedOptions.Keys, name);
      resolvedOptions := resolvedOptions[name := value];
      assert resolvedOptions.Keys == old(resolvedOptions.Keys) + {name};
    }

    /** `_Build` for the entry of `owner`. The stack is the walk of names being resolved below the name
        `top` that the build started with; `owner` is its end. */
    method BuildEntry(ghost top: string, owner: string, meta: Entry, stack: seq<string>) returns (r: Result)
      requires Valid() && Find(catalog, owner) == Some(meta)
      requires Walk(catalog, [top] + stack) && owner == ([top] + stack)[|stack|]
      modifies this`object_, this`resolvedOptions
      ensures Valid() && old(object_.Keys) <= object_.Keys && old(resolvedOptions.Keys) <= resolvedOptions.Keys
      ensures forall n :: n in resolvedOptions && n !in old(resolvedOptions) ==> Uses(catalog, top, n)
      ensures r.Built? ==> forall d :: d in Deps(catalog, owner) ==> Has(d)
      ensures r.Built? ==> Acyclic(catalog, owner) && r.value == Plain(catalog, owner)
      ensures r.CycleError? ==> CyclicWalk(catalog, top, [top] + r.stack)
      decreases catalog.Names() - OnStack(stack), 1
    {
      if meta.dependencies.None? {
        PlainIsBuilt(catalog, owner, []);
        return Built(meta.builder([]));
      }
      var args, cycle := BuildWithDependencies(top, owner, meta.dependencies.value, stack);
      if cycle.Some? {
        return CycleError(cycle.value);
      }
      PlainIsBuilt(catalog, owner, args);
      r := Built(meta.builder(args));
    }

    /** `_BuildWithDependencies`: the dependencies in order, each from the object, the resolved options,
        its option entry or its attribute entry, whichever is found first. */
    method BuildWithDependencies(ghost top: string, ghost owner: string, dependencies: seq<string>, stack: seq<string>)
      returns (args: seq<Value>, cycle: Option<seq<string>>)
      requires Valid() && dependencies == Deps(catalog, owner)
      requires Walk(catalog, [top] + stack) && owner == ([top] + stack)[|stack|]
      modifies this`object_, this`resolvedOptions
      ensures Valid() && old(object_.Keys) <= object_.Keys && old(resolvedOptions.Keys) <= resolvedOptions.Keys
      ensures forall n :: n in resolvedOptions && n !in old(resolvedOptions) ==> Uses(catalog, top, n)
      ensures cycle.None? ==>
                |args| == |dependencies| && forall d :: d in dependencies ==> Acyclic(catalog, d) && Has(d)
      ensures cycle.None? ==> forall i :: 0 <= i < |args| ==> args[i] == Plain(catalog, dependencies[i])
      ensures cycle.Some? ==> CyclicWalk(catalog, top, [top] + cycle.value)
      decreases catalog.Names() - OnStack(stack), 0
    {
      hide Closed, Acyclic, Plain, Walk, CyclicWalk, Uses;
      args, cycle := [], None;
      var i := 0;
      while i < |dependencies|
        invariant 0 <= i == |args| <= |dependencies| && cycle.None?
        invariant Valid() && old(object_.Keys) <= object_.Keys && old(resolvedOptions.Keys) <= resolvedOptions.Keys
        invariant forall n :: n in resolvedOptions && n !in old(resolvedOptions) ==> Uses(catalog, top, n)
        invariant forall k :: 0 <= k < i ==>
                    && Has(dependencies[k]) && Acyclic(catalog, dependencies[k])
                    && args[k] == Plain(catalog, dependencies[k])
      {
        var dep := dependencies[i];
        assert dep in Deps(catalog, owner);
        NextOnStack(top, stack, dep);
        if dep in stack {
          return args, Some(stack + [dep]);
        }
        var value: Value;
        if dep in object_ && object_[dep] != Undefined {
          value := object_[dep];
        } else if dep in resolvedOptions && resolvedOptions[dep] != Undefined {
          value := resolvedOptions[dep];
        } else if dep in catalog.opts {
          var r := BuildEntry(top, dep, catalog.opts[dep], stack + [dep]);
          if r.CycleError? {
            return args, Some(r.stack);
          }
          SetOption(dep, r.value);
          value := resolvedOptions[dep];
        } else if dep in catalog.attrs {
          var r := BuildEntry(top, dep, catalog.attrs[dep], stack + [dep]);
          if r.CycleError? {
            return args, Some(r.stack);
          }
          SetAttribute(dep, r.value);
          value := object_[dep];
        } else {
          value := Undefined;
          NoEntry(dep);
        }
        args := args + [value];
        i := i + 1;
      }
    }

    lemma NextOnStack(top: string, stack: seq<string>, dep: string)
      requires Walk(catalog, [top] + stack) && dep in Deps(catalog, ([top] + stack)[|stack|])
      ensures Walk(catalog, [top] + (stack + [dep])) && dep == ([top] + (stack + [dep]))[|stack| + 1]
      ensures Uses(catalog, top, dep)
      ensures dep in stack ==> CyclicWalk(catalog, top, [top] + (stack + [dep]))
      ensures dep !in stack && dep in catalog.Names() ==>
                catalog.Names() - OnStack(stack + [dep]) < catalog.Names() - OnStack(stack)
    {
      WalkGrows(catalog, [top] + stack, dep);
      assert [top] + stack + [dep] == [top] + (stack + [dep]);
      assert WalkTo(catalog, top, dep, [top] + (stack + [dep]));
      if dep !in stack && dep in catalog.Names() {
        assert dep in catalog.Names() - OnStack(stack) && dep !in catalog.Names() - OnStack(stack + [dep]);
      }
    }

    lemma StartOfWalk(name: string)
      ensures Walk(catalog, [name] + []) && name == ([name] + [])[0]
      ensures Acyclic(catalog, name) <==> !CycleFrom(catalog, name)
      ensures forall stack :: CyclicWalk(catalog, name, [name] + stack) ==> CycleFrom(catalog, name)
    {
      assert [name] + [] == [name];
      AcyclicIffNoCycle(catalog, name);
    }

    lemma NoEntry(name: string)
      requires Find(catalog, name).None?
      ensures Acyclic(catalog, name) && Plain(catalog, name) == Undefined
    {
      AcyclicIffDeps(catalog, name);
      assert Settles(catalog, name, 1);
      PlainIsEval(catalog, name, 1);
    }

    /** The attribute loop of `build`, in any order: it stops with the cycle error exactly when a cycle can
        be reached from one of the attributes, and otherwise gives every attribute its plain value. The
        options it resolves are those the attributes use. */
    method BuildAttributes(order: seq<string>) returns (ok: bool)
      requires Valid() && (forall a :: a in order ==> a in catalog.attrs) && resolvedOptions == map[]
      modifies this`object_, this`resolvedOptions
      ensures Valid()
      ensures ok <==> forall a :: a in order ==> !CycleFrom(catalog, a)
      ensures ok ==> forall a :: a in order ==> a in object_
      ensures forall o :: o in resolvedOptions ==> exists a :: a in order && Uses(catalog, a, o)
    {
      hide Closed, Acyclic, Plain, Uses, CycleFrom;
      var i := 0;
      while i < |order|
        invariant 0 <= i <= |order| && Valid()
        invariant forall k :: 0 <= k < i ==> order[k] in object_ && !CycleFrom(catalog, order[k])
        invariant forall o :: o in resolvedOptions ==> exists a :: a in order && Uses(catalog, a, o)
      {
        var attr := order[i];
        assert attr in order && Find(catalog, attr) == Some(catalog.attrs[attr]);
        StartOfWalk(attr);
        var r := BuildEntry(attr, attr, catalog.attrs[attr], []);
        if r.CycleError? {
          return false;
        }
        SetAttribute(attr, r.value);
        i := i + 1;
      }
      ok := true;
    }

    /** The option loop of `build`. */
    method BuildOptions(order: seq<string>) returns (ok: bool)
      requires Valid() && forall o :: o in order ==> o in catalog.opts
      modifies this`object_, this`resolvedOptions
      ensures Valid() && old(object_.Keys) <= object_.Keys
      ensures ok <==> forall o :: o in order ==> !CycleFrom(catalog, o)
      ensures ok ==> forall o :: o in order ==> o in resolvedOptions
    {
      hide Closed, Acyclic, Plain, Uses, CycleFrom;
      var i := 0;
      while i < |order|
        invariant 0 <= i <= |order| && Valid() && old(object_.Keys) <= object_.Keys
        invariant forall k :: 0 <= k < i ==> order[k] in resolvedOptions && !CycleFrom(catalog, order[k])
      {
        var opt := order[i];
        assert opt in order && Find(catalog, opt) == Some(catalog.opts[opt]);
        StartOfWalk(opt);
        var r := BuildEntry(opt, opt, catalog.opts[opt], []);
        if r.CycleError? {
          return false;
        }
        SetOption(opt, r.value);
        i := i + 1;
      }
      ok := true;
    }
  }

  /** What the caller of `build` gets. */
  datatype Outcome = Object(attributes: map<string, Value>, options: map<string, Value>) | Cycle

  ghost predicate Lists(order: seq<string>, names: set<string>) { forall n :: n in order <==> n in names }

  /** Everything built has its plain value. */
  ghost predicate AllPlain(c: Catalog, values: map<string, Value>) {
    forall n :: n in values ==> Acyclic(c, n) && values[n] == Plain(c, n)
  }

  ghost predicate SomeCycle(c: Catalog, names: set<string>) { exists n :: n in names && CycleFrom(c, n) }

  /** The option names that come out: those the attributes use, or all of them if they use none. */
  ghost predicate RightOptions(c: Catalog, options: set<string>) {
    if OptionUsed(c) then forall o :: o in options <==> o in c.opts && exists a :: a in c.attrs && Uses(c, a, o)
    else options == c.opts.Keys
  }

  /** `build`, whatever the order in which attributes and options were defined. Options are built in a loop
      of their own only if there are no attributes or none of them used an option. */
  method BuildObject(catalog: Catalog, attrOrder: seq<string>, optOrder: seq<string>) returns (r: Outcome)
    requires catalog.Valid() && Lists(attrOrder, catalog.attrs.Keys) && Lists(optOrder, catalog.opts.Keys)
    ensures r.Cycle? <==>
              SomeCycle(catalog, catalog.attrs.Keys) || (!OptionUsed(catalog) && SomeCycle(catalog, catalog.opts.Keys))
    ensures r.Object? ==> r.attributes.Keys == catalog.attrs.Keys && AllPlain(catalog, r.attributes)
    ensures r.Object? ==> RightOptions(catalog, r.options.Keys) && AllPlain(catalog, r.options)
  {
    hide CycleFrom, Acyclic, Plain, Uses, Closed, RightOptions, OptionUsed;
    var b := new Build(catalog);
    var ok := b.BuildAttributes(attrOrder);
    if !ok {
      return Cycle;
    }
    UsedOptionsAreResolved(b, attrOrder);
    if |attrOrder| == 0 || |b.resolvedOptions| == 0 {
      ok := b.BuildOptions(optOrder);
      if !ok {
        return Cycle;
      }
      AllOptionsAreRight(catalog, b.resolvedOptions.Keys);
    }
    r := Object(b.object_, b.resolvedOptions);
  }

  /** After the attribute loop exactly the used options are resolved. */
  lemma UsedOptionsAreResolved(b: Build, order: seq<string>)
    requires b.Valid() && Lists(order, b.catalog.attrs.Keys) && forall a :: a in order ==> a in b.object_
    requires forall o :: o in b.resolvedOptions ==> exists a :: a in order && Uses(b.catalog, a, o)
    ensures OptionUsed(b.catalog) <==> b.resolvedOptions.Keys != {}
    ensures b.resolvedOptions.Keys != {} ==> RightOptions(b.catalog, b.resolvedOptions.Keys)
    ensures |order| == 0 ==> b.resolvedOptions.Keys == {}
  {
    var c := b.catalog;
    forall a, o | a in c.attrs && o in c.opts && Uses(c, a, o) ensures o in b.resolvedOptions {
      var p :| WalkTo(c, a, o, p);
      ClosedHasUsed(c, b.object_.Keys, b.resolvedOptions.Keys, p);
    }
    forall o | o in b.resolvedOptions ensures exists a :: a in c.attrs && Uses(c, a, o) {
      var a :| a in order && Uses(c, a, o);
      assert a in c.attrs;
    }
  }

  lemma AllOptionsAreRight(c: Catalog, options: set<string>)
    requires options == c.opts.Keys && !OptionUsed(c)
    ensures RightOptions(c, options)
  {
  }
}
