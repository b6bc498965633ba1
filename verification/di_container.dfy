/**
 * The dependency-injection container of internal/di/container.go as a class
 * whose methods update its binding table and singleton cache in place.  Each
 * resolving method is proved to compute exactly what DiModel says, so the
 * properties proved in DiProperties hold of it.
 */
module Di {
  import opened Wrappers
  import opened DiModel

  /**
   * Program memory outside the container that resolution touches: the
   * struct values behind struct pointers, which AutoWire writes, and the log
   * of factory invocations (the counters a factory closure would keep).
   */
  class Heap {
    var structs: map<nat, seq<Field>>
    var calls: seq<nat>

    constructor (structs: map<nat, seq<Field>>)
      ensures this.structs == structs && calls == []
    {
      this.structs := structs;
      calls := [];
    }
  }

  class Container {
    var bindings: map<Key, Binding>
    var singletons: map<Key, Instance>

    /** NewContainer: both maps start empty. */
    constructor ()
      ensures bindings == map[] && singletons == map[]
    {
      bindings := map[];
      singletons := map[];
    }

    /** The world resolution sees: this container's maps together with `heap`. */
    function State(heap: Heap): World
      reads this, heap
    {
      World(bindings, singletons, heap.structs, heap.calls)
    }

    /** Bind: a non-shared, untagged binding to `concrete` replaces whatever `key` had. */
    method Bind(key: Key, concrete: Concrete) returns (err: Option<DiError>)
      modifies this
      ensures err == None
      ensures bindings == old(bindings)[key := Binding(UseConcrete(concrete), false, [])]
      ensures singletons == old(singletons)
    {
      bindings := bindings[key := Binding(UseConcrete(concrete), false, [])];
      err := None;
    }

    /** Singleton: as Bind, but shared; an instance already cached for `key` stays cached. */
    method Singleton(key: Key, concrete: Concrete) returns (err: Option<DiError>)
      modifies this
      ensures err == None
      ensures bindings == old(bindings)[key := Binding(UseConcrete(concrete), true, [])]
      ensures singletons == old(singletons)
    {
      bindings := bindings[key := Binding(UseConcrete(concrete), true, [])];
      err := None;
    }

    /** Factory: a non-shared, untagged binding that calls `factory`. */
    method Factory(key: Key, factory: FactoryFn) returns (err: Option<DiError>)
      modifies this
      ensures err == None
      ensures bindings == old(bindings)[key := Binding(UseFactory(factory), false, [])]
      ensures singletons == old(singletons)
    {
      bindings := bindings[key := Binding(UseFactory(factory), false, [])];
      err := None;
    }

    /** BindTagged: as Bind, carrying `tags`. */
    method BindTagged(key: Key, concrete: Concrete, tags: seq<string>) returns (err: Option<DiError>)
      modifies this
      ensures err == None
      ensures bindings == old(bindings)[key := Binding(UseConcrete(concrete), false, tags)]
      ensures singletons == old(singletons)
    {
      bindings := bindings[key := Binding(UseConcrete(concrete), false, tags)];
      err := None;
    }

    /** Has: whether `key` is bound; nothing is built. */
    method Has(key: Key) returns (found: bool)
      ensures found <==> key in bindings
    {
      found := key in bindings;
    }

    /** Make: MakeWith without parameters. */
    method Make(heap: Heap, key: Key, fuel: nat) returns (r: Result<Instance, DiError>)
      modifies this, heap
      ensures r == DiModel.Make(old(State(heap)), key, fuel).r
      ensures State(heap) == DiModel.Make(old(State(heap)), key, fuel).w
    {
      r := MakeWith(heap, key, map[], fuel);
    }

    /** MakeWith: resolves `key`; `params` only reach the top-level build, where they are overwritten. */
    method MakeWith(heap: Heap, key: Key, params: map<Key, Instance>, fuel: nat) returns (r: Result<Instance, DiError>)
      modifies this, heap
      decreases fuel, 0, 0
      ensures r == DiModel.Make(old(State(heap)), key, fuel).r
      ensures State(heap) == DiModel.Make(old(State(heap)), key, fuel).w
    {
      if key !in bindings {
        return Err(NotFound(key));
      }
      var b := bindings[key];
      if b.shared && key in singletons {
        return Ok(singletons[key]);
      }
      if fuel == 0 {
        return Err(TooDeep);
      }
      r := Instantiate(heap, b.recipe, params, fuel - 1);
      if r.Ok? && b.shared {
        singletons := singletons[key := r.value];
      }
    }

    /** The factory call or the build that MakeWith and Tagged share. */
    method Instantiate(heap: Heap, recipe: Recipe, params: map<Key, Instance>, fuel: nat) returns (r: Result<Instance, DiError>)
      modifies this, heap
      decreases fuel, 4, 0
      ensures r == DiModel.Instantiate(old(State(heap)), recipe, fuel).r
      ensures State(heap) == DiModel.Instantiate(old(State(heap)), recipe, fuel).w
    {
      match recipe
      case UseFactory(f) =>
        heap.calls := heap.calls + [f.id];
        r := if f.err.Some? then Err(Raised(f.err.value)) else Ok(f.value);
      case UseConcrete(c) =>
        r := Build(heap, c, params, fuel);
    }

    /**
     * build.  For a constructor, each argument slot is first filled from a
     * matching entry of `params` and then unconditionally overwritten by Make
     * (the `continue` of the source only continues the loop over `params`).
     */
    method Build(heap: Heap, concrete: Concrete, params: map<Key, Instance>, fuel: nat) returns (r: Result<Instance, DiError>)
      modifies this, heap
      decreases fuel, 3, 0
      ensures r == DiModel.Build(old(State(heap)), concrete, fuel).r
      ensures State(heap) == DiModel.Build(old(State(heap)), concrete, fuel).w
    {
      match concrete
      case Ready(inst) =>
        if inst.shape == StructPtr {
          var e := AutoWire(heap, inst, fuel);
          if e.Some? {
            return Err(e.value);
          }
        }
        return Ok(inst);
      case Call(c) =>
        if c.results != 1 && c.results != 2 {
          return Err(BadArity);
        }
        var args := new Instance[|c.args|];
        var i := 0;
        while i < |c.args|
          invariant 0 <= i <= |c.args|
          invariant DiModel.ResolveArgs(old(State(heap)), c.args, 0, [], fuel)
                 == DiModel.ResolveArgs(State(heap), c.args, i, args[..i], fuel)
        {
          ghost var done := args[..i];
          var pending := params.Keys;
          while pending != {}
            invariant args[..i] == done
            modifies args
            decreases pending
          {
            var k :| k in pending;
            if k == c.args[i] {
              args[i] := params[k];
            }
            pending := pending - {k};
          }
          var m := MakeWith(heap, c.args[i], map[], fuel);
          if m.Err? {
            return Err(if m.error.Panicked? then Panicked else ArgFailed(i, m.error));
          }
          args[i] := m.value;
          assert args[..i + 1] == done + [m.value];
          i := i + 1;
        }
        assert args[..i] == args[..];
        if c.results == 2 && c.err.Some? {
          return Err(Raised(c.err.value));
        }
        if c.value.shape != Plain {
          var e := AutoWire(heap, c.value, fuel);
          if e.Some? {
            return Err(e.value);
          }
        }
        return Ok(c.value);
    }

    /** AutoWire: returns the error the source returns, None for nil. */
    method AutoWire(heap: Heap, target: Instance, fuel: nat) returns (err: Option<DiError>)
      modifies this, heap
      decreases fuel, 2, 0
      ensures err == (var a := DiModel.AutoWire(old(State(heap)), target, fuel); if a.r.Err? then Some(a.r.error) else None)
      ensures State(heap) == DiModel.AutoWire(old(State(heap)), target, fuel).w
    {
      if target.shape == Plain {
        return Some(NotPointer);
      }
      if target.shape == OtherPtr {
        return Some(NotStructPointer);
      }
      var id := target.id;
      var n := |FieldsOf(State(heap), id)|;
      var i := 0;
      while i < n
        invariant 0 <= i <= n
        invariant DiModel.AutoWire(old(State(heap)), target, fuel) == WireFrom(State(heap), id, n, i, fuel)
      {
        var fs := if id in heap.structs then heap.structs[id] else [];
        if i < |fs| {
          var f := fs[i];
          if (f.tag != "" || f.anonymous) && f.value.None? && f.kind == InterfaceField {
            // getKey(reflect.TypeOf(nil)) panics
            return Some(Panicked);
          }
          if (f.tag != "" || f.anonymous) && f.value.None? && f.kind == PointerField {
            var m := MakeWith(heap, f.key, map[], fuel);
            if m.Err? {
              if m.error.Panicked? {
                return Some(Panicked);
              }
              if f.tag != "optional" {
                return Some(FieldFailed(f.name, m.error));
              }
            } else if f.settable && m.value.typeName in f.accepts {
              if id in heap.structs && i < |heap.structs[id]| {
                heap.structs := heap.structs[id := heap.structs[id][i := heap.structs[id][i].(value := Some(m.value))]];
              }
            }
          }
        }
        i := i + 1;
      }
      return None;
    }

    /**
     * Tagged: one instance per occurrence of `tag` in the tags of each
     * binding, the bindings visited in `order` (the runtime's map order).
     */
    method Tagged(heap: Heap, tag: string, order: seq<Key>, fuel: nat) returns (r: Result<seq<Instance>, DiError>)
      requires forall k :: k in bindings <==> k in order
      requires forall a, b :: 0 <= a < b < |order| ==> order[a] != order[b]
      modifies this, heap
      ensures r == DiModel.Tagged(old(State(heap)), tag, order, fuel).r
      ensures State(heap) == DiModel.Tagged(old(State(heap)), tag, order, fuel).w
    {
      var instances: seq<Instance> := [];
      var i := 0;
      while i < |order|
        invariant 0 <= i <= |order|
        invariant DiModel.Tagged(old(State(heap)), tag, order, fuel) == TaggedFrom(State(heap), tag, order, i, instances, fuel)
      {
        var key := order[i];
        if key in bindings {
          var b := bindings[key];
          var j := 0;
          while j < |b.tags|
            invariant 0 <= j <= |b.tags|
            invariant DiModel.Tagged(old(State(heap)), tag, order, fuel)
                   == (var t := TaggedTags(State(heap), key, b, tag, j, instances, fuel);
                       if t.r.Err? then t else TaggedFrom(t.w, tag, order, i + 1, t.r.value, fuel))
          {
            if b.tags[j] == tag {
              if b.shared && key in singletons {
                instances := instances + [singletons[key]];
              } else {
                var p := Instantiate(heap, b.recipe, map[], fuel);
                if p.Err? {
                  return Err(p.error);
                }
                instances := instances + [p.value];
              }
            }
            j := j + 1;
          }
        }
        i := i + 1;
      }
      return Ok(instances);
    }
  }
}
