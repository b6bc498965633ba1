/**
 * The resolution semantics of the dependency-injection container
 * (internal/di/container.go), stated as pure functions over a World value:
 * the binding table, the singleton cache, the struct values that auto-wiring
 * writes into, and the log of factory invocations.
 *
 * Go reflection is replaced by data: a capability key is a string (what
 * getKey would print), a constructor is a list of argument keys with a fixed
 * outcome, and a struct is a sequence of field records.  Resolution depth is
 * bounded by `fuel`: the source recurses without a cycle check.
 */
module DiModel {
  import opened Wrappers

  type Key = string

  /** What reflect says about an instance: a plain value, a pointer to a struct, or another pointer. */
  datatype Shape = Plain | StructPtr | OtherPtr

  /** An opaque instance; `id` is its identity (the pointer), `typeName` its dynamic type. */
  datatype Instance = Instance(id: nat, typeName: string, shape: Shape)

  datatype FieldKind = InterfaceField | PointerField | OtherField

  /**
   * One field of a struct, as AutoWire sees it: the value of its `inject`
   * tag, whether it is embedded, its kind, the key its declared type resolves
   * to, whether reflect may set it, which dynamic types are assignable to it,
   * and its current value (None is the zero value).
   */
  datatype Field = Field(
    name: string,
    tag: string,
    anonymous: bool,
    kind: FieldKind,
    key: Key,
    settable: bool,
    accepts: set<string>,
    value: Option<Instance>)

  /**
   * A constructor function: the keys of its parameter types, how many results
   * it declares, and the two results it returns (the second only counts when
   * it declares two).
   */
  datatype Constructor = Constructor(args: seq<Key>, results: nat, value: Instance, err: Option<string>)

  /** A factory closure with an identity, whose invocations are logged, and its (instance, error) result. */
  datatype FactoryFn = FactoryFn(id: nat, value: Instance, err: Option<string>)

  /** The `concrete` of a binding: an instance to return as it is, or a constructor to call. */
  datatype Concrete = Ready(instance: Instance) | Call(ctor: Constructor)

  datatype Recipe = UseConcrete(concrete: Concrete) | UseFactory(factory: FactoryFn)

  datatype Binding = Binding(recipe: Recipe, shared: bool, tags: seq<string>)

  datatype DiError =
    | NotFound(key: Key)                      // "no binding found for %s"
    | BadArity                                // "constructor must return 1 or 2 values"
    | ArgFailed(index: nat, cause: DiError)   // "failed to resolve constructor arg %d: %w"
    | Raised(message: string)                 // the error a factory or constructor returned
    | NotPointer                              // "target must be a pointer"
    | NotStructPointer                        // "target must be a pointer to a struct"
    | FieldFailed(field: string, cause: DiError) // "failed to resolve %s: %w"
    | TooDeep                                 // fuel exhausted (Go would overflow its stack)
    | Panicked                                // getKey(nil) dereferenced a nil reflect.Type

  /**
   * Everything resolution reads or writes: the container's two maps, the
   * struct values behind struct pointers (keyed by instance id), and the
   * factory invocation log.
   */
  datatype World = World(
    bindings: map<Key, Binding>,
    singletons: map<Key, Instance>,
    structs: map<nat, seq<Field>>,
    calls: seq<nat>)

  /** A result together with the world it leaves behind. */
  datatype Resolved<+T> = Resolved(r: Result<T, DiError>, w: World)

  /** The fields of the struct behind pointer `id`; memory the model does not hold reads as a struct without fields. */
  function FieldsOf(w: World, id: nat): seq<Field>
  {
    if id in w.structs then w.structs[id] else []
  }

  /** `field.Set(v)` on field `i` of the struct behind `id`. */
  function SetField(w: World, id: nat, i: nat, v: Instance): (w': World)
    ensures w'.bindings == w.bindings && w'.singletons == w.singletons && w'.calls == w.calls
    ensures w'.structs.Keys == w.structs.Keys
    ensures |FieldsOf(w', id)| == |FieldsOf(w, id)|
    ensures i < |FieldsOf(w, id)| ==> FieldsOf(w', id)[i] == FieldsOf(w, id)[i].(value := Some(v))
    ensures forall j :: 0 <= j < |FieldsOf(w, id)| && j != i ==> FieldsOf(w', id)[j] == FieldsOf(w, id)[j]
    ensures forall id' :: id' != id ==> FieldsOf(w', id') == FieldsOf(w, id')
  {
    if id in w.structs && i < |w.structs[id]| then
      w.(structs := w.structs[id := w.structs[id][i := w.structs[id][i].(value := Some(v))]])
    else w
  }

  /** Whether `key` is bound to a shared (singleton) binding. */
  predicate SharedKey(w: World, key: Key)
  {
    key in w.bindings && w.bindings[key].shared
  }

  /**
   * MakeWith / Make: look the key up, answer from the cache for a shared
   * binding that has an entry, otherwise build it and cache the result of a
   * successful shared build.  The `params` of MakeWith never take effect (see
   * Di.Container.Build), so they do not appear here.
   */
  function Make(w: World, key: Key, fuel: nat): Resolved<Instance>
    decreases fuel, 0, 0
  {
    if key !in w.bindings then Resolved(Err(NotFound(key)), w)
    else
      var b := w.bindings[key];
      if b.shared && key in w.singletons then Resolved(Ok(w.singletons[key]), w)
      else if fuel == 0 then Resolved(Err(TooDeep), w)
      else
        var p := Instantiate(w, b.recipe, fuel - 1);
        if p.r.Ok? && b.shared then Resolved(p.r, p.w.(singletons := p.w.singletons[key := p.r.value]))
        else p
  }

  /** Calls the factory if the binding has one, otherwise builds its concrete. */
  function Instantiate(w: World, recipe: Recipe, fuel: nat): Resolved<Instance>
    decreases fuel, 4, 0
  {
    match recipe
    case UseFactory(f) =>
      var w' := w.(calls := w.calls + [f.id]);
      if f.err.Some? then Resolved(Err(Raised(f.err.value)), w') else Resolved(Ok(f.value), w')
    case UseConcrete(c) => Build(w, c, fuel)
  }

  /**
   * build: an instance is returned as it is (after auto-wiring it when it
   * points to a struct); a constructor must declare one or two results, gets
   * every argument from Make, fails with its error result when it declares
   * two and the second is non-nil, and its value is auto-wired when it is a
   * pointer of any kind.
   */
  function Build(w: World, concrete: Concrete, fuel: nat): Resolved<Instance>
    decreases fuel, 3, 0
  {
    match concrete
    case Ready(inst) =>
      if inst.shape == StructPtr then
        var a := AutoWire(w, inst, fuel);
        Resolved(if a.r.Err? then Err(a.r.error) else Ok(inst), a.w)
      else Resolved(Ok(inst), w)
    case Call(c) =>
      if c.results != 1 && c.results != 2 then Resolved(Err(BadArity), w)
      else
        var a := ResolveArgs(w, c.args, 0, [], fuel);
        if a.r.Err? then Resolved(Err(a.r.error), a.w)
        else if c.results == 2 && c.err.Some? then Resolved(Err(Raised(c.err.value)), a.w)
        else if c.value.shape != Plain then
          var aw := AutoWire(a.w, c.value, fuel);
          Resolved(if aw.r.Err? then Err(aw.r.error) else Ok(c.value), aw.w)
        else Resolved(Ok(c.value), a.w)
  }

  /** The argument loop of build from index `i` on, with the arguments resolved so far in `acc`. */
  function ResolveArgs(w: World, args: seq<Key>, i: nat, acc: seq<Instance>, fuel: nat): Resolved<seq<Instance>>
    decreases fuel, 2, |args| - i
  {
    if i >= |args| then Resolved(Ok(acc), w)
    else
      var m := Make(w, args[i], fuel);
      if m.r.Err? then Resolved(Err(if m.r.error.Panicked? then Panicked else ArgFailed(i, m.r.error)), m.w)
      else ResolveArgs(m.w, args, i + 1, acc + [m.r.value], fuel)
  }

  /** AutoWire: the target must be a pointer to a struct; then every field is visited in order. */
  function AutoWire(w: World, target: Instance, fuel: nat): Resolved<()>
    decreases fuel, 2, 0
  {
    if target.shape == Plain then Resolved(Err(NotPointer), w)
    else if target.shape == OtherPtr then Resolved(Err(NotStructPointer), w)
    else WireFrom(w, target.id, |FieldsOf(w, target.id)|, 0, fuel)
  }

  /** The field loop of AutoWire from field `i` of `n`; the first failure stops it. */
  function WireFrom(w: World, id: nat, n: nat, i: nat, fuel: nat): Resolved<()>
    decreases fuel, 1, n - i
  {
    if i >= n then Resolved(Ok(()), w)
    else
      var s := WireField(w, id, i, fuel);
      if s.r.Err? then s else WireFrom(s.w, id, n, i + 1, fuel)
  }

  /** Whether AutoWire tries to resolve field `f`: tagged or embedded, still zero, of interface or pointer kind. */
  predicate Eligible(f: Field)
  {
    (f.tag != "" || f.anonymous) && f.value.None? && f.kind != OtherField
  }

  /**
   * The per-field decision of AutoWire for field `i` of the struct behind
   * `id`, read from the current memory.  For a field of interface kind the
   * source asks reflect for the zero value of the interface, which is nil, so
   * Make receives a nil type and getKey panics on it: the panic is `Panicked`,
   * which no caller wraps and `optional` does not excuse.
   */
  function WireField(w: World, id: nat, i: nat, fuel: nat): Resolved<()>
    decreases fuel, 0, 1
  {
    var fs := FieldsOf(w, id);
    if i >= |fs| then Resolved(Ok(()), w)
    else
      var f := fs[i];
      if f.tag == "" && !f.anonymous then Resolved(Ok(()), w)
      else if f.value.Some? then Resolved(Ok(()), w)
      else if f.kind == OtherField then Resolved(Ok(()), w)
      else if f.kind == InterfaceField then Resolved(Err(Panicked), w)
      else StoreResolved(w, id, i, f, Make(w, f.key, fuel))
  }

  /** What AutoWire does with the outcome `m` of resolving field `f` (index `i`): skip, fail, or set the field. */
  function StoreResolved(w: World, id: nat, i: nat, f: Field, m: Resolved<Instance>): Resolved<()>
  {
    if m.r.Err? then
      if m.r.error.Panicked? then Resolved(Err(Panicked), m.w)
      else if f.tag == "optional" then Resolved(Ok(()), m.w)
      else Resolved(Err(FieldFailed(f.name, m.r.error)), m.w)
    else if f.settable && m.r.value.typeName in f.accepts then
      Resolved(Ok(()), SetField(m.w, id, i, m.r.value))
    else Resolved(Ok(()), m.w)
  }

  /**
   * The per-field decision as evidently intended: a field of interface kind
   * is resolved by its own interface type, as a pointer field is by its
   * pointee type, instead of by the nil that reflect yields for it.
   */
  function WireFieldIntended(w: World, id: nat, i: nat, fuel: nat): Resolved<()>
  {
    var fs := FieldsOf(w, id);
    if i >= |fs| then Resolved(Ok(()), w)
    else
      var f := fs[i];
      if !Eligible(f) then Resolved(Ok(()), w)
      else StoreResolved(w, id, i, f, Make(w, f.key, fuel))
  }

  /**
   * Tagged: the bindings are visited in `order` (Go's map order, which the
   * runtime picks); see TaggedTags for one binding.
   */
  function TaggedFrom(w: World, tag: string, order: seq<Key>, i: nat, acc: seq<Instance>, fuel: nat): Resolved<seq<Instance>>
    decreases |order| - i
  {
    if i >= |order| then Resolved(Ok(acc), w)
    else if order[i] !in w.bindings then TaggedFrom(w, tag, order, i + 1, acc, fuel)
    else
      var t := TaggedTags(w, order[i], w.bindings[order[i]], tag, 0, acc, fuel);
      if t.r.Err? then t else TaggedFrom(t.w, tag, order, i + 1, t.r.value, fuel)
  }

  /**
   * The inner loop of Tagged over the tags of binding `b` (bound at `key`):
   * every occurrence of `tag` adds the cached instance when `b` is shared and
   * cached, and otherwise a freshly built one, which is never cached.
   */
  function TaggedTags(w: World, key: Key, b: Binding, tag: string, j: nat, acc: seq<Instance>, fuel: nat): Resolved<seq<Instance>>
    decreases |b.tags| - j
  {
    if j >= |b.tags| then Resolved(Ok(acc), w)
    else if b.tags[j] != tag then TaggedTags(w, key, b, tag, j + 1, acc, fuel)
    else if b.shared && key in w.singletons then TaggedTags(w, key, b, tag, j + 1, acc + [w.singletons[key]], fuel)
    else
      var p := Instantiate(w, b.recipe, fuel);
      if p.r.Err? then Resolved(Err(p.r.error), p.w)
      else TaggedTags(p.w, key, b, tag, j + 1, acc + [p.r.value], fuel)
  }

  /** Tagged(tag), visiting the bindings in `order`. */
  function Tagged(w: World, tag: string, order: seq<Key>, fuel: nat): Resolved<seq<Instance>>
  {
    TaggedFrom(w, tag, order, 0, [], fuel)
  }
}
