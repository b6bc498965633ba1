/**
 * What resolution in the dependency-injection container guarantees, proved
 * about the semantics in DiModel (and so, through the method contracts in
 * Di, about the container itself).
 */
module DiProperties {
  import opened Wrappers
  import opened DiModel

  /** The cache entry for `k`, if any. */
  function CacheEntry(w: World, k: Key): Option<Instance>
  {
    if k in w.singletons then Some(w.singletons[k]) else None
  }

  /** `n` copies of `x`. */
  function Repeat<T>(x: T, n: nat): (s: seq<T>)
    ensures |s| == n && forall i :: 0 <= i < n ==> s[i] == x
  {
    if n == 0 then [] else [x] + Repeat(x, n - 1)
  }

  /** How many times `t` occurs in `tags`. */
  function Occurrences(tags: seq<string>, t: string): nat
  {
    if tags == [] then 0 else (if tags[0] == t then 1 else 0) + Occurrences(tags[1..], t)
  }

  /**
   * Field records keep their shape under resolution: same number of fields,
   * same everything but the value, and a field once set is never reset to zero.
   */
  ghost predicate FieldsKept(fs: seq<Field>, fs': seq<Field>)
  {
    && |fs'| == |fs|
    && forall i :: 0 <= i < |fs| ==> fs'[i] == fs[i].(value := fs'[i].value) && (fs[i].value.Some? ==> fs'[i].value.Some?)
  }

  /**
   * The invariant every resolution step keeps: the binding table is
   * untouched, cache entries are never evicted and those of keys that are
   * not bound shared never change, struct memory keeps its shape, and the
   * factory log only grows.
   */
  ghost predicate Extends(w: World, w': World)
  {
    && w'.bindings == w.bindings
    && w.singletons.Keys <= w'.singletons.Keys
    && (forall k :: !SharedKey(w, k) ==> CacheEntry(w', k) == CacheEntry(w, k))
    && w'.structs.Keys == w.structs.Keys
    && (forall id :: id in w.structs ==> FieldsKept(w.structs[id], w'.structs[id]))
    && w.calls <= w'.calls
  }

  lemma ExtendsRefl(w: World)
    ensures Extends(w, w)
  {
  }

  lemma ExtendsTrans(a: World, b: World, c: World)
    requires Extends(a, b) && Extends(b, c)
    ensures Extends(a, c)
  {
    forall id | id in a.structs
      ensures FieldsKept(a.structs[id], c.structs[id])
    {
      var fa, fb, fc := a.structs[id], b.structs[id], c.structs[id];
      assert FieldsKept(fa, fb) && FieldsKept(fb, fc);
      forall i | 0 <= i < |fa|
        ensures fc[i] == fa[i].(value := fc[i].value)
      {
        assert fb[i] == fa[i].(value := fb[i].value);
        assert fc[i] == fb[i].(value := fc[i].value);
      }
    }
    forall k | !SharedKey(a, k)
      ensures CacheEntry(c, k) == CacheEntry(a, k)
    {
      assert !SharedKey(b, k);
    }
  }

  lemma SetFieldExtends(w: World, id: nat, i: nat, v: Instance)
    ensures Extends(w, SetField(w, id, i, v))
  {
    var w' := SetField(w, id, i, v);
    forall id' | id' in w.structs
      ensures FieldsKept(w.structs[id'], w'.structs[id'])
    {
      assert FieldsOf(w, id') == w.structs[id'] && FieldsOf(w', id') == w'.structs[id'];
    }
    forall k | !SharedKey(w, k)
      ensures CacheEntry(w', k) == CacheEntry(w, k)
    {
    }
  }

  /** Resolving a key keeps the invariant (and so never changes the binding table). */
  lemma {:induction false} MakeExtends(w: World, key: Key, fuel: nat)
    ensures Extends(w, Make(w, key, fuel).w)
    decreases fuel, 0, 0
  {
    ExtendsRefl(w);
    if key in w.bindings {
      var b := w.bindings[key];
      if !(b.shared && key in w.singletons) && fuel > 0 {
        var p := Instantiate(w, b.recipe, fuel - 1);
        InstantiateExtends(w, b.recipe, fuel - 1);
        if p.r.Ok? && b.shared {
          var w' := p.w.(singletons := p.w.singletons[key := p.r.value]);
          assert Extends(p.w, w') by {
            forall k | !SharedKey(p.w, k)
              ensures CacheEntry(w', k) == CacheEntry(p.w, k)
            {
            }
          }
          ExtendsTrans(w, p.w, w');
        }
      }
    }
  }

  lemma {:induction false} InstantiateExtends(w: World, recipe: Recipe, fuel: nat)
    ensures Extends(w, Instantiate(w, recipe, fuel).w)
    decreases fuel, 4, 0
  {
    match recipe
    case UseFactory(f) =>
      var w' := w.(calls := w.calls + [f.id]);
      assert forall k :: CacheEntry(w', k) == CacheEntry(w, k);
    case UseConcrete(c) => BuildExtends(w, c, fuel);
  }

  lemma {:induction false} BuildExtends(w: World, concrete: Concrete, fuel: nat)
    ensures Extends(w, Build(w, concrete, fuel).w)
    decreases fuel, 3, 0
  {
    ExtendsRefl(w);
    match concrete
    case Ready(inst) =>
      if inst.shape == StructPtr {
        AutoWireExtends(w, inst, fuel);
      }
    case Call(c) =>
      if c.results == 1 || c.results == 2 {
        var a := ResolveArgs(w, c.args, 0, [], fuel);
        ResolveArgsExtends(w, c.args, 0, [], fuel);
        if a.r.Ok? && !(c.results == 2 && c.err.Some?) && c.value.shape != Plain {
          AutoWireExtends(a.w, c.value, fuel);
          ExtendsTrans(w, a.w, AutoWire(a.w, c.value, fuel).w);
        }
      }
  }

  lemma {:induction false} ResolveArgsExtends(w: World, args: seq<Key>, i: nat, acc: seq<Instance>, fuel: nat)
    ensures Extends(w, ResolveArgs(w, args, i, acc, fuel).w)
    decreases fuel, 2, |args| - i
  {
    ExtendsRefl(w);
    if i < |args| {
      var m := Make(w, args[i], fuel);
      MakeExtends(w, args[i], fuel);
      if m.r.Ok? {
        ResolveArgsExtends(m.w, args, i + 1, acc + [m.r.value], fuel);
        ExtendsTrans(w, m.w, ResolveArgs(m.w, args, i + 1, acc + [m.r.value], fuel).w);
      }
    }
  }

  lemma {:induction false} AutoWireExtends(w: World, target: Instance, fuel: nat)
    ensures Extends(w, AutoWire(w, target, fuel).w)
    decreases fuel, 2, 0
  {
    ExtendsRefl(w);
    if target.shape == StructPtr {
      WireFromExtends(w, target.id, |FieldsOf(w, target.id)|, 0, fuel);
    }
  }

  lemma {:induction false} WireFromExtends(w: World, id: nat, n: nat, i: nat, fuel: nat)
    ensures Extends(w, WireFrom(w, id, n, i, fuel).w)
    decreases fuel, 1, n - i
  {
    ExtendsRefl(w);
    if i < n {
      var s := WireField(w, id, i, fuel);
      WireFieldExtends(w, id, i, fuel);
      if s.r.Ok? {
        WireFromExtends(s.w, id, n, i + 1, fuel);
        ExtendsTrans(w, s.w, WireFrom(s.w, id, n, i + 1, fuel).w);
      }
    }
  }

  lemma {:induction false} WireFieldExtends(w: World, id: nat, i: nat, fuel: nat)
    ensures Extends(w, WireField(w, id, i, fuel).w)
    decreases fuel, 0, 1
  {
    ExtendsRefl(w);
    var fs := FieldsOf(w, id);
    if i < |fs| && Eligible(fs[i]) {
      var f := fs[i];
      var m := Make(w, f.key, fuel);
      MakeExtends(w, f.key, fuel);
      if m.r.Ok? && f.settable && m.r.value.typeName in f.accepts {
        SetFieldExtends(m.w, id, i, m.r.value);
        ExtendsTrans(w, m.w, SetField(m.w, id, i, m.r.value));
      }
    }
  }

  // ---------------------------------------------------------------- Make

  /** Make on an unbound key fails with NotFound and changes nothing. */
  lemma MakeUnbound(w: World, key: Key, fuel: nat)
    requires key !in w.bindings
    ensures Make(w, key, fuel) == Resolved(Err(NotFound(key)), w)
  {
  }

  /** A shared binding with a cache entry answers from the cache: no factory call, no build, no change. */
  lemma CachedMakeChangesNothing(w: World, key: Key, fuel: nat)
    requires SharedKey(w, key) && key in w.singletons
    ensures Make(w, key, fuel) == Resolved(Ok(w.singletons[key]), w)
  {
  }

  /** No resolution ever writes the cache entry of a key that is not bound shared. */
  lemma CacheOnlyForSharedKeys(w: World, key: Key, k: Key, fuel: nat)
    requires !SharedKey(w, k)
    ensures CacheEntry(Make(w, key, fuel).w, k) == CacheEntry(w, k)
  {
    MakeExtends(w, key, fuel);
  }

  /**
   * After a successful Make of a shared key the cache holds exactly the
   * instance returned, and every later Make returns that same instance and
   * changes nothing.
   */
  lemma SharedMakeIsStable(w: World, key: Key, fuel: nat, fuel': nat)
    requires SharedKey(w, key)
    requires Make(w, key, fuel).r.Ok?
    ensures var m := Make(w, key, fuel);
            && CacheEntry(m.w, key) == Some(m.r.value)
            && Make(m.w, key, fuel') == Resolved(m.r, m.w)
  {
    MakeExtends(w, key, fuel);
  }

  /** The world after `n` successive Makes of `key`. */
  function MakeTimes(w: World, key: Key, n: nat, fuel: nat): World
    decreases n
  {
    if n == 0 then w else MakeTimes(Make(w, key, fuel).w, key, n - 1, fuel)
  }

  /** A non-shared factory binding invokes its factory once per Make: n Makes, n invocations, cache untouched. */
  lemma {:induction false} FactoryCalledEachTime(w: World, key: Key, f: FactoryFn, n: nat, fuel: nat)
    requires key in w.bindings && w.bindings[key].recipe == UseFactory(f) && !w.bindings[key].shared
    requires fuel > 0
    ensures MakeTimes(w, key, n, fuel) == w.(calls := w.calls + Repeat(f.id, n))
    decreases n
  {
    if n > 0 {
      var w1 := Make(w, key, fuel).w;
      assert Instantiate(w, UseFactory(f), fuel - 1).w == w.(calls := w.calls + [f.id]);
      assert w1 == w.(calls := w.calls + [f.id]);
      FactoryCalledEachTime(w1, key, f, n - 1, fuel);
      assert w.calls + [f.id] + Repeat(f.id, n - 1) == w.calls + Repeat(f.id, n);
    }
  }

  /** A shared factory that succeeds is invoked once, however many Makes follow; its instance is cached. */
  lemma {:induction false} SharedFactoryCalledOnce(w: World, key: Key, f: FactoryFn, n: nat, fuel: nat)
    requires key in w.bindings && w.bindings[key].recipe == UseFactory(f) && w.bindings[key].shared
    requires key !in w.singletons && f.err.None?
    requires fuel > 0 && n >= 1
    ensures MakeTimes(w, key, n, fuel) == w.(calls := w.calls + [f.id], singletons := w.singletons[key := f.value])
  {
    var w1 := Make(w, key, fuel).w;
    assert Instantiate(w, UseFactory(f), fuel - 1) == Resolved(Ok(f.value), w.(calls := w.calls + [f.id]));
    assert w1 == w.(calls := w.calls + [f.id], singletons := w.singletons[key := f.value]);
    CachedRepeat(w1, key, n - 1, fuel);
  }

  lemma {:induction false} CachedRepeat(w: World, key: Key, n: nat, fuel: nat)
    requires SharedKey(w, key) && key in w.singletons
    ensures MakeTimes(w, key, n, fuel) == w
    decreases n
  {
    if n > 0 {
      CachedRepeat(w, key, n - 1, fuel);
    }
  }

  /** A shared factory that fails is never cached, so it is invoked again on every Make. */
  lemma {:induction false} FailingSharedFactoryRetried(w: World, key: Key, f: FactoryFn, n: nat, fuel: nat)
    requires key in w.bindings && w.bindings[key].recipe == UseFactory(f) && w.bindings[key].shared
    requires key !in w.singletons && f.err.Some?
    requires fuel > 0
    ensures MakeTimes(w, key, n, fuel) == w.(calls := w.calls + Repeat(f.id, n))
    decreases n
  {
    if n > 0 {
      var w1 := Make(w, key, fuel).w;
      assert Instantiate(w, UseFactory(f), fuel - 1).w == w.(calls := w.calls + [f.id]);
      assert w1 == w.(calls := w.calls + [f.id]);
      FailingSharedFactoryRetried(w1, key, f, n - 1, fuel);
      assert w.calls + [f.id] + Repeat(f.id, n - 1) == w.calls + Repeat(f.id, n);
    }
  }

  /**
   * Rebinding never clears the cache: after Singleton(k, a), Make(k),
   * Singleton(k, b), a further Make(k) still returns the instance built from a.
   */
  lemma RebindKeepsCachedInstance(w: World, key: Key, a: Concrete, b: Concrete, fuel: nat, fuel': nat)
    requires Make(w.(bindings := w.bindings[key := Binding(UseConcrete(a), true, [])]), key, fuel).r.Ok?
    ensures var w1 := w.(bindings := w.bindings[key := Binding(UseConcrete(a), true, [])]);
            var m := Make(w1, key, fuel);
            var w2 := m.w.(bindings := m.w.bindings[key := Binding(UseConcrete(b), true, [])]);
            Make(w2, key, fuel') == Resolved(m.r, w2)
  {
    var w1 := w.(bindings := w.bindings[key := Binding(UseConcrete(a), true, [])]);
    SharedMakeIsStable(w1, key, fuel, fuel);
  }

  // ---------------------------------------------------------------- build

  /** A constructor that does not declare one or two results is an error, before any argument is resolved. */
  lemma BuildRejectsArity(w: World, c: Constructor, fuel: nat)
    requires c.results != 1 && c.results != 2
    ensures Build(w, Call(c), fuel) == Resolved(Err(BadArity), w)
  {
  }

  /** A constructor that built successfully had every argument key bound. */
  lemma BuiltConstructorArgsAreBound(w: World, c: Constructor, fuel: nat)
    requires Build(w, Call(c), fuel).r.Ok?
    ensures forall k :: k in c.args ==> k in w.bindings
  {
    ResolvedArgsAreBound(w, c.args, 0, [], fuel);
  }

  lemma {:induction false} ResolvedArgsAreBound(w: World, args: seq<Key>, i: nat, acc: seq<Instance>, fuel: nat)
    requires ResolveArgs(w, args, i, acc, fuel).r.Ok?
    ensures forall j :: i <= j < |args| ==> args[j] in w.bindings
    ensures |ResolveArgs(w, args, i, acc, fuel).r.value| == |acc| + (if i <= |args| then |args| - i else 0)
    decreases |args| - i
  {
    if i < |args| {
      var m := Make(w, args[i], fuel);
      MakeExtends(w, args[i], fuel);
      ResolvedArgsAreBound(m.w, args, i + 1, acc + [m.r.value], fuel);
    }
  }

  /** A constructor declaring two results whose second is non-nil fails with that error once its arguments resolve. */
  lemma ConstructorErrorReturned(w: World, c: Constructor, fuel: nat)
    requires c.results == 2 && c.err.Some?
    requires ResolveArgs(w, c.args, 0, [], fuel).r.Ok?
    ensures Build(w, Call(c), fuel) == Resolved(Err(Raised(c.err.value)), ResolveArgs(w, c.args, 0, [], fuel).w)
  {
  }

  // ---------------------------------------------------------------- AutoWire

  /** AutoWire rejects a target that is not a pointer, or a pointer to something other than a struct, changing nothing. */
  lemma AutoWireRejectsNonStruct(w: World, target: Instance, fuel: nat)
    requires target.shape != StructPtr
    ensures AutoWire(w, target, fuel) == Resolved(Err(if target.shape == Plain then NotPointer else NotStructPointer), w)
  {
  }

  /**
   * The per-field decision: a field that is untagged and not embedded, already
   * set, or neither interface nor pointer is left alone without resolving
   * anything; an interface field panics before anything is resolved; for a
   * pointer field a failed resolution is skipped exactly when the tag is
   * "optional" and the failure is not a panic (which passes through), and a
   * resolved instance is stored exactly when the field is settable and the
   * instance is assignable to it.
   */
  lemma WireFieldDecision(w: World, id: nat, i: nat, fuel: nat)
    requires i < |FieldsOf(w, id)|
    ensures var f := FieldsOf(w, id)[i];
            var s := WireField(w, id, i, fuel);
            && (!Eligible(f) ==> s == Resolved(Ok(()), w))
            && (Eligible(f) && f.kind == InterfaceField ==> s == Resolved(Err(Panicked), w))
            && (Eligible(f) && f.kind == PointerField ==>
                  var m := Make(w, f.key, fuel);
                  && (m.r.Err? ==>
                        && s.w == m.w
                        && (s.r.Ok? <==> f.tag == "optional" && !m.r.error.Panicked?)
                        && (m.r.error.Panicked? ==> s.r == Err(Panicked)))
                  && (m.r.Ok? ==>
                        && s.r.Ok?
                        && |FieldsOf(s.w, id)| == |FieldsOf(m.w, id)|
                        && (f.settable && m.r.value.typeName in f.accepts && i < |FieldsOf(m.w, id)| ==>
                              FieldsOf(s.w, id)[i].value == Some(m.r.value))
                        && (!(f.settable && m.r.value.typeName in f.accepts) ==> s.w == m.w)))
  {
  }

  /** A field AutoWire never returns an error for: an optional pointer field, or one it does not consider at all. */
  predicate Tolerant(f: Field)
  {
    (f.tag == "optional" && f.kind == PointerField) || (f.tag == "" && !f.anonymous) || f.kind == OtherField
  }

  /**
   * AutoWire of a struct whose every field is an optional pointer or not
   * injectable never returns an error, whatever is bound: the only way it can
   * fail is a panic raised while resolving one of those fields.
   */
  lemma OptionalFieldsNeverFail(w: World, target: Instance, fuel: nat)
    requires target.shape == StructPtr
    requires forall f :: f in FieldsOf(w, target.id) ==> Tolerant(f)
    ensures var a := AutoWire(w, target, fuel); a.r.Ok? || a.r.error == Panicked
  {
    ExtendsRefl(w);
    TolerantWireFrom(w, w, target.id, |FieldsOf(w, target.id)|, 0, fuel);
  }

  lemma {:induction false} TolerantWireFrom(w0: World, w: World, id: nat, n: nat, i: nat, fuel: nat)
    requires Extends(w0, w)
    requires forall f :: f in FieldsOf(w0, id) ==> Tolerant(f)
    ensures var a := WireFrom(w, id, n, i, fuel); a.r.Ok? || a.r.error == Panicked
    decreases n - i
  {
    if i < n {
      var fs := FieldsOf(w, id);
      if i < |fs| {
        assert id in w0.structs;
        assert FieldsKept(w0.structs[id], w.structs[id]);
        assert fs[i] == FieldsOf(w0, id)[i].(value := fs[i].value);
        assert Tolerant(FieldsOf(w0, id)[i]);
      }
      var s := WireField(w, id, i, fuel);
      if s.r.Ok? {
        WireFieldExtends(w, id, i, fuel);
        ExtendsTrans(w0, w, s.w);
        TolerantWireFrom(w0, s.w, id, n, i + 1, fuel);
      }
    }
  }

  /**
   * A required (non-optional) injectable field whose key is unbound makes
   * AutoWire fail naming that field, when it is a pointer; an interface
   * field panics instead.
   */
  lemma RequiredUnboundFieldFails(w: World, target: Instance, fuel: nat)
    requires target.shape == StructPtr
    requires FieldsOf(w, target.id) != []
    requires var f := FieldsOf(w, target.id)[0]; Eligible(f) && f.tag != "optional" && f.key !in w.bindings
    ensures var f := FieldsOf(w, target.id)[0];
            AutoWire(w, target, fuel)
            == Resolved(Err(if f.kind == InterfaceField then Panicked else FieldFailed(f.name, NotFound(f.key))), w)
  {
    var f := FieldsOf(w, target.id)[0];
    assert Make(w, f.key, fuel) == Resolved(Err(NotFound(f.key)), w);
    assert WireField(w, target.id, 0, fuel)
        == Resolved(Err(if f.kind == InterfaceField then Panicked else FieldFailed(f.name, NotFound(f.key))), w);
  }

  /** Fields that AutoWire does not consider are passed over without any effect. */
  lemma {:induction false} SkipToField(w: World, id: nat, n: nat, i: nat, j: nat, fuel: nat)
    requires i <= j <= n && j <= |FieldsOf(w, id)|
    requires forall k :: i <= k < j ==> !Eligible(FieldsOf(w, id)[k])
    ensures WireFrom(w, id, n, i, fuel) == WireFrom(w, id, n, j, fuel)
    decreases j - i
  {
    if i < j {
      assert WireField(w, id, i, fuel) == Resolved(Ok(()), w);
      SkipToField(w, id, n, i + 1, j, fuel);
    }
  }

  /**
   * Injection into an interface field never happens: the first field AutoWire
   * considers, when it is of interface kind, makes it panic, even when the
   * field is optional, and nothing has changed by then.
   */
  lemma InterfaceFieldPanics(w: World, target: Instance, j: nat, fuel: nat)
    requires target.shape == StructPtr && j < |FieldsOf(w, target.id)|
    requires Eligible(FieldsOf(w, target.id)[j]) && FieldsOf(w, target.id)[j].kind == InterfaceField
    requires forall k :: 0 <= k < j ==> !Eligible(FieldsOf(w, target.id)[k])
    ensures AutoWire(w, target, fuel) == Resolved(Err(Panicked), w)
  {
    var n := |FieldsOf(w, target.id)|;
    SkipToField(w, target.id, n, 0, j, fuel);
  }

  /**
   * As intended, an interface field is wired like a pointer field: a resolved,
   * assignable instance is stored in it, a failed resolution of an optional
   * one is skipped, and that of a required one names the field.
   */
  lemma IntendedInterfaceFieldInjected(w: World, id: nat, i: nat, fuel: nat)
    requires i < |FieldsOf(w, id)|
    requires Eligible(FieldsOf(w, id)[i]) && FieldsOf(w, id)[i].kind == InterfaceField
    ensures var f := FieldsOf(w, id)[i];
            var m := Make(w, f.key, fuel);
            var s := WireFieldIntended(w, id, i, fuel);
            && (m.r.Ok? && f.settable && m.r.value.typeName in f.accepts ==>
                  s.r.Ok? && i < |FieldsOf(s.w, id)| && FieldsOf(s.w, id)[i].value == Some(m.r.value))
            && (m.r.Err? && !m.r.error.Panicked? ==>
                  s == Resolved(if f.tag == "optional" then Ok(()) else Err(FieldFailed(f.name, m.r.error)), m.w))
  {
    var f := FieldsOf(w, id)[i];
    var m := Make(w, f.key, fuel);
    MakeExtends(w, f.key, fuel);
    assert id in w.structs;
    assert FieldsKept(w.structs[id], m.w.structs[id]);
    assert i < |FieldsOf(m.w, id)|;
  }

  /** A struct whose fields are all set or never injected is left exactly as it is. */
  lemma {:induction false} NothingToWire(w: World, id: nat, n: nat, i: nat, fuel: nat)
    requires forall f :: f in FieldsOf(w, id) ==> !Eligible(f)
    ensures WireFrom(w, id, n, i, fuel) == Resolved(Ok(()), w)
    decreases n - i
  {
    if i < n {
      if i < |FieldsOf(w, id)| {
        assert FieldsOf(w, id)[i] in FieldsOf(w, id);
      }
      NothingToWire(w, id, n, i + 1, fuel);
    }
  }

  // ---------------------------------------------------------------- Tagged

  /** How many instances Tagged yields: one per occurrence of `tag` in the tags of each visited binding. */
  function TagCount(w: World, tag: string, order: seq<Key>): nat
  {
    if order == [] then 0
    else (if order[0] in w.bindings then Occurrences(w.bindings[order[0]].tags, tag) else 0) + TagCount(w, tag, order[1..])
  }

  lemma {:induction false} OccurrencesStep(tags: seq<string>, t: string, j: nat)
    requires j < |tags|
    ensures Occurrences(tags[j..], t) == (if tags[j] == t then 1 else 0) + Occurrences(tags[j + 1..], t)
  {
    assert tags[j..][1..] == tags[j + 1..];
  }

  lemma {:induction false} TaggedTagsCount(w: World, key: Key, b: Binding, tag: string, j: nat, acc: seq<Instance>, fuel: nat)
    requires j <= |b.tags|
    requires TaggedTags(w, key, b, tag, j, acc, fuel).r.Ok?
    ensures |TaggedTags(w, key, b, tag, j, acc, fuel).r.value| == |acc| + Occurrences(b.tags[j..], tag)
    ensures Extends(w, TaggedTags(w, key, b, tag, j, acc, fuel).w)
    decreases |b.tags| - j
  {
    if j == |b.tags| {
      ExtendsRefl(w);
    } else {
      OccurrencesStep(b.tags, tag, j);
      if b.tags[j] != tag || (b.shared && key in w.singletons) {
        var acc' := if b.tags[j] != tag then acc else acc + [w.singletons[key]];
        TaggedTagsCount(w, key, b, tag, j + 1, acc', fuel);
      } else {
        var p := Instantiate(w, b.recipe, fuel);
        InstantiateExtends(w, b.recipe, fuel);
        TaggedTagsCount(p.w, key, b, tag, j + 1, acc + [p.r.value], fuel);
        ExtendsTrans(w, p.w, TaggedTags(p.w, key, b, tag, j + 1, acc + [p.r.value], fuel).w);
      }
    }
  }

  lemma {:induction false} TaggedFromCount(w: World, tag: string, order: seq<Key>, i: nat, acc: seq<Instance>, fuel: nat)
    requires i <= |order|
    requires TaggedFrom(w, tag, order, i, acc, fuel).r.Ok?
    ensures |TaggedFrom(w, tag, order, i, acc, fuel).r.value| == |acc| + TagCount(w, tag, order[i..])
    decreases |order| - i
  {
    if i < |order| {
      assert order[i..][1..] == order[i + 1..];
      if order[i] !in w.bindings {
        TaggedFromCount(w, tag, order, i + 1, acc, fuel);
      } else {
        var t := TaggedTags(w, order[i], w.bindings[order[i]], tag, 0, acc, fuel);
        TaggedTagsCount(w, order[i], w.bindings[order[i]], tag, 0, acc, fuel);
        assert w.bindings[order[i]].tags[0..] == w.bindings[order[i]].tags;
        TaggedFromCount(t.w, tag, order, i + 1, t.r.value, fuel);
        TagCountSameBindings(w, t.w, tag, order[i + 1..]);
      }
    }
  }

  lemma {:induction false} TagCountSameBindings(w: World, w': World, tag: string, order: seq<Key>)
    requires w.bindings == w'.bindings
    ensures TagCount(w, tag, order) == TagCount(w', tag, order)
  {
    if order != [] {
      TagCountSameBindings(w, w', tag, order[1..]);
    }
  }

  /** A successful Tagged yields one instance per (binding, occurrence of the tag in its tags). */
  lemma TaggedYieldsOnePerOccurrence(w: World, tag: string, order: seq<Key>, fuel: nat)
    requires Tagged(w, tag, order, fuel).r.Ok?
    ensures |Tagged(w, tag, order, fuel).r.value| == TagCount(w, tag, order)
  {
    TaggedFromCount(w, tag, order, 0, [], fuel);
    assert order[0..] == order;
  }

  /** A shared binding that is already cached contributes its cached instance for every occurrence, changing nothing. */
  lemma {:induction false} TaggedCachedBinding(w: World, key: Key, b: Binding, tag: string, j: nat, acc: seq<Instance>, fuel: nat)
    requires b.shared && key in w.singletons && j <= |b.tags|
    ensures TaggedTags(w, key, b, tag, j, acc, fuel)
            == Resolved(Ok(acc + Repeat(w.singletons[key], Occurrences(b.tags[j..], tag))), w)
    decreases |b.tags| - j
  {
    if j == |b.tags| {
      assert acc + Repeat(w.singletons[key], 0) == acc;
    } else {
      OccurrencesStep(b.tags, tag, j);
      var acc' := if b.tags[j] == tag then acc + [w.singletons[key]] else acc;
      TaggedCachedBinding(w, key, b, tag, j + 1, acc', fuel);
      var n := Occurrences(b.tags[j + 1..], tag);
      if b.tags[j] == tag {
        assert acc + [w.singletons[key]] + Repeat(w.singletons[key], n) == acc + Repeat(w.singletons[key], n + 1);
      }
    }
  }

  /**
   * Tagged never caches: a factory binding that is not cached, even a shared
   * one, is invoked once per occurrence of the tag and the cache is left alone.
   */
  lemma {:induction false} TaggedFactoryNeverCaches(w: World, key: Key, b: Binding, f: FactoryFn, tag: string, j: nat, acc: seq<Instance>, fuel: nat)
    requires b.recipe == UseFactory(f) && f.err.None?
    requires key !in w.singletons && j <= |b.tags|
    ensures var n := Occurrences(b.tags[j..], tag);
            TaggedTags(w, key, b, tag, j, acc, fuel)
            == Resolved(Ok(acc + Repeat(f.value, n)), w.(calls := w.calls + Repeat(f.id, n)))
    decreases |b.tags| - j
  {
    if j == |b.tags| {
      assert acc + Repeat(f.value, 0) == acc;
      assert w.(calls := w.calls + Repeat(f.id, 0)) == w;
    } else {
      OccurrencesStep(b.tags, tag, j);
      var n := Occurrences(b.tags[j + 1..], tag);
      if b.tags[j] == tag {
        var w1 := w.(calls := w.calls + [f.id]);
        TaggedFactoryNeverCaches(w1, key, b, f, tag, j + 1, acc + [f.value], fuel);
        assert acc + [f.value] + Repeat(f.value, n) == acc + Repeat(f.value, n + 1);
        assert w.calls + [f.id] + Repeat(f.id, n) == w.calls + Repeat(f.id, n + 1);
      } else {
        TaggedFactoryNeverCaches(w, key, b, f, tag, j + 1, acc, fuel);
      }
    }
  }

  /** A failing factory on a tagged, uncached binding aborts Tagged with that factory's error. */
  lemma {:induction false} TaggedAbortsOnError(w: World, key: Key, b: Binding, f: FactoryFn, tag: string, j: nat, acc: seq<Instance>, fuel: nat)
    requires b.recipe == UseFactory(f) && f.err.Some?
    requires !(b.shared && key in w.singletons) && j <= |b.tags|
    requires Occurrences(b.tags[j..], tag) > 0
    ensures TaggedTags(w, key, b, tag, j, acc, fuel).r == Err(Raised(f.err.value))
    decreases |b.tags| - j
  {
    OccurrencesStep(b.tags, tag, j);
    if b.tags[j] != tag {
      TaggedAbortsOnError(w, key, b, f, tag, j + 1, acc, fuel);
    }
  }
}
