/**
 * The component registry of internal/registry/component_registry.go: a
 * name-keyed table of package components, and the registration loop of
 * LoadFromManifest, which fills a component's empty fields from its manifest
 * before registering it.  Reading and parsing the manifest file are outside
 * the model: LoadFromManifest receives their outcome.
 */
module Registry {
  import opened Wrappers

  datatype Component = Component(
    name: string,
    version: string,
    ctype: string,
    path: string,
    handlers: seq<string>,
    templates: seq<string>,
    routes: seq<string>,
    assets: seq<string>,
    metadata: map<string, string>)

  /** The parts of a package manifest the registration loop reads. */
  datatype Manifest = Manifest(name: string, version: string, mtype: string, components: seq<Component>)

  datatype RegistryError =
    | NameRequired                                        // "component name is required"
    | NotFound(name: string)                              // "component %s not found"
    | ReadFailed(cause: string)                           // "failed to read manifest: %w"
    | ParseFailed(cause: string)                          // "failed to parse manifest: %w"
    | RegisterFailed(name: string, reason: RegistryError) // "failed to register component %s: %w"

  /** Empty name, version and type come from the manifest, an empty path is the manifest's path; all else is kept. */
  function WithDefaults(c: Component, m: Manifest, path: string): Component
  {
    c.(name := if c.name == "" then m.name else c.name,
       version := if c.version == "" then m.version else c.version,
       ctype := if c.ctype == "" then m.mtype else c.ctype,
       path := if c.path == "" then path else c.path)
  }

  /** Every entry is stored under its own, non-empty, name. */
  predicate Keyed(components: map<string, Component>)
  {
    forall k :: k in components ==> k != "" && components[k].name == k
  }

  /** The table and error that registering `cs` (in order, each with defaults) into `reg` leaves: the first failure stops it, with no rollback. */
  datatype Loaded = Loaded(components: map<string, Component>, err: Option<RegistryError>)

  function RegisterAll(reg: map<string, Component>, cs: seq<Component>, m: Manifest, path: string): Loaded
    decreases |cs|
  {
    if cs == [] then Loaded(reg, None)
    else
      var c := WithDefaults(cs[0], m, path);
      if c.name == "" then Loaded(reg, Some(RegisterFailed(c.name, NameRequired)))
      else RegisterAll(reg[c.name := c], cs[1..], m, path)
  }

  /** LoadFromManifest on the outcome of reading and parsing: a read or parse error comes back before anything is registered. */
  function Load(reg: map<string, Component>, parsed: Result<Manifest, RegistryError>, path: string): Loaded
  {
    if parsed.Err? then Loaded(reg, Some(parsed.error))
    else RegisterAll(reg, parsed.value.components, parsed.value, path)
  }

  // ---------------------------------------------------------------- lemmas

  /**
   * Defaulting fills exactly the empty name, version, type and path, keeps
   * every non-empty one and every other field, and doing it twice changes
   * nothing more.
   */
  lemma DefaultsFillOnlyEmptyFields(c: Component, m: Manifest, path: string)
    ensures var d := WithDefaults(c, m, path);
            && (c.name != "" ==> d.name == c.name) && (c.name == "" ==> d.name == m.name)
            && (c.version != "" ==> d.version == c.version) && (c.version == "" ==> d.version == m.version)
            && (c.ctype != "" ==> d.ctype == c.ctype) && (c.ctype == "" ==> d.ctype == m.mtype)
            && (c.path != "" ==> d.path == c.path) && (c.path == "" ==> d.path == path)
            && d.handlers == c.handlers && d.templates == c.templates && d.routes == c.routes
            && d.assets == c.assets && d.metadata == c.metadata
            && WithDefaults(d, m, path) == d
  {
  }

  /** Registration of a manifest fails exactly when the manifest has no name and one of its components has none either. */
  lemma {:induction false} LoadFailsOnlyOnEmptyNames(reg: map<string, Component>, cs: seq<Component>, m: Manifest, path: string)
    ensures RegisterAll(reg, cs, m, path).err.Some? <==> m.name == "" && exists c :: c in cs && c.name == ""
    decreases |cs|
  {
    if cs != [] {
      var c := WithDefaults(cs[0], m, path);
      if c.name != "" {
        LoadFailsOnlyOnEmptyNames(reg[c.name := c], cs[1..], m, path);
        assert forall x :: x in cs <==> x == cs[0] || x in cs[1..] by {
          assert cs == [cs[0]] + cs[1..];
        }
      }
    }
  }

  /** Registration never drops a name and keeps every entry under its own name. */
  lemma {:induction false} RegisterAllKeepsKeys(reg: map<string, Component>, cs: seq<Component>, m: Manifest, path: string)
    requires Keyed(reg)
    ensures reg.Keys <= RegisterAll(reg, cs, m, path).components.Keys
    ensures Keyed(RegisterAll(reg, cs, m, path).components)
    decreases |cs|
  {
    if cs != [] {
      var c := WithDefaults(cs[0], m, path);
      if c.name != "" {
        RegisterAllKeepsKeys(reg[c.name := c], cs[1..], m, path);
      }
    }
  }

  /** Every component up to `j` has a name once defaulted. */
  predicate NamedUpTo(cs: seq<Component>, j: nat, m: Manifest, path: string)
    requires j < |cs|
  {
    forall i :: 0 <= i <= j ==> WithDefaults(cs[i], m, path).name != ""
  }

  /** Every component before the first failure is registered under its defaulted name. */
  lemma {:induction false} RegisterAllRegisters(reg: map<string, Component>, cs: seq<Component>, m: Manifest, path: string, j: nat)
    requires Keyed(reg) && j < |cs| && NamedUpTo(cs, j, m, path)
    ensures WithDefaults(cs[j], m, path).name in RegisterAll(reg, cs, m, path).components
    decreases j
  {
    var c := WithDefaults(cs[0], m, path);
    assert c.name != "";
    assert RegisterAll(reg, cs, m, path) == RegisterAll(reg[c.name := c], cs[1..], m, path);
    if j == 0 {
      RegisterAllKeepsKeys(reg[c.name := c], cs[1..], m, path);
    } else {
      assert cs[j] == cs[1..][j - 1];
      assert NamedUpTo(cs[1..], j - 1, m, path) by {
        forall i | 0 <= i <= j - 1
          ensures WithDefaults(cs[1..][i], m, path).name != ""
        {
          assert cs[1..][i] == cs[i + 1];
        }
      }
      RegisterAllRegisters(reg[c.name := c], cs[1..], m, path, j - 1);
    }
  }

  /** The last component of a successful load is the one stored under its name. */
  lemma {:induction false} LastRegistrationWins(reg: map<string, Component>, cs: seq<Component>, m: Manifest, path: string)
    requires cs != [] && RegisterAll(reg, cs, m, path).err.None?
    ensures var c := WithDefaults(cs[|cs| - 1], m, path);
            c.name in RegisterAll(reg, cs, m, path).components
            && RegisterAll(reg, cs, m, path).components[c.name] == c
    decreases |cs|
  {
    var c := WithDefaults(cs[0], m, path);
    if |cs| > 1 {
      assert cs[1..][|cs[1..]| - 1] == cs[|cs| - 1];
      LastRegistrationWins(reg[c.name := c], cs[1..], m, path);
    }
  }

  /** A manifest that cannot be read or parsed leaves the registry as it was. */
  lemma LoadErrorChangesNothing(reg: map<string, Component>, e: RegistryError, path: string)
    ensures Load(reg, Err(e), path) == Loaded(reg, Some(e))
  {
  }

  // ---------------------------------------------------------------- registry

  class ComponentRegistry {
    var components: map<string, Component>

    /** NewComponentRegistry. */
    constructor ()
      ensures components == map[]
    {
      components := map[];
    }

    /** Register: an empty name is refused and nothing changes; otherwise the component replaces any entry under its name. */
    method Register(c: Component) returns (err: Option<RegistryError>)
      modifies this
      ensures c.name == "" ==> err == Some(NameRequired) && components == old(components)
      ensures c.name != "" ==> err == None && components == old(components)[c.name := c]
      ensures Keyed(old(components)) ==> Keyed(components)
    {
      if c.name == "" {
        return Some(NameRequired);
      }
      components := components[c.name := c];
      err := None;
    }

    /** Get: the stored component, or NotFound. */
    method Get(name: string) returns (r: Result<Component, RegistryError>)
      ensures name in components ==> r == Ok(components[name])
      ensures name !in components ==> r == Err(NotFound(name))
    {
      if name !in components {
        return Err(NotFound(name));
      }
      r := Ok(components[name]);
    }

    /** Has: whether `name` is registered. */
    method Has(name: string) returns (found: bool)
      ensures found <==> name in components
    {
      found := name in components;
    }

    /**
     * List: every stored component exactly once, in the runtime's map order
     * (an arbitrary choice here); in a table keyed by name, which Register and
     * LoadFromManifest keep it, no two have the same name.
     */
    method List() returns (r: seq<Component>, err: Option<RegistryError>)
      requires Keyed(components)
      ensures err == None
      ensures |r| == |components|
      ensures forall i :: 0 <= i < |r| ==> r[i].name in components && components[r[i].name] == r[i]
      ensures forall k :: k in components ==> components[k] in r
      ensures forall i, j :: 0 <= i < j < |r| ==> r[i].name != r[j].name
    {
      r := [];
      err := None;
      var pending := components.Keys;
      while pending != {}
        invariant pending <= components.Keys
        invariant |r| + |pending| == |components.Keys|
        invariant forall i :: 0 <= i < |r| ==> r[i].name in components.Keys - pending && components[r[i].name] == r[i]
        invariant forall k :: k in components.Keys - pending ==> components[k] in r
        invariant forall i, j :: 0 <= i < j < |r| ==> r[i].name != r[j].name
        decreases pending
      {
        var k :| k in pending;
        assert components[k].name == k;
        r := r + [components[k]];
        pending := pending - {k};
      }
    }

    /**
     * LoadFromManifest after reading and parsing: a read or parse error is
     * returned as it is; otherwise each component, with defaults filled in,
     * is registered in order until one fails.
     */
    method LoadFromManifest(path: string, parsed: Result<Manifest, RegistryError>) returns (err: Option<RegistryError>)
      modifies this
      ensures components == Load(old(components), parsed, path).components
      ensures err == Load(old(components), parsed, path).err
      ensures Keyed(old(components)) ==> Keyed(components)
    {
      if parsed.Err? {
        return Some(parsed.error);
      }
      var m := parsed.value;
      var i := 0;
      while i < |m.components|
        invariant 0 <= i <= |m.components|
        invariant RegisterAll(old(components), m.components, m, path) == RegisterAll(components, m.components[i..], m, path)
        invariant Keyed(old(components)) ==> Keyed(components)
      {
        assert m.components[i..][1..] == m.components[i + 1..];
        var c := WithDefaults(m.components[i], m, path);
        var e := Register(c);
        if e.Some? {
          return Some(RegisterFailed(c.name, e.value));
        }
        i := i + 1;
      }
      return None;
    }
  }
}
