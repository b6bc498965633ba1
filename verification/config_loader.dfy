/**
 * Configuration handling of internal/config/yaml_loader.go: validation, the
 * built-in defaults, the section-wise merge, the control flow of
 * LoadOrDefault, watcher registration, and the upward search for a config
 * file.  YAML parsing, environment substitution and the file system are
 * outside the model: their outcomes are parameters.
 */
module ConfigLoader {
  import opened Wrappers
  import opened Paths

  datatype FrameworkConfig = FrameworkConfig(mode: string, debug: bool, hotReload: bool, logLevel: string, timezone: string)

  datatype CorsConfig = CorsConfig(
    enabled: bool,
    allowedOrigins: seq<string>,
    allowedMethods: seq<string>,
    allowedHeaders: seq<string>,
    exposeHeaders: seq<string>,
    allowCredentials: bool,
    maxAge: int)

  datatype RateLimitConfig = RateLimitConfig(enabled: bool, requests: int, window: int)

  datatype StaticConfig = StaticConfig(path: string, dir: string, maxAge: int)

  datatype RouterConfig = RouterConfig(
    basePath: string,
    middleware: seq<string>,
    cors: CorsConfig,
    rateLimit: RateLimitConfig,
    statics: seq<StaticConfig>)

  datatype TlsConfig = TlsConfig(enabled: bool, certFile: string, keyFile: string)

  datatype ServerConfig = ServerConfig(
    host: string,
    port: int,
    readTimeout: int,
    writeTimeout: int,
    idleTimeout: int,
    maxHeaderBytes: int,
    tls: TlsConfig)

  /** A free-form map section (`map[string]interface{}`); None is a nil map. */
  type Section = Option<map<string, string>>

  datatype Config = Config(
    framework: FrameworkConfig,
    router: RouterConfig,
    server: ServerConfig,
    packages: Section,
    app: Section)

  datatype ConfigError =
    | NilConfig                 // "config is nil"
    | InvalidMode(mode: string) // "invalid framework mode: %s"
    | InvalidPort(port: int)    // "invalid server port: %d"
    | LoadFailed(cause: string) // what Load returned
    | GetwdFailed(cause: string)
    | NoConfigFound             // "no config file found"

  /** The number of entries of a map section; a nil map has none. */
  function SectionSize(s: Section): nat
  {
    if s.Some? then |s.value| else 0
  }

  /** The modes Validate accepts; the empty mode means "not set". */
  predicate ModeOk(mode: string)
  {
    mode == "" || mode == "development" || mode == "production"
  }

  predicate PortOk(port: int)
  {
    0 <= port <= 65535
  }

  /** Validate: a nil config, then the mode, then the port. */
  function Validate(config: Option<Config>): (r: Option<ConfigError>)
    ensures r.None? <==> config.Some? && ModeOk(config.value.framework.mode) && PortOk(config.value.server.port)
    ensures config.None? ==> r == Some(NilConfig)
    ensures config.Some? && !ModeOk(config.value.framework.mode) ==> r == Some(InvalidMode(config.value.framework.mode))
    ensures config.Some? && ModeOk(config.value.framework.mode) && !PortOk(config.value.server.port) ==>
              r == Some(InvalidPort(config.value.server.port))
  {
    if config.None? then Some(NilConfig)
    else
      var c := config.value;
      if c.framework.mode != "" && c.framework.mode != "development" && c.framework.mode != "production" then
        Some(InvalidMode(c.framework.mode))
      else if c.server.port < 0 || c.server.port > 65535 then Some(InvalidPort(c.server.port))
      else None
  }

  /** LoadDefaults. */
  function Defaults(): (c: Config)
    ensures c.framework.mode == "development" && c.server.port == 8080
    ensures c.packages == Some(map[]) && c.app == Some(map[])
    ensures Validate(Some(c)) == None
  {
    Config(
      FrameworkConfig("development", true, true, "info", "UTC"),
      RouterConfig(
        "/",
        [],
        CorsConfig(false, ["*"], ["GET", "POST", "PUT", "DELETE", "PATCH"], ["Content-Type", "Authorization"], [], false, 3600),
        RateLimitConfig(false, 100, 60),
        []),
      ServerConfig("localhost", 8080, 15, 15, 60, 1048576, TlsConfig(false, "", "")),
      Some(map[]),
      Some(map[]))
  }

  /** The zero Config: what YAML decoding leaves in every section the file does not mention. */
  function Zero(): Config
  {
    Config(
      FrameworkConfig("", false, false, "", ""),
      RouterConfig("", [], CorsConfig(false, [], [], [], [], false, 0), RateLimitConfig(false, 0, 0), []),
      ServerConfig("", 0, 0, 0, 0, 0, TlsConfig(false, "", "")),
      None,
      None)
  }

  /** mergeConfig on values: each section of `src` that is set replaces the whole section of `dst`. */
  function Merged(dst: Config, src: Config): Config
  {
    Config(
      if src.framework.mode != "" then src.framework else dst.framework,
      if |src.router.middleware| > 0 then src.router else dst.router,
      if src.server.port != 0 then src.server else dst.server,
      if SectionSize(src.packages) > 0 then src.packages else dst.packages,
      if SectionSize(src.app) > 0 then src.app else dst.app)
  }

  // ---------------------------------------------------------------- lemmas

  /** Merging is idempotent, merging a config into itself changes nothing, and a zero `src` changes nothing. */
  lemma MergeLaws(dst: Config, src: Config)
    ensures Merged(Merged(dst, src), src) == Merged(dst, src)
    ensures Merged(dst, dst) == dst
    ensures Merged(dst, Zero()) == dst
  {
  }

  /** Merging into valid defaults keeps the result valid whenever the sections taken from `src` are. */
  lemma MergePreservesValidity(dst: Config, src: Config)
    requires Validate(Some(dst)) == None && Validate(Some(src)) == None
    ensures Validate(Some(Merged(dst, src))) == None
  {
  }

  /**
   * Merged over the defaults, a loaded config always ends up with a mode, a
   * port and non-nil map sections, keeps every section it sets, and is valid
   * whenever the loaded config is.
   */
  lemma MergedOverDefaultsFillsGaps(c: Config)
    ensures var m := Merged(Defaults(), c);
            && m.framework.mode != "" && m.server.port != 0 && m.packages.Some? && m.app.Some?
            && (c.framework.mode != "" ==> m.framework == c.framework)
            && (c.server.port != 0 ==> m.server == c.server)
            && (Validate(Some(c)) == None ==> Validate(Some(m)) == None)
  {
    if Validate(Some(c)) == None {
      MergePreservesValidity(Defaults(), c);
    }
  }

  // ---------------------------------------------------------------- in place

  /** A `*Config`: a config that mergeConfig updates in place. */
  class ConfigRef {
    var value: Config

    constructor (c: Config)
      ensures value == c
    {
      value := c;
    }
  }

  /** mergeConfig: overwrites sections of `dst` with the sections `src` sets; `src` is never changed, even when it is `dst`. */
  method MergeConfig(dst: ConfigRef, src: ConfigRef)
    modifies dst
    ensures dst.value == Merged(old(dst.value), old(src.value))
    ensures src.value == old(src.value)
  {
    if src.value.framework.mode != "" {
      dst.value := dst.value.(framework := src.value.framework);
    }
    if src.value.server.port != 0 {
      dst.value := dst.value.(server := src.value.server);
    }
    if |src.value.router.middleware| > 0 {
      dst.value := dst.value.(router := src.value.router);
    }
    if SectionSize(src.value.packages) > 0 {
      dst.value := dst.value.(packages := src.value.packages);
    }
    if SectionSize(src.value.app) > 0 {
      dst.value := dst.value.(app := src.value.app);
    }
  }

  /**
   * LoadOrDefault, given whether the file is absent and what Load returns:
   * the defaults when absent, Load's error, or the loaded config itself; the
   * merge writes into a defaults value nobody reads, so it has no effect.
   */
  method LoadOrDefault(notExist: bool, loaded: Result<Config, ConfigError>) returns (r: Result<Config, ConfigError>)
    ensures notExist ==> r == Ok(Defaults())
    ensures !notExist ==> r == loaded
  {
    if notExist {
      return Ok(Defaults());
    }
    if loaded.Err? {
      return Err(loaded.error);
    }
    var defaults := new ConfigRef(Defaults());
    var config := new ConfigRef(loaded.value);
    MergeConfig(defaults, config);
    return Ok(config.value);
  }

  /** A file that only sets `app` comes back from LoadOrDefault with no mode and port 0, not the defaults' 8080. */
  method UnmergedLoadExample() returns (r: Result<Config, ConfigError>)
    ensures r.Ok? && r.value.server.port == 0 && r.value.framework.mode == ""
    ensures Validate(Some(r.value)) == None
  {
    var onlyApp := Zero().(app := Some(map["name" := "demo"]));
    r := LoadOrDefault(false, Ok(onlyApp));
  }

  /** LoadOrDefault as its "merge with defaults" step intends: the loaded config merged over the defaults is returned. */
  method LoadOrDefaultMerged(notExist: bool, loaded: Result<Config, ConfigError>) returns (r: Result<Config, ConfigError>)
    ensures notExist ==> r == Ok(Defaults())
    ensures !notExist && loaded.Err? ==> r == loaded
    ensures !notExist && loaded.Ok? ==> r == Ok(Merged(Defaults(), loaded.value))
  {
    if notExist {
      return Ok(Defaults());
    }
    if loaded.Err? {
      return Err(loaded.error);
    }
    var defaults := new ConfigRef(Defaults());
    var config := new ConfigRef(loaded.value);
    MergeConfig(defaults, config);
    return Ok(defaults.value);
  }

  // ---------------------------------------------------------------- watchers

  /** A registered callback, by identity. */
  type CallbackId = nat

  class YamlLoader {
    var watchers: seq<CallbackId>

    /** NewYAMLLoader. */
    constructor ()
      ensures watchers == []
    {
      watchers := [];
    }

    /** Watch: the callback is appended to the watchers and nothing else happens. */
    method Watch(callback: CallbackId) returns (err: Option<ConfigError>)
      modifies this
      ensures err == None
      ensures watchers == old(watchers) + [callback]
    {
      watchers := watchers + [callback];
      err := None;
    }
  }

  // ---------------------------------------------------------------- FindConfig

  /** The file names FindConfig tries in each directory, in order. */
  const ConfigNames: seq<string> := ["touta.yaml", "touta.yml", ".touta.yaml", ".touta.yml"]

  /** filepath.Dir on an absolute directory: everything before the last separator, or the root. */
  function Parent(dir: string): (p: string)
    requires IsAbsolute(dir)
    ensures IsAbsolute(p)
    ensures p == dir <==> dir == "/"
    ensures p != dir ==> |p| < |dir|
  {
    DirOfAbsolute(dir);
    Dir(dir)
  }

  /** The directory and its ancestors, nearest first, ending at the root. */
  function Ancestors(dir: string): (ds: seq<string>)
    requires IsAbsolute(dir)
    ensures |ds| > 0 && ds[0] == dir
    decreases |dir|
  {
    if Parent(dir) == dir then [dir] else [dir] + Ancestors(Parent(dir))
  }

  /** The candidate paths in one directory, in the order tried. */
  function InDir(dir: string): seq<string>
  {
    seq(|ConfigNames|, j requires 0 <= j < |ConfigNames| => Join(dir, ConfigNames[j]))
  }

  /** Every candidate path, directory by directory. */
  function Candidates(dirs: seq<string>): seq<string>
  {
    if dirs == [] then [] else InDir(dirs[0]) + Candidates(dirs[1..])
  }

  /** The position of the first present path in `cs`, or |cs| when none is. */
  function FirstPresent(cs: seq<string>, present: set<string>): (k: nat)
    ensures k <= |cs|
    ensures forall j :: 0 <= j < k ==> cs[j] !in present
    ensures k < |cs| ==> cs[k] in present
  {
    if cs == [] then 0
    else if cs[0] in present then 0
    else 1 + FirstPresent(cs[1..], present)
  }

  lemma {:induction false} FirstPresentAppend(a: seq<string>, b: seq<string>, present: set<string>)
    requires forall c :: c in a ==> c !in present
    ensures FirstPresent(a + b, present) == |a| + FirstPresent(b, present)
  {
    if a == [] {
      assert a + b == b;
    } else {
      assert a[0] in a && (a + b)[0] == a[0];
      assert (a + b)[1..] == a[1..] + b;
      assert forall c :: c in a[1..] ==> c in a;
      FirstPresentAppend(a[1..], b, present);
    }
  }

  /** A hit in `a` is found before anything in `b` is looked at. */
  lemma {:induction false} FirstPresentPrefix(a: seq<string>, b: seq<string>, present: set<string>)
    requires FirstPresent(a, present) < |a|
    ensures FirstPresent(a + b, present) == FirstPresent(a, present)
  {
    assert (a + b)[0] == a[0];
    if a[0] !in present {
      assert (a + b)[1..] == a[1..] + b;
      FirstPresentPrefix(a[1..], b, present);
    }
  }

  /** The candidates from `dir` up: its own names, then those of its parent and up, unless it is the root. */
  lemma CandidatesStep(dir: string)
    requires IsAbsolute(dir)
    ensures Candidates(Ancestors(dir))
            == InDir(dir) + (if Parent(dir) == dir then [] else Candidates(Ancestors(Parent(dir))))
  {
    var ds := Ancestors(dir);
    assert ds[0] == dir;
    if Parent(dir) == dir {
      assert ds == [dir];
      assert ds[1..] == [];
    } else {
      assert ds[1..] == Ancestors(Parent(dir));
    }
  }

  /** The inner loop of FindConfig: the names tried in `dir`, in order; the index of the first that exists, or 4. */
  method SearchDir(dir: string, present: set<string>) returns (k: nat)
    ensures k == FirstPresent(InDir(dir), present)
  {
    var names := InDir(dir);
    k := 0;
    while k < |ConfigNames|
      invariant 0 <= k <= |ConfigNames|
      invariant forall j :: 0 <= j < k ==> names[j] !in present
    {
      if Join(dir, ConfigNames[k]) in present {
        assert names[k] == Join(dir, ConfigNames[k]);
        FirstPresentAppend(names[..k], names[k..], present);
        assert names[..k] + names[k..] == names;
        return;
      }
      k := k + 1;
    }
    FirstPresentAppend(names, [], present);
    assert names + [] == names;
  }

  /**
   * FindConfig, given what Getwd returns and the set of paths that exist:
   * the first existing candidate, nearest directory first and in name order
   * within a directory, or an error when none exists up to the root.
   */
  method FindConfig(wd: Result<string, string>, present: set<string>) returns (r: Result<string, ConfigError>)
    requires wd.Ok? ==> IsAbsolute(wd.value)
    ensures wd.Err? ==> r == Err(GetwdFailed(wd.error))
    ensures wd.Ok? ==>
              var cs := Candidates(Ancestors(wd.value));
              var k := FirstPresent(cs, present);
              r == if k < |cs| then Ok(cs[k]) else Err(NoConfigFound)
  {
    if wd.Err? {
      return Err(GetwdFailed(wd.error));
    }
    var dir := wd.value;
    ghost var cs := Candidates(Ancestors(wd.value));
    ghost var seen: seq<string> := [];
    while true
      invariant IsAbsolute(dir)
      invariant cs == seen + Candidates(Ancestors(dir))
      invariant forall c :: c in seen ==> c !in present
      decreases |dir|
    {
      var parent := Parent(dir);
      CandidatesStep(dir);
      ghost var tail := if parent == dir then [] else Candidates(Ancestors(parent));
      var k := SearchDir(dir, present);
      if k < |ConfigNames| {
        Found(seen, InDir(dir), tail, present, k);
        var path := Join(dir, ConfigNames[k]);
        assert path == InDir(dir)[k];
        return Ok(path);
      }
      Missed(seen, InDir(dir), tail, present);
      seen := seen + InDir(dir);
      if parent == dir {
        assert cs == seen + [];
        FirstPresentAppend(seen, [], present);
        break;
      }
      dir := parent;
    }
    return Err(NoConfigFound);
  }

  lemma Found(seen: seq<string>, here: seq<string>, tail: seq<string>, present: set<string>, k: nat)
    requires forall c :: c in seen ==> c !in present
    requires k == FirstPresent(here, present) && k < |here|
    ensures FirstPresent(seen + (here + tail), present) == |seen| + k
    ensures (seen + (here + tail))[|seen| + k] == here[k]
  {
    FirstPresentAppend(seen, here + tail, present);
    FirstPresentPrefix(here, tail, present);
  }

  lemma Missed(seen: seq<string>, here: seq<string>, tail: seq<string>, present: set<string>)
    requires forall c :: c in seen ==> c !in present
    requires FirstPresent(here, present) == |here|
    ensures forall c :: c in seen + here ==> c !in present
    ensures seen + (here + tail) == (seen + here) + tail
  {
    forall c | c in here
      ensures c !in present
    {
      var j :| 0 <= j < |here| && here[j] == c;
    }
  }
}
