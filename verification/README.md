# toutago core, modelled in Dafny

This project models five parts of the toutago web framework and proves properties of each:

- **The dependency-injection container** (`internal/di/container.go`). Bindings, singletons, factories and tagged bindings. Resolution by `Make`/`MakeWith`, constructor building, struct auto-wiring, and `Tagged`.
- **The in-process message bus** (`internal/message/bus.go`). The subscriber table, the bounded envelope channel, the started/closed lifecycle, and the dispatcher loop, including synchronous delivery.
- **The component registry** (`internal/registry/component_registry.go`). A name-keyed table, plus the registration loop of `LoadFromManifest`.
- **The YAML configuration helpers** (`internal/config/yaml_loader.go`). `Validate`, `LoadDefaults`, `mergeConfig`, `LoadOrDefault`, `Watch`, and the upward search of `FindConfig`.
- **The hot-reload watcher** (`internal/cli/hotreload.go`). `shouldWatch`, and the modification-time table of `watchFiles` with its one-slot restart signal.

Each Go object that is updated in place is a Dafny `class`:
- `Di.Container`, over a `Di.Heap` that holds struct memory and the factory log;
- `MessageBus.Bus`, `MessageBus.BaseMessage`;
- `Registry.ComponentRegistry`;
- `ConfigLoader.ConfigRef`, `ConfigLoader.YamlLoader`;
- `HotReload.FileWatcher`.

Each method is proved against a pure specification function. The properties are stated as lemmas about those functions.

The container's resolution is specified by the mutually recursive functions of `DiModel`:
- `Make`, `Instantiate`, `Build`, `ResolveArgs`, `AutoWire`, `WireFrom`, `WireField`;
- the tagged lookup, `TaggedFrom` and `TaggedTags`.

They act on a `World` value made of:
- the binding table;
- the singleton cache;
- the struct memory that auto-wiring writes into;
- the log of factory invocations.

Go reflection is replaced by data:
- A key is the string `getKey` would produce.
- A constructor is its list of argument keys, its declared result count and its fixed outcome.
- A struct is a sequence of field records.

Auto-wiring an interface-typed field never injects anything. For a zero, injectable field of interface kind, `AutoWire` asks reflect for the zero value of the interface, which is nil (`internal/di/container.go:163-164`). `Make` then receives a nil type, and `getKey` calls `String` on it and panics (`internal/di/container.go:171`, `294-299`). This happens whether the field is optional or not. The model gives this outcome the error `Panicked`. No step wraps it, and `optional` does not excuse it.

Recursion depth is bounded by a `fuel` argument. When fuel runs out, resolution reports `TooDeep`; Go would overflow its stack instead.

`MakeWith`'s `params` never take effect. The loop over `params` in `build` (`internal/di/container.go:254-261`) ends with `continue`, which only moves on to the next parameter. The argument is then overwritten by `Make` on line 264. `Di.Container.Build` runs that loop over an argument array and lets the overwrite happen, as the code does.

The message bus runs sequentially:
- The dispatcher goroutine becomes `Bus.Dispatch`, which takes the head envelope.
- `Bus.Drain` applies `Dispatch` repeatedly.
- A handler is an identity. A map from handler to error says which handlers fail.
- Where a Go `select` has two ready cases, the runtime's choice is a boolean parameter.

The path helpers both parts rely on, `filepath.Dir`, `Base`, `Join` and `Ext` on clean slash-separated paths, are the module `Paths`.

File-system and parser results are parameters:
- `Stat`, `Getwd` and `Walk` in the config helpers and the watcher;
- the YAML parser's result in the registry.

## Model

| member | source | states |
|---|---|---|
| Di.Container.Bind | internal/di/container.go:35-45 | binds the key to the concrete as a non-shared, untagged binding, replacing any earlier one; the cache is untouched; no error |
| Di.Container.constructor | internal/di/container.go:27-32 | NewContainer: no bindings and an empty cache |
| Di.Container.Singleton | internal/di/container.go:48-58 | binds the key to the concrete as a shared binding; an existing cache entry is not cleared; no error |
| Di.Container.Factory | internal/di/container.go:61-71 | binds the key to the factory, not shared; no error |
| Di.Container.BindTagged | internal/di/container.go:302-313 | binds the key to the concrete, not shared, with the given tags; no error |
| Di.Container.Has | internal/di/container.go:124-131 | true exactly when the key is bound |
| Di.Container.Make | internal/di/container.go:74-76 | result and new container/heap state are those of the resolution function DiModel.Make (MakeWith without params) |
| Di.Container.MakeWith | internal/di/container.go:79-121 | unbound key is NotFound; a cached shared key returns the cached instance; otherwise factory or build, and a successful shared result is cached; result and state equal DiModel.Make |
| Di.Container.Instantiate | internal/di/container.go:103-107 | calls the factory (logged) when there is one, otherwise builds the concrete; equals DiModel.Instantiate |
| Di.Container.Build | internal/di/container.go:228-291 | a non-function is returned, auto-wired first when it points to a struct; a constructor needs 1 or 2 results, resolves each argument by Make (failing with the argument index), fails with its error result, auto-wires a pointer result; equals DiModel.Build |
| Di.Container.AutoWire | internal/di/container.go:134-189 | rejects a non-pointer and a pointer to a non-struct; visits fields in order, stopping at the first required field that fails; equals DiModel.AutoWire |
| Di.Container.Tagged | internal/di/container.go:192-225 | visits every binding once (in a given map order) and each occurrence of the tag; cached shared instance or a fresh build, never cached; first error aborts; equals DiModel.Tagged |
| DiModel.SetField | internal/di/container.go:183 | setting field i of one struct changes only that field's value; bindings, cache, log and other structs unchanged |
| DiModel.Make | internal/di/container.go:79-121 | MakeWith: NotFound for an unbound key, the cached instance of a shared key, otherwise Instantiate, caching a successful shared result (properties: MakeExtends, SharedMakeIsStable, CacheOnlyForSharedKeys) |
| DiModel.Instantiate | internal/di/container.go:103-107 | the factory (logged) or build (properties: FactoryCalledEachTime, SharedFactoryCalledOnce) |
| DiModel.Build | internal/di/container.go:228-291 | build of an instance or a constructor (properties: BuildRejectsArity, BuiltConstructorArgsAreBound, ConstructorErrorReturned) |
| DiModel.ResolveArgs | internal/di/container.go:249-269 | the argument loop: Make for each key in order, the first failure reported with its index (a panic unwrapped) (property: ResolvedArgsAreBound) |
| DiModel.AutoWire | internal/di/container.go:134-144 | the pointer and struct checks, then the field loop (property: AutoWireRejectsNonStruct) |
| DiModel.WireFrom | internal/di/container.go:146-186 | the field loop in order, stopped by the first failure (properties: TolerantWireFrom, SkipToField) |
| DiModel.WireField | internal/di/container.go:148-169 | which fields are resolved, and the panic on an interface field (properties: WireFieldDecision, InterfaceFieldPanics) |
| DiModel.StoreResolved | internal/di/container.go:171-185 | skip, fail or set a field after its resolution (property: WireFieldDecision) |
| DiModel.WireFieldIntended | internal/di/container.go:162-185 | the intended per-field decision, with interface fields resolved by their own type (property: IntendedInterfaceFieldInjected) |
| DiModel.TaggedFrom | internal/di/container.go:197-222 | the loop over the bindings in map order (property: TaggedFromCount) |
| DiModel.TaggedTags | internal/di/container.go:198-220 | the loop over one binding's tags (properties: TaggedTagsCount, TaggedCachedBinding, TaggedFactoryNeverCaches) |
| DiModel.Tagged | internal/di/container.go:192-225 | Tagged (properties: TaggedYieldsOnePerOccurrence, TaggedAbortsOnError) |
| DiProperties.MakeExtends | internal/di/container.go:79-121 | resolution never changes the binding table, never evicts a cache entry, never changes the cache entry of a key that is not bound shared, keeps every struct's shape and never zeroes a set field, and only appends to the factory log |
| DiProperties.InstantiateExtends | internal/di/container.go:103-107 | the same invariant across a factory call or build |
| DiProperties.BuildExtends | internal/di/container.go:228-291 | the same invariant across build |
| DiProperties.ResolveArgsExtends | internal/di/container.go:249-269 | the same invariant across the argument loop |
| DiProperties.AutoWireExtends | internal/di/container.go:134-189 | the same invariant across AutoWire |
| DiProperties.WireFromExtends | internal/di/container.go:146-186 | the same invariant across the field loop |
| DiProperties.WireFieldExtends | internal/di/container.go:150-185 | the same invariant across one field |
| DiProperties.SetFieldExtends | internal/di/container.go:183 | field.Set keeps the invariant |
| DiProperties.MakeUnbound | internal/di/container.go:85-87 | Make of an unbound key fails with NotFound(key) and changes nothing |
| DiProperties.CachedMakeChangesNothing | internal/di/container.go:89-97 | a cached shared key answers from the cache with no factory call and no state change |
| DiProperties.CacheOnlyForSharedKeys | internal/di/container.go:113-118 | no Make ever writes the cache entry of a key that is not bound shared |
| DiProperties.SharedMakeIsStable | internal/di/container.go:89-118 | after a successful shared Make the cache holds exactly the returned instance, and any later Make returns it and changes nothing |
| DiProperties.FactoryCalledEachTime | internal/di/container.go:103-104 | n Makes of a non-shared factory binding invoke the factory n times and change nothing else |
| DiProperties.SharedFactoryCalledOnce | internal/di/container.go:89-118 | n ≥ 1 Makes of a successful shared factory invoke it once and cache its instance |
| DiProperties.CachedRepeat | internal/di/container.go:89-97 | any number of Makes of a cached shared key leave the world unchanged |
| DiProperties.FailingSharedFactoryRetried | internal/di/container.go:109-118 | a shared factory that fails is never cached and is invoked again on every Make |
| DiProperties.RebindKeepsCachedInstance | internal/di/container.go:48-58 | after Singleton(k,a), Make(k), Singleton(k,b), Make(k) still returns the instance from a |
| DiProperties.BuildRejectsArity | internal/di/container.go:244-246 | a constructor declaring neither 1 nor 2 results fails before any argument is resolved |
| DiProperties.BuiltConstructorArgsAreBound | internal/di/container.go:249-269 | a constructor that builds successfully had every argument key bound |
| DiProperties.ResolvedArgsAreBound | internal/di/container.go:249-269 | a successful argument loop had every remaining key bound and yields one argument per key |
| DiProperties.ConstructorErrorReturned | internal/di/container.go:272-279 | a two-result constructor with a non-nil error returns that error once its arguments resolve |
| DiProperties.AutoWireRejectsNonStruct | internal/di/container.go:135-143 | a non-pointer target fails with "must be a pointer", a pointer to a non-struct with "pointer to a struct"; nothing changes |
| DiProperties.WireFieldDecision | internal/di/container.go:150-185 | untagged non-embedded, already set, and non-interface/pointer fields are skipped without resolving; an interface field panics before anything is resolved, with nothing changed; for a pointer field a failed resolution is skipped iff the tag is "optional" and the failure is not a panic, a panic passes through, and a resolved instance is stored iff the field is settable and the type assignable |
| DiProperties.OptionalFieldsNeverFail | internal/di/container.go:171-177 | AutoWire of a struct whose injectable fields are all optional pointers never returns an error, whatever is bound; its only failure is a panic from a nested resolution |
| DiProperties.TolerantWireFrom | internal/di/container.go:146-186 | the field loop over such fields, from any point on, ends with success or a panic, never with an error |
| DiProperties.RequiredUnboundFieldFails | internal/di/container.go:171-177 | a required injectable pointer field with an unbound key makes AutoWire fail naming the field and the NotFound key; an interface field panics instead; nothing changes |
| DiProperties.NothingToWire | internal/di/container.go:150-160 | a struct whose fields are all set or not injectable is left exactly as it is |
| DiProperties.SkipToField | internal/di/container.go:150-169 | the field loop passes over fields it does not consider without any effect |
| DiProperties.InterfaceFieldPanics | internal/di/container.go:162-171 | when the first field AutoWire considers is of interface kind, AutoWire panics with nothing changed, even when the field is optional |
| DiProperties.IntendedInterfaceFieldInjected | internal/di/container.go:162-185 | with interface fields resolved by their own type, a resolved, assignable instance is stored in the field; a failed resolution is skipped when optional and otherwise names the field |
| DiProperties.TaggedYieldsOnePerOccurrence | internal/di/container.go:192-225 | a successful Tagged returns one instance per occurrence of the tag in the tags of each binding |
| DiProperties.TaggedFromCount | internal/di/container.go:197-222 | the outer loop adds one instance per occurrence over the remaining bindings |
| DiProperties.TaggedTagsCount | internal/di/container.go:198-220 | the inner loop adds one instance per occurrence of the tag and keeps the resolution invariant |
| DiProperties.TagCountSameBindings | internal/di/container.go:197 | the expected count depends only on the binding table |
| DiProperties.TaggedCachedBinding | internal/di/container.go:201-206 | a cached shared binding contributes its cached instance once per occurrence and changes nothing |
| DiProperties.TaggedFactoryNeverCaches | internal/di/container.go:208-219 | an uncached factory binding, shared or not, is invoked once per occurrence and the cache is left alone |
| DiProperties.TaggedAbortsOnError | internal/di/container.go:216-218 | a failing factory on an uncached tagged binding aborts Tagged with the factory's error |
| MessageBus.HandlersSpec | internal/message/bus.go:213-235 | a handler is dispatched to iff it is subscribed under the slug, the type or "*", as many times as it is subscribed there in total |
| MessageBus.Handlers | internal/message/bus.go:213-235 | getHandlers: the handlers under the slug, then the type, then "*" (property: HandlersSpec) |
| MessageBus.RemoveFirst | internal/message/bus.go:131-136 | the removal in Unsubscribe (property: RemoveFirstSpec) |
| MessageBus.Errors | internal/message/bus.go:186-191 | the errors of the handler runs, in order (properties: ErrorsAppend, ErrorsStartWithFirstError) |
| MessageBus.FirstError | internal/message/bus.go:193-197 | the reply to a sync envelope (property: FirstErrorSpec) |
| MessageBus.Deliver | internal/message/bus.go:181-209 | one envelope: the handlers matched then, and the reply of a sync envelope (properties: SubscribedHandlerMatched, UnsubscribedHandlerNotMatched) |
| MessageBus.DeliverAll | internal/message/bus.go:178-210 | the dispatcher over a FIFO queue: one delivery per envelope, in order |
| MessageBus.DeliverAllStep | internal/message/bus.go:178-210 | delivering one more envelope appends its delivery to those before it |
| MessageBus.RemoveFirstSpec | internal/message/bus.go:131-136 | unsubscribing removes exactly the first matching handler and keeps the order of the rest; an absent handler changes nothing |
| MessageBus.RemovedMultiset | internal/message/bus.go:134 | splicing out one handler removes exactly one occurrence of it |
| MessageBus.ErrorsStartWithFirstError | internal/message/bus.go:186-197 | the collected error list starts with the reply the dispatcher sends |
| MessageBus.ErrorsAppend | internal/message/bus.go:187-191 | each handler run appends its error, if any, to the collected list |
| MessageBus.FirstErrorSpec | internal/message/bus.go:193-197 | the reply is nil iff no handler fails, and otherwise the error of the first failing handler |
| MessageBus.RunSync | internal/message/bus.go:186-197 | the synchronous handler loop runs every handler and replies with the error of the first one that fails, or nil |
| MessageBus.SubscribedHandlerMatched | internal/message/bus.go:115-124 | a handler subscribed under the slug, type or "*" of a message is run for it |
| MessageBus.UnsubscribedHandlerNotMatched | internal/message/bus.go:127-139 | a handler subscribed once, only under one pattern, is no longer run after Unsubscribe |
| MessageBus.SlugEqualsTypeDispatchesTwice | internal/message/bus.go:219-227 | when slug and type are equal, a handler under that pattern runs at least twice |
| MessageBus.BaseMessage.AsMessage | internal/message/bus.go:19-26 | Slug and Type return the stored fields |
| MessageBus.BaseMessage.constructor | internal/message/bus.go:12-16 | a message with the given slug and type and no metadata map yet |
| MessageBus.BaseMessage.Metadata | internal/message/bus.go:29-34 | returns the existing map, or creates, stores and returns an empty one; slug and type unchanged |
| MessageBus.Bus.constructor | internal/message/bus.go:56-64 | an empty, unstarted bus with an empty channel |
| MessageBus.Bus.Subscribe | internal/message/bus.go:115-124 | appends the handler under the pattern; no error |
| MessageBus.Bus.Unsubscribe | internal/message/bus.go:127-139 | removes the first occurrence of the handler under the pattern, if any; no error |
| MessageBus.Bus.Start | internal/message/bus.go:142-151 | a started bus reports "already started"; otherwise it becomes started |
| MessageBus.Bus.Dispatch | internal/message/bus.go:181-209 | takes the head envelope, runs the handlers matched at that moment, and replies the first error to a sync envelope |
| MessageBus.Bus.Drain | internal/message/bus.go:178-210 | the dispatcher handles the first n envelopes in FIFO order, each as Deliver specifies |
| MessageBus.Bus.Publish | internal/message/bus.go:67-84 | "not started" on an unstarted bus; otherwise the envelope is queued, or the context error returned when that select case is taken |
| MessageBus.Bus.PublishSync | internal/message/bus.go:87-112 | "not started"; or the context error with nothing queued; or the envelope is delivered after everything queued before it, and the caller gets the context error or the first handler error (nil if none) |
| MessageBus.Bus.Stop | internal/message/bus.go:154-175 | nil and no change on an unstarted bus; otherwise the channel is closed after every queued envelope is delivered in order |
| MessageBus.SyncDeliveryExample | internal/message/bus.go:87-112 | a subscribed handler runs once for a PublishSync and the call returns nil |
| Registry.DefaultsFillOnlyEmptyFields | internal/registry/component_registry.go:84-97 | the manifest fills exactly the empty name, version, type and path; every other field is kept; filling twice changes nothing |
| Registry.WithDefaults | internal/registry/component_registry.go:85-96 | the defaulting of one component (property: DefaultsFillOnlyEmptyFields) |
| Registry.RegisterAll | internal/registry/component_registry.go:84-101 | the registration loop (properties: LoadFailsOnlyOnEmptyNames, RegisterAllKeepsKeys, RegisterAllRegisters, LastRegistrationWins) |
| Registry.Load | internal/registry/component_registry.go:65-104 | LoadFromManifest on the outcome of reading and parsing (property: LoadErrorChangesNothing) |
| Registry.LoadFailsOnlyOnEmptyNames | internal/registry/component_registry.go:84-101 | the loop fails iff the manifest has no name and some component has none |
| Registry.RegisterAllKeepsKeys | internal/registry/component_registry.go:84-101 | registration never drops a name and keeps each entry under its own name |
| Registry.RegisterAllRegisters | internal/registry/component_registry.go:84-101 | every component before the first failure is registered under its defaulted name |
| Registry.LastRegistrationWins | internal/registry/component_registry.go:34 | after a successful load, the last component is the one stored under its name |
| Registry.LoadErrorChangesNothing | internal/registry/component_registry.go:66-81 | a read or parse error is returned and the registry is unchanged |
| Registry.ComponentRegistry.constructor | internal/registry/component_registry.go:19-23 | an empty registry |
| Registry.ComponentRegistry.Register | internal/registry/component_registry.go:26-36 | an empty name is refused with no change; otherwise the component replaces any entry under its name, keeping the table keyed by name |
| Registry.ComponentRegistry.Get | internal/registry/component_registry.go:39-49 | the stored component, or "component not found" |
| Registry.ComponentRegistry.Has | internal/registry/component_registry.go:107-113 | true iff the name is registered |
| Registry.ComponentRegistry.List | internal/registry/component_registry.go:52-62 | every stored component exactly once, with distinct names, and nothing else |
| Registry.ComponentRegistry.LoadFromManifest | internal/registry/component_registry.go:65-104 | returns a read/parse error unchanged; otherwise registers each component with defaults in order until one fails, without rollback; equals Registry.Load |
| ConfigLoader.Validate | internal/config/yaml_loader.go:64-82 | nil iff the config is present, its mode is empty/development/production and its port is in 0..65535; otherwise the errors in that order |
| ConfigLoader.Defaults | internal/config/yaml_loader.go:105-146 | mode development, port 8080, empty non-nil maps, and valid |
| ConfigLoader.MergeLaws | internal/config/yaml_loader.go:171-187 | merging is idempotent, merging a config into itself and merging a zero config change nothing |
| ConfigLoader.Merged | internal/config/yaml_loader.go:171-187 | mergeConfig as a value: each section set in src replaces dst's (properties: MergeLaws, MergePreservesValidity, MergedOverDefaultsFillsGaps) |
| ConfigLoader.MergePreservesValidity | internal/config/yaml_loader.go:171-187 | merging two valid configs gives a valid config |
| ConfigLoader.MergedOverDefaultsFillsGaps | internal/config/yaml_loader.go:163-165 | a config merged over the defaults always has a mode, a port and non-nil maps, keeps the sections it sets, and is valid when the config is |
| ConfigLoader.MergeConfig | internal/config/yaml_loader.go:171-187 | each section src sets replaces dst's whole section; src is unchanged, even when it is dst |
| ConfigLoader.LoadOrDefault | internal/config/yaml_loader.go:149-168 | defaults when the file is absent, otherwise exactly what Load returned: the merge has no effect |
| ConfigLoader.UnmergedLoadExample | internal/config/yaml_loader.go:163-167 | a file setting only `app` comes back with port 0 and no mode |
| ConfigLoader.LoadOrDefaultMerged | internal/config/yaml_loader.go:163-167 | the loaded config merged over the defaults is returned |
| ConfigLoader.YamlLoader.Watch | internal/config/yaml_loader.go:57-61 | the callback is appended to the watchers; no error |
| ConfigLoader.YamlLoader.constructor | internal/config/yaml_loader.go:20-24 | NewYAMLLoader: no watchers |
| ConfigLoader.Parent | internal/config/yaml_loader.go:208-211 | filepath.Dir of an absolute directory is absolute, equal to it only at the root, and otherwise shorter, so the upward search ends |
| ConfigLoader.FirstPresent | internal/config/yaml_loader.go:201-206 | the index of the first existing candidate: all before it are absent |
| ConfigLoader.SearchDir | internal/config/yaml_loader.go:201-206 | the four names are tried in order in one directory; the first that exists wins |
| ConfigLoader.FindConfig | internal/config/yaml_loader.go:190-216 | a Getwd error is returned; otherwise the first existing candidate, nearest directory first and in name order, or "no config file found" after the root |
| Paths.Ext | internal/cli/hotreload.go:160 | filepath.Ext is empty or a suffix of the path that starts with '.' and has no other '.' or '/' |
| Paths.ExtOfSuffix | internal/cli/hotreload.go:160-169 | a path ending in ".go" (or any extension) has that extension |
| Paths.ExtOfJoin | internal/cli/hotreload.go:160 | the extension of dir/name is that of name |
| Paths.DirBaseOfJoin | internal/cli/hotreload.go:153-155 | filepath.Join of a clean directory and a name is dir/name, and filepath.Dir and Base split it back into dir and name |
| Paths.LastSlash | internal/cli/hotreload.go:153-155 | the index of the last separator: every character after it is not one, and -1 when there is none |
| Paths.Dir | internal/cli/hotreload.go:153-155 | filepath.Dir of a clean path (properties: DirBaseOfJoin, DirOfAbsolute) |
| Paths.Base | internal/cli/hotreload.go:153-155 | filepath.Base (property: DirBaseOfJoin) |
| Paths.Join | internal/config/yaml_loader.go:202 | filepath.Join of a clean directory and a name (property: DirBaseOfJoin) |
| Paths.DirOfAbsolute | internal/config/yaml_loader.go:208-211 | the parent of an absolute path is absolute, equals it only at the root, and is otherwise shorter |
| HotReload.ShouldWatch | internal/cli/hotreload.go:141-170 | shouldWatch as written (properties: GoSourceWatched, WatchedPathShape, HiddenFilesUnderAbsoluteRootWatched) |
| HotReload.GoSourceWatched | internal/cli/hotreload.go:141-170 | a non-directory .go file not under tmp, vendor or .git, whose path does not start with '.', is watched |
| HotReload.WatchedPathShape | internal/cli/hotreload.go:141-170 | a watched path is not a directory, not directly in tmp/vendor/.git, and ends with a '.'-extension |
| HotReload.HiddenFilesUnderAbsoluteRootWatched | internal/cli/hotreload.go:147-150 | below an absolute root, a watched-extension file whose name starts with '.' is watched by shouldWatch, and skipped by the intended rule |
| HotReload.HiddenDirContentsWatched | internal/cli/hotreload.go:147-150 | below an absolute root, a watched-extension file inside a directory whose name starts with '.' is watched by shouldWatch, and skipped by the intended rule |
| HotReload.ShouldWatchIntended | internal/cli/hotreload.go:141-170 | shouldWatch with "skip hidden files and directories" applied to every element of the path below the project root (properties: IntendedSkipsHidden, IntendedAgreesOnVisiblePaths) |
| HotReload.IntendedSkipsHidden | internal/cli/hotreload.go:147-150 | the intended rule watches nothing below the root whose relative path has an element starting with '.' |
| HotReload.IntendedAgreesOnVisiblePaths | internal/cli/hotreload.go:141-170 | the intended rule never watches a hidden relative path, and agrees with shouldWatch on every path that neither starts with '.' nor has a hidden element below the root |
| HotReload.ScanRecordsWatched | internal/cli/hotreload.go:95-103 | the initial walk records exactly the watched entries the walk reports without error |
| HotReload.ScanRecordsLastVisit | internal/cli/hotreload.go:95-103 | after the initial walk, each watched path holds the modification time of its last watched visit |
| HotReload.ScanKeepsUnseen | internal/cli/hotreload.go:95-103 | a path the walk records no watched visit for keeps its time |
| HotReload.Scan | internal/cli/hotreload.go:95-103 | the initial walk's table (properties: ScanRecordsWatched, ScanRecordsLastVisit, ScanKeepsUnseen) |
| HotReload.Observe | internal/cli/hotreload.go:112-127 | one callback of a tick (property: ObserveFrame) |
| HotReload.TickOver | internal/cli/hotreload.go:108-129 | one tick's walk (properties: TickKeepsAndCovers, NothingNewerIsQuiet, RepeatedTickIsQuiet, NewPathsAreQuiet, LaterTimeSignals) |
| HotReload.TickKeepsAndCovers | internal/cli/hotreload.go:111-129 | a tick never removes an entry or lowers a time, leaves every watched visited file at a time no earlier than seen, and never clears `changed` |
| HotReload.NothingNewerIsQuiet | internal/cli/hotreload.go:121-127 | a tick that sees only known files at their recorded times or earlier changes nothing |
| HotReload.RepeatedTickIsQuiet | internal/cli/hotreload.go:108-129 | a second tick over the same walk changes nothing and signals no restart |
| HotReload.NewPathsAreQuiet | internal/cli/hotreload.go:121-126 | new files are recorded but never set `changed` |
| HotReload.ObserveFrame | internal/cli/hotreload.go:121-127 | one callback touches only its own entry, and a later time on a known file sets `changed` |
| HotReload.LaterTimeSignals | internal/cli/hotreload.go:121-126 | a known file seen with a strictly later time (first visit in the tick) sets `changed` |
| HotReload.FileWatcher.constructor | internal/cli/hotreload.go:24-31 | an empty table and an empty one-slot restart channel |
| HotReload.FileWatcher.InitialScan | internal/cli/hotreload.go:95-103 | the table after the initial walk equals Scan; nothing is signalled |
| HotReload.FileWatcher.OnTick | internal/cli/hotreload.go:108-136 | the table and `changed` equal TickOver; a restart is offered without blocking, so at most one is pending |
| HotReload.FileWatcher.TakeRestart | internal/cli/hotreload.go:51-55 | the main loop's receive takes the pending restart, if any, and empties the channel |

## Left out

- Locks, goroutines and contexts. Every operation runs sequentially and atomically. The bus's handler goroutines for async envelopes are not modelled beyond the list of handlers each delivery runs. The WaitGroup, and Stop's wait with a timeout, are not modelled either.
- Go reflection and `getKey`. Keys, constructor signatures, struct fields and assignability are given as data. For a pointer field, `reflect.New` of the pointee type is reduced to the field's key; for an interface field the source's nil type leads to the panic described above.
- Constructor results. A constructor always returns the same instance, so successive calls do not allocate fresh pointers.
- Factories. A factory has a fixed outcome and never resolves through the container it is passed (`binding.factory(c)`, `internal/di/container.go:104`). A Go factory may call `Make` on that container, which can invoke other factories, write the cache, or auto-wire.
- DiProperties.FactoryCalledEachTime: "changes nothing else" holds only for factories that do not resolve through the container.
- DiProperties.TaggedFactoryNeverCaches: "the cache is left alone" holds only for factories that do not resolve through the container.
- Panics. The panic in `getKey` is the error `Panicked`, which every caller passes on unchanged. Go unwinds the goroutine instead. `MakeWith` holds the container's read lock while it calls `getKey` (`internal/di/container.go:80-81`), so that lock is never released. Neither the unwinding nor the stuck lock is modelled.
- DiModel.Make: resolution depth is bounded by `fuel`, and running out reports TooDeep. Go recurses without a cycle check and overflows its stack on a cyclic binding.
- DiProperties.MakeExtends: the invariant does not claim that a set struct field keeps its value. With fuel, a nested AutoWire of the same struct can overwrite a field. Only a non-terminating Go run would do that.
- Di.Container.Tagged: requires the visiting order to list every bound key exactly once. This stands for Go's map iteration, which visits every key once in an order the runtime picks.
- Di.Container.MakeWith: the race between two concurrent first Makes of a shared binding, which can cache twice, is not modelled.
- Registering a nil factory, and auto-wiring through a nil pointer, are not modelled.
- MessageBus.Bus.Publish: requires room in the channel or a done context. Waiting for room needs another goroutine, which a sequential model cannot express.
- MessageBus.Bus.PublishSync: requires room in the channel or a done context, for the same reason.
- MessageBus.Bus.Stop: requires an open channel. A second Stop would close a closed channel, and Publish after Stop would send on one. Both panic in Go.
- The runtime's choice between two ready `select` cases is given as boolean parameters.
- Handler identity is a number. The source compares `%p` renderings.
- Handler return values other than the error are not modelled.
- Registry.ComponentRegistry.List: requires the table to be keyed by name. Register and LoadFromManifest keep that invariant. Go callers could mutate a registered component through its pointer, which values here cannot express.
- Manifests: reading and parsing are not modelled; LoadFromManifest receives their outcome. A nil component entry in a manifest, which would panic, is not modelled. The manifest's metadata is not modelled.
- YAML parsing, frontmatter, and `${VAR}` substitution in `Load` are not modelled; LoadOrDefault receives Load's outcome.
- The file system: `os.Stat` and `os.Getwd` are parameters (a set of present paths, a Result). `filepath.Walk` is the sequence of entries it visits.
- ConfigLoader.FindConfig: requires an absolute working directory, which is what Getwd returns.
- ConfigLoader.Parent: filepath.Dir is modelled on clean absolute paths only.
- Paths.Dir: modelled for clean paths, as Walk produces from a clean root. `filepath.Clean` of arbitrary input is not modelled; Paths.Join does not clean its result.
- Watch callbacks are stored but never invoked; the source never invokes them either.
- Process control is not modelled: starting and killing the child process, the signal handler, and the 100 ms and 1 s sleeps.
- Modification times are integers, compared with `>`, which stands for `time.After`.

## Findings

| source | as written | input that shows it | evidently intended | confidence | as-written member | corrected member |
|---|---|---|---|---|---|---|
| internal/config/yaml_loader.go:163-167 | LoadOrDefault merges the loaded config into a fresh defaults value, then returns the loaded config, so the merge is discarded | a file that sets only `app` is returned with server port 0 and an empty mode, not 8080 and "development" | return the defaults with the file's sections merged over them | medium, not executed | ConfigLoader.UnmergedLoadExample | ConfigLoader.LoadOrDefaultMerged |
| internal/cli/hotreload.go:147-150 | the hidden-file rule tests the first character of the whole path; `serve` passes the absolute `os.Getwd()` as the project path, so the rule never fires | `/proj/.env.yaml` and `/proj/.idea/x.yaml` are watched | skip hidden files and directories, that is, every path with an element below the project root that starts with '.' | medium, not executed | HotReload.HiddenFilesUnderAbsoluteRootWatched | HotReload.IntendedSkipsHidden |
| internal/di/container.go:162-171 | for a zero, injectable field of interface kind, `reflect.New(field.Type()).Elem().Interface()` is nil, so `Make` gets a nil type and `getKey` panics on it; optional fields included | a struct whose only field `S Service`, of interface type, is tagged `inject:"optional"` makes AutoWire panic, whatever is bound | resolve the field by its interface type, as pointer fields are by their pointee type | medium, not executed | DiProperties.InterfaceFieldPanics | DiProperties.IntendedInterfaceFieldInjected |

The watcher's methods keep the as-written `ShouldWatch`, because that is what the program runs. The table lemmas (`TickKeepsAndCovers`, `RepeatedTickIsQuiet`, `NewPathsAreQuiet`, `LaterTimeSignals`, `ScanRecordsWatched`) take the filter as a parameter. So they hold for the corrected `ShouldWatchIntended` as well.

Likewise the container keeps the as-written `WireField`, with its panic. `WireFieldIntended` is the corrected decision for one field.
