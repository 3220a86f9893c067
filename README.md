# switchboard core, modelled in Dafny

This project models the core of porter-dev/switchboard. Switchboard is a Go tool that reads a
`porter.yaml` document, validates it, orders its apps and addons by their dependencies, and
hands each resource to a registered driver. The model covers these pieces:

- **YAML wrappers** (`YamlMetadata`, `YamlNode`). These are the nil-safe accessors of the two
  wrappers that record where each field of porter.yaml came from. Their `UnmarshalYAML`
  methods update the wrapper in place, so each wrapper is a class.
- **Document types** (`PorterTypes`). These are the parts of the v2 document the other
  components read.
- **Dependency resolver** (`DepGraph`, `DepResolver`). This is `dependencyResolver`, a class
  over the graph and the `resolved`/`unresolved` sets. `Resolve` succeeds exactly when the
  names are distinct, every dependency is declared and there is no cycle. On success the
  search order it records is a topological order.
- **Executor** (`Exec`, `ExecNodes`, `ExecV1`, `ExecV2`). This is the node class, the linking
  of resources into nodes (`GetExecNodes`), and the wave loop `Execute` with its two
  callbacks.
  The model runs one schedule: each pass finds all its ready nodes before any of them runs
  (see "## Left out" for the Go interleavings this excludes). Under that schedule:
  - On a graph the resolver accepts, `Execute` finishes every node. Each node ends with the
    error that its first failed parent or the callback determines.
  - Each node runs in the round right after its latest parent's round.
  - The callback runs exactly once for each node none of whose parents failed, and never for
    any other node.
- **Worker** (`Worker`). This is the driver registry (`RegisterDriver`, `SetDefaultDriver`,
  whose invariant is that the default is registered or empty). It also covers the live part
  of `Apply` and the apply callback of `getExecFunc`.
- **Validator** (`Validator`, with `GoStrings` for `strings.Split`, `strconv.Atoi` and `%d`).
  It covers:
  - the version dispatch and the order of the v2 checks;
  - the first-cause descent of schema errors;
  - the mapping of a schema instance path to a line and column;
  - the report built from all causes;
  - the duplicate-variable check.
- **Query result shaping** (`JsonPath`). A query yields zero, one or many usable matches.
  Zero is an error, one is returned as it is, and many are formatted and joined.
- **Kubernetes driver inputs** (`KubeValues`, `KubeSource`, `KubeTarget`, `KubeAgent`,
  `Kubeconfig`). These are the parsers of the `source` and `target` maps, the
  `metadata.name` and `apiVersion`/`kind` checks, the allowed-context map, the stripping of
  a kubeconfig to the allowed contexts and what they refer to, and the selection of the
  context.

Some things the model takes as inputs rather than computing:

- Go map iteration order is unspecified, so it is a nondeterministic choice (`GoMaps.MapOrder`).
- Driver callbacks, `%v` formatting, the JSON-schema outcome and `clientcmd.Validate` are
  function or value parameters.
- The zero value of a generic `T` is passed to `GetValue` as `zero`.

Where the prose description of the system and the code disagree, the model follows the code:

- The description has `Apply` run hooks, validate the graph and consolidate errors. In the
  code all of that is commented out. The live `Apply` only links the nodes, executes them
  and returns nil.
- `getExecFunc` looks up the driver by the resource's *name*, not by its driver field.
- The v2 `Variable` fields are read with `GetYAMLNodeMetadata`, which only the `YAMLNode`
  wrapper has, although v2/pkg/types/types.go declares them as `YAMLNodeMetadata`. The
  model follows the validator's use.
- `validateV2Apps`/`validateV2Addons` are declared over `[]*YAMLNode[*Resource]` but called
  with `[]*Resource`. Both return nil, and the model has them take the resource list.

## Model

The members `PorterTypes.Names`, `PorterTypes.DepNames`, `Validator.VarNames` (the names read
with `GetValue`), `ExecV2.Resources` (apps, then addons) and `DepGraph.IndexOf` (a position in
a sequence, used to state topological orders) are vocabulary for the contracts below and model
no source behaviour of their own, so they have no row.

| member | source | states |
|---|---|---|
| YamlMetadata.MetadataRef.GetValue | v2/pkg/types/yaml_metadata.go:13-19 | a nil receiver or nil value gives the zero value; otherwise the stored value |
| YamlMetadata.MetadataRef.GetLine | v2/pkg/types/yaml_metadata.go:21-27 | -1 unless a line is recorded, else that line |
| YamlMetadata.MetadataRef.GetColumn | v2/pkg/types/yaml_metadata.go:29-35 | -1 unless a column is recorded, else that column |
| YamlMetadata.YAMLNodeMetadata.constructor | v2/pkg/types/yaml_metadata.go:7-11 | a fresh wrapper has no value and no position |
| YamlMetadata.YAMLNodeMetadata.UnmarshalYAML | v2/pkg/types/yaml_metadata.go:37-50 | the value is always set, so GetValue returns the decoded value; after a successful decode GetLine and GetColumn return the node's line and column, and a failed decode keeps the old position |
| YamlNode.NodeRef.GetValue | v2/pkg/types/yaml_node.go:22-28 | zero value for a nil receiver or nil value, else the value |
| YamlNode.NodeRef.GetYAMLNodeMetadata | v2/pkg/types/yaml_node.go:30-39 | nil exactly when there is no node; otherwise a copy of the node's line and column |
| YamlNode.NodeRef.GetLine | v2/pkg/types/yaml_node.go:41-47 | -1 without a node, else the node's line |
| YamlNode.NodeRef.GetColumn | v2/pkg/types/yaml_node.go:49-55 | -1 without a node, else the node's column |
| YamlNode.NodeRef.GetRawYAMLNode | v2/pkg/types/yaml_node.go:57-63 | nil without a node, else the node |
| YamlNode.MetadataMatchesLineColumn | v2/pkg/types/yaml_node.go:30-55 | the position copy agrees with GetLine/GetColumn; without it both are -1 and the raw node is nil |
| YamlNode.YAMLNode.constructor | v2/pkg/types/yaml_node.go:17-20 | a fresh wrapper has no node and no value |
| YamlNode.UnmarshalYAML | v2/pkg/types/yaml_node.go:65-81 | a nil receiver fails; otherwise the node and value are recorded before decoding, so they are kept even when the decode error is returned |
| DepGraph.EdgeDescends | v2/pkg/validator/dep_resolver.go:56-69 | in a topological order a dependency comes strictly before its dependent |
| DepGraph.PathDescends | v2/pkg/validator/dep_resolver.go:53-76 | along a path, positions in a topological order strictly decrease |
| DepGraph.TopoOrderAcyclic | v2/pkg/validator/dep_resolver.go:53-76 | a graph with a topological order has no cycle |
| DepGraph.ClosePath | v2/pkg/validator/dep_resolver.go:61-64 | a path from b to a plus the edge a -> b is a cycle |
| DepResolver.GraphOfKeys | v2/pkg/validator/dep_resolver.go:28-39 | the graph has a node for exactly the resource names |
| DepResolver.GraphOfEntry | v2/pkg/validator/dep_resolver.go:34-38 | with distinct names, each resource's entry lists its DependsOn values in order |
| DepResolver.CircularIsCycle | v2/pkg/validator/dep_resolver.go:62-64 | a reported circular dependency closes a real cycle |
| DepResolver.DependencyResolver.constructor | v2/pkg/validator/dep_resolver.go:16-23 | a new resolver holds the resources, with an empty graph and empty resolved/unresolved sets |
| DepResolver.DependencyResolver.DepResolve | v2/pkg/validator/dep_resolver.go:53-76 | an error names a real missing dependency or a real back edge; on success the name is resolved, nothing is left unresolved that was not before, and the search invariant holds |
| DepResolver.DependencyResolver.Settle | v2/pkg/validator/dep_resolver.go:72-73 | once every dependency is resolved, the name moves from unresolved to resolved, leaves the call chain and the search invariant holds |
| DepResolver.DependencyResolver.BackEdge | v2/pkg/validator/dep_resolver.go:61-64 | meeting an unresolved dependency means a path leads back to it |
| DepResolver.DependencyResolver.Resolve | v2/pkg/validator/dep_resolver.go:25-51 | success iff names are distinct, every dependency is declared and the graph is acyclic; a duplicate error names the first repeated name; every error is true of the graph; on success the resolved order is topological |
| DepResolver.DependencyResolver.BuildGraph | v2/pkg/validator/dep_resolver.go:28-39 | stops at the first repeated name; otherwise builds the graph of all resources |
| DepResolver.DependencyResolver.DuplicateAt | v2/pkg/validator/dep_resolver.go:30-32 | a name already in the graph occurs among the earlier names, so the names are not distinct |
| DepResolver.DependencyResolver.BuildStep | v2/pkg/validator/dep_resolver.go:34-38 | a new name keeps the names distinct and adds exactly its own entry to the graph |
| DepResolver.DependencyResolver.AppendDeps | v2/pkg/validator/dep_resolver.go:36-38 | the entry for the resource becomes its dependency names and no other entry changes |
| DepResolver.DependencyResolver.ResolveAll | v2/pkg/validator/dep_resolver.go:41-47 | a sound error, or every node resolved and none left unresolved |
| DepResolver.DependencyResolver.Refute | v2/pkg/validator/dep_resolver.go:56-64 | a reported invalid or circular dependency rules out a declared, acyclic graph |
| Exec.ExecNode.constructor | internal/exec/exec.go:73-76 | a new node holds its resource, has no parents, is neither started nor finished and has no error |
| Exec.ExecNode.SetStarted | internal/exec/exec.go:33-35 | the node is marked started |
| Exec.ExecNode.SetFinished | internal/exec/exec.go:25-27 | the node is marked finished and its error is left as it was |
| Exec.ExecNode.SetFinishedWithError | internal/exec/exec.go:37-40 | the node is marked finished with that error |
| Exec.ExecNode.ShouldStart | internal/exec/exec.go:50-64 | true iff not started, not finished and every parent has finished |
| Exec.FirstFailed | internal/exec/exec.go:110-115 | the first parent with an error, if any, and none exactly when no parent has failed |
| Exec.FirstFailedAt | internal/exec/exec.go:110-115 | the parent loop stops at the first position whose error is set |
| Exec.Launch | internal/exec/exec.go:105-125 | the goroutine body: started and finished, with the error the first failed parent or the callback determines; the callback runs iff no parent failed |
| Exec.AreAllNodesFinished | internal/exec/exec.go:137-145 | true iff every node has finished |
| Exec.ScanReady | internal/exec/exec.go:100-103 | exactly the nodes whose ShouldStart holds, each once |
| Exec.LaunchWave | internal/exec/exec.go:100-129 | every ready node is started and finished with its outcome; the callback runs exactly for the ready nodes with no failed parent |
| Exec.Progress | internal/exec/exec.go:96-134 | on an acyclic closed graph some unfinished node has all parents finished, so every round makes progress |
| Exec.ReadyExactly | internal/exec/exec.go:100-103 | at a round's start the ready nodes are exactly those not yet run whose parents have all run |
| Exec.FindReady | internal/exec/exec.go:100-103 | the scan finds exactly the nodes not run yet whose parents have all run, and at least one while any node is left |
| Exec.LaunchRecorded | internal/exec/exec.go:100-129 | launching the wave brings the flags and the call record in line with the recorded rounds and outcomes |
| Exec.Round | internal/exec/exec.go:96-129 | one round keeps the execution invariant and runs at least one node not run before |
| Exec.Commit | internal/exec/exec.go:100-129 | after the scan, recording and launching the ready nodes keeps the execution invariant and runs every ready node |
| Exec.Finished | internal/exec/exec.go:131-133 | once all nodes have finished, the invariant gives the final results |
| Exec.Step | internal/exec/exec.go:96-133 | a round then areAllNodesFinished: either done with the final results, or strictly fewer nodes pending |
| Exec.Execute | internal/exec/exec.go:95-135 | every node finishes with the error its parents and the callback determine, runs in the round after its latest parent, and the callback runs once per node without a failed parent, in round order |
| ExecNodes.RegistryKeys | internal/exec/exec.go:70-76 | resourceMap holds exactly the resource names |
| ExecNodes.RegistryLast | internal/exec/exec.go:70-76 | a later resource of the same name replaces an earlier one |
| ExecNodes.RegistryKeyed | internal/exec/exec.go:70-76 | every kept resource is stored under its own name |
| ExecNodes.ParentsAt | internal/exec/exec.go:82-84 | the parents list has one entry per dependency: the node of that name, or nil |
| ExecNodes.RegisterNodes | internal/exec/exec.go:70-76 | one new untouched node per distinct name, holding the last resource of that name |
| ExecNodes.LinkParents | internal/exec/exec.go:82-84 | the parents become the looked-up nodes of the dependency names, in order |
| ExecNodes.LinkAll | internal/exec/exec.go:81-88 | every node of resourceMap is linked and collected exactly once, in map order |
| ExecNodes.LinkEach | internal/exec/exec.go:81-88 | in map order, every node gets its linked parents and is collected, in that order |
| ExecNodes.LinkNodes | internal/exec/exec.go:67-91 | the nodes are the values of resourceMap, distinct and new, each with its name's last resource and its linked parents |
| ExecNodes.LinkedWired | internal/exec/exec.go:67-91 | when every dependency is declared and the name graph has a topological order, the nodes form a closed, rank-ordered list |
| GoMaps.MapOrder | internal/exec/exec.go:81 | a range over a map visits every key exactly once, in an unspecified order |
| ExecV1.GetExecNodes | internal/exec/exec.go:67-91 | GetExecNodes over models.Resource: nodes by Name, parents by Dependencies |
| ExecV1.Execute | internal/exec/exec.go:95-135 | Execute with a failed parent reported by resource name |
| ExecV2.GetExecNodes | v2/internal/exec/exec.go:63-90 | GetExecNodes over the apps and addons: nodes by Name.GetValue, parents by DependsOn values |
| ExecV2.ResolverGraphIsNodeGraph | v2/pkg/validator/dep_resolver.go:28-39 | the resolver's graph is the name graph of the linked nodes |
| ExecV2.ResolvedIsWired | v2/internal/exec/exec.go:63-90 | a document the resolver accepts links into nodes that Execute accepts |
| ExecV2.ExecuteDocument | v2/pkg/worker/worker.go:140-147 | linking then executing a resolver-accepted document finishes one node per name with the Execute results |
| Worker.ExecFuncAppliesDriver | v2/pkg/worker/worker.go:206-225 | the callback applies the driver registered under the resource's name and returns its error unchanged |
| Worker.ExecFuncMissingOnlyUnregistered | v2/pkg/worker/worker.go:214 | a missing driver is reported only for an unregistered name |
| Worker.Worker.constructor | v2/pkg/worker/worker.go:21-27 | an empty driver table and an empty default |
| Worker.Worker.RegisterDriver | v2/pkg/worker/worker.go:29-37 | an existing name fails and changes nothing; otherwise exactly that mapping is added; the default stays registered or empty |
| Worker.Worker.SetDefaultDriver | v2/pkg/worker/worker.go:39-47 | an unregistered name fails and leaves the default; a registered one becomes the default |
| Worker.Worker.Apply | v2/pkg/worker/worker.go:87-198 | returns nil whatever the nodes finished with, after executing one node per name with the driver callback |
| GoStrings.TrimPrefix | v2/pkg/validator/validator.go:115 | one leading '/' is dropped if present |
| GoStrings.IndexOfChar | v2/pkg/validator/validator.go:115 | a position holding the separator, with no separator before it |
| GoStrings.Split | v2/pkg/validator/validator.go:115 | there is always at least one piece |
| GoStrings.SplitNoSep | v2/pkg/validator/validator.go:115 | no piece contains the separator |
| GoStrings.SplitConcat | v2/pkg/validator/validator.go:115 | a separator-free piece, a separator and a rest split into that piece followed by the pieces of the rest |
| GoStrings.JoinSplit | v2/pkg/validator/validator.go:115 | joining the pieces gives back the string |
| GoStrings.SplitJoin | v2/pkg/validator/validator.go:115 | splitting a join of separator-free pieces gives back the pieces |
| GoStrings.DigitOf | v2/pkg/validator/validator.go:128 | a digit's value is below ten |
| GoStrings.Atoi | v2/pkg/validator/validator.go:128 | an accepted string's value fits a 64-bit int; the empty string is rejected |
| GoStrings.NatToString | v2/pkg/validator/validator.go:69 | %d of a natural number is a run of digits |
| GoStrings.NatToStringValue | v2/pkg/validator/validator.go:69 | the digits of %d have the number's value |
| GoStrings.AtoiIntToString | v2/pkg/validator/validator.go:128 | Atoi reads back every 64-bit number written with %d |
| GoStrings.IntToStringNoSlash | v2/pkg/validator/validator.go:115 | a number written with %d has no '/' |
| Validator.GetAbsoluteInstanceName | v2/pkg/validator/validator.go:98-104 | the instance location of the leaf reached by following Causes[0] |
| Validator.GetAbsoluteMessage | v2/pkg/validator/validator.go:106-112 | the message of the leaf reached by following Causes[0] |
| Validator.FirstLeafUnique | v2/pkg/validator/validator.go:98-112 | the first-cause chain ends in exactly one leaf |
| Validator.SameLeaf | v2/pkg/validator/validator.go:60-61 | a cause's reported location and message come from the same leaf |
| Validator.Tree | v2/pkg/validator/validator.go:115-119 | the path has at least one segment, so the empty-tree check never fires |
| Validator.TreeOfPath | v2/pkg/validator/validator.go:115-119 | an instance location built from segments without '/' splits back into exactly those segments |
| Validator.GetLineColForSchemaInstanceName | v2/pkg/validator/validator.go:114-183 | every failure is (-1, -1, invalid instance name); env_groups, apps, addons and any other head always fail |
| Validator.CheckedAgrees | v2/pkg/validator/validator.go:156-176 | the range-checked locator returns what the code as written returns wherever the latter does not panic |
| Validator.AsWrittenPanics | v2/pkg/validator/validator.go:167-171 | as written, /builds/i/method for a missing build indexes out of range |
| Validator.LocateVariableField | v2/pkg/validator/validator.go:122-152 | /variables/i/f for an existing variable and a known field gives that field's line and column |
| Validator.LocateVariableOutOfRange | v2/pkg/validator/validator.go:133-135 | a variable index out of range is an invalid instance name |
| Validator.LocateVariableWhole | v2/pkg/validator/validator.go:137-182 | /variables/i has no position of its own and fails |
| Validator.LocateBuildsList | v2/pkg/validator/validator.go:173-175 | /builds/i gives the line and column of the builds list, whatever the index |
| Validator.LocateBuildMethod | v2/pkg/validator/validator.go:167-171 | /builds/i/method for an existing build gives its method's line and column |
| Validator.LocateBuildMethodOutOfRange | v2/pkg/validator/validator.go:167-171 | with the range check, /builds/i/method for a missing build is an invalid instance name |
| Validator.LocateVariableBadIndex | v2/pkg/validator/validator.go:127-131 | /variables/s/... with an index s that Atoi rejects is an invalid instance name |
| Validator.LocateBuildBadIndex | v2/pkg/validator/validator.go:161-165 | /builds/s/... with an index s that Atoi rejects is an invalid instance name |
| Validator.LocateVariableUnknownField | v2/pkg/validator/validator.go:137-182 | /variables/i/f for an existing variable and a field other than name, value, random and once falls through to the invalid instance name |
| Validator.LocateBuildUnknownField | v2/pkg/validator/validator.go:167-182 | /builds/i/f for any field other than method falls through to the invalid instance name |
| Validator.ValidateV2Variables | v2/pkg/validator/validator.go:185-202 | fails iff some name repeats, reporting the first variable whose name was already seen, at its position |
| Validator.FirstDuplicateUnique | v2/pkg/validator/validator.go:185-202 | there is at most one first repeat |
| Validator.ReportFailsAtFirst | v2/pkg/validator/validator.go:58-71 | the report lists every cause when all can be located, otherwise fails with the first unlocatable cause's error |
| Validator.ReportCauses | v2/pkg/validator/validator.go:58-71 | the causes loop builds the report, one line per cause in order, or stops at the first locate error |
| Validator.ValidateV2 | v2/pkg/validator/validator.go:26-96 | schema setup errors, then schema violations (report or locate error), then duplicate variables; apps and addons never fail |
| Validator.ValidatePorterYAML | v2/pkg/validator/validator.go:17-24 | any version other than v2 is refused with that version; for v2 the result is exactly what validateV2 promises: the setup error, the schema failure, the report or first locate error, or, with the schema passed, an error iff a variable name repeats, naming the first repeat |
| JsonPath.UsableMembers | internal/query/jsonpath/jsonpath.go:26-33 | a value is kept iff some match carries it and can be interfaced |
| JsonPath.UsableAll | internal/query/jsonpath/jsonpath.go:26-33 | when every match can be interfaced, all values are kept, in order |
| JsonPath.FlattenAppend | internal/query/jsonpath/jsonpath.go:26-33 | values of consecutive result lists come list after list |
| JsonPath.ConcatAppend | internal/query/jsonpath/jsonpath.go:40-42 | formatting and joining distributes over concatenation |
| JsonPath.GetResult | internal/query/jsonpath/jsonpath.go:9-48 | parse and find errors pass through; zero usable values fail, one is returned verbatim, several are joined in order |
| JsonPath.NestedPathSingle | internal/query/jsonpath/jsonpath_test.go:11-23 | a single nested match yields the value itself |
| JsonPath.ConcatenatedPaths | internal/query/jsonpath/jsonpath_test.go:25-37 | two matches yield "resultvaluetesting" |
| KubeValues.StringField | pkg/drivers/kubernetes/source.go:23-29 | the string under a key iff the key is present with a string value |
| KubeSource.GetSource | pkg/drivers/kubernetes/source.go:20-53 | missing/non-string/empty kind is none; local needs a string path (two distinct errors); any other kind succeeds without local settings |
| KubeTarget.GetTarget | pkg/drivers/kubernetes/target.go:21-73 | fails iff kind is missing, not a string or empty; namespace defaults to "default"; local settings exist iff kind is local, with path and context copied when strings |
| KubeAgent.GetObjectName | pkg/drivers/kubernetes/agent.go:130-156 | the string at metadata.name, with a distinct error for each step that fails |
| KubeAgent.GetGroupVersionResource | pkg/drivers/kubernetes/agent.go:82-128 | apiVersion then kind must be present strings, before the mapper is consulted, whose result is passed on |
| Kubeconfig.CreateAllowedContextMap | pkg/drivers/kubernetes/kubeconfig.go:208-216 | the keys are exactly the given names, each mapped to itself |
| Kubeconfig.CoversStep | pkg/drivers/kubernetes/kubeconfig.go:110-114 | adding a kept context and what it refers to keeps clusters and users exactly those referenced |
| Kubeconfig.StrippedUnique | pkg/drivers/kubernetes/kubeconfig.go:91-115 | the stripped configuration does not depend on the map order |
| Kubeconfig.Visit | pkg/drivers/kubernetes/kubeconfig.go:101-115 | a context is kept iff it is allowed and its user and cluster exist |
| Kubeconfig.StripContexts | pkg/drivers/kubernetes/kubeconfig.go:91-115 | current context as requested; contexts exactly the kept ones; clusters and users exactly those they refer to, as in the raw config |
| Kubeconfig.StripAndValidateClientContexts | pkg/drivers/kubernetes/kubeconfig.go:84-131 | the stripped configuration, or the validation error about it |
| Kubeconfig.GetClientCmdFromHost | pkg/drivers/kubernetes/kubeconfig.go:39-56 | no requested and no current context fails with that error; otherwise the result is the configuration stripped to the selected context, or the validation error about it |
| Kubeconfig.OnlySelectedSurvives | pkg/drivers/kubernetes/kubeconfig.go:50 | allowing only the selected context leaves at most that context |

## Left out

- Goroutines and `sync.WaitGroup` in both `Execute` functions. The model runs one schedule only: the scan of a pass ends before any goroutine started in that pass finishes, and the nodes it found then run one after another. Each node running in the round right after its latest parent's round is a property of that schedule. In Go, a goroutine started earlier in the same scan may already have finished, so a child listed after its parent can start in its parent's pass. Because `SetFinishedWithError` sets `isExecFinished` before `execError` (internal/exec/exec.go:37-40), such a child can also read a nil error and call the callback although its parent failed. This interleaving is not modelled.
- Validator.ValidateV2: it locates schema errors with the range-checked `GetLineColForSchemaInstanceName`. So where the Go code panics (`/builds/<i>/method` for a missing build, validator.go:170), the model returns `LocateFailed` with an invalid instance name. The panic of the code as written is modelled only by `GetLineColAsWritten` (see Findings).
- ExecV2.ExecuteDocument: the `dependency '%s' failed` message formats a `*YAMLNodeMetadata[string]` pointer (v2/internal/exec/exec.go:111), so what it prints depends on the pointer. The model leaves that text to a `describe` parameter.
- Exec.Execute: requires a closed, acyclic node list (`Wired`). On a cyclic graph the Go loop never ends, and a nil parent from an undeclared dependency crashes `ShouldStart`.
- Worker.Worker.Apply: requires a graph the dependency resolver accepts, because the live Go code runs no validation (the `Resolve` call is commented out) and would loop or crash otherwise.
- Worker.GetExecFunc: a resource whose name has no driver gives `MissingDriver`. In Go that calls `Apply` on a nil interface and panics.
- Commented-out code in v2/pkg/worker/worker.go (hooks, driver construction, consolidated errors, post-apply), because it is not live code.
- The error result of both `GetExecNodes`, because it is always nil.
- pkg/models, which declares the resources internal/exec/exec.go runs over, is not part of this model. Its `Name` and `Dependencies` are taken from their use in exec.go (pkg/types/resource.go calls the second `DependsOn`).
- The `Raw` document and the JSON-schema compilation and validation (embedded files, jsonschema library): the outcome is the `SchemaOutcome` input of `Validator.ValidateV2`.
- `ValidatorError.Error()` (v2/pkg/validator/errors.go), which formats the position and dereferences a possibly nil metadata pointer: the model keeps the error as a structured value.
- Nil elements inside the document's lists (`[]*Variable`, `[]*Build`, `[]*Resource`) are not modelled.
- GoStrings.Atoi: the two Go error kinds (syntax, range) are one `None`.
- The jsonpath library's `Parse` and `FindResults`, and `%v`, are inputs: `JsonPath.GetResult` takes their outcomes and a formatting function.
- DepResolver.DependencyResolver.Resolve: requires a fresh resolver, since a second call on the same resolver is not modelled.
- Kubeconfig.StripAndValidateClientContexts: only current context, clusters, users and contexts are modelled. `DeepCopy`'s other fields, and the pointer sharing between the raw and the copied configuration, are not.
- `resolveKubeconfigPath`, the config loading, `populateCertificateRefs` and `populateOIDCPluginCerts`: these are file and environment I/O. `Kubeconfig.GetClientCmdFromHost` takes the loaded configuration.
- `clientcmd.Validate` and `NewDefaultClientConfig`: validation is a function parameter, and the client configuration is the stripped configuration itself.
- `Agent.Apply` (a dynamic client's Get/Create/Update), the REST mapper and `schema.FromAPIVersionAndKind`: `KubeAgent.GetGroupVersionResource` takes the mapping as a function.
- The Kubernetes config.go/driver.go, the Helm and Terraform drivers, pkg/worker/worker.go, the parsers and the entry points, because they are I/O and library glue.

## Findings

| source | as written | input that shows it | evidently intended | confidence | as-written member | corrected member |
|---|---|---|---|---|---|---|
| v2/pkg/validator/validator.go:167-171 | `Builds.GetValue()[buildIdx]` is read with no range check, unlike the variables branch | a schema error at `/builds/0/method` on a document whose typed builds list is empty | an index out of range is reported as `invalid instance name`, as in the variables branch (lines 133-135) | not executed; the schema reports locations of the raw document, so this needs the typed list to be shorter than the raw one | Validator.AsWrittenPanics | Validator.LocateBuildMethodOutOfRange |
