# Vector pipeline compiler: input and output stages

This project models and proves properties of the two stages of the
cluster-logging-operator's vector generator. Both stages turn a
ClusterLogForwarder specification (inputs, outputs, pipelines) into an
ordered list of configuration elements.

- The **input stage** (`Inputs`) does four things:
  - it splits container logs into `app` and `infra` branches with a fixed
    predicate on namespaces;
  - it tags the application, infrastructure and audit streams with remaps;
  - it compiles each pipeline-referenced application input into a filter:
    an OR over its namespaces, ANDed with an AND over its match labels in
    sorted key order, or `true` when only a rate-limit policy is set;
  - it emits the `route_application_logs` route, its per-input source
    throttles, and one remap per HTTP-audit or syslog receiver.
- The **output stage** (`Outputs`) indexes outputs to the pipelines that
  feed them. Then, for each output in declaration order, it:
  - resolves the output's secret;
  - adds a sink throttle when the output's policy allows one;
  - dispatches to one of eight destination builders.

  It always ends with the node-name metrics remap and the Prometheus
  exporter.

Modules:

- `Optional`: the Option type.
- `Filters`: the route expression tree (`Eq`, `StartsWith`, `Neg`, `Paren`,
  `And`, `Or`, `True`). It has an evaluator over a record's namespace and
  labels, and the infrastructure/application container predicates.
- `Lex`: a lexicographic order on characters (Go's byte order agrees with it
  on valid UTF-8), `sort.Strings` (as an insertion sort)
  and the collection of a map's keys.
- `Elements`: the compiled elements.
- `Forwarder`: the forwarder API types, including the receiver union of
  `apis/logging/v1/input_receiver_types.go` (`http`/`syslog`,
  `kubeAPIAudit`), and `InputMap`.
- `Inputs`: `internal/generator/vector/input/inputs.go`.
- `Outputs`: `internal/generator/vector/outputs.go`.

How each Go operation is modelled:

- **Loops become methods.** Each Go operation that builds its result with
  loops is a method with the same loops: `Inputs`, `UserDefinedAppRouting`,
  `OutputFromPipelines` and `Outputs`.
- **Each method is proved against a function.** The method's postcondition
  equates its result with a specification function of its inputs:
  `InputElements`, `AppRoutes`, `PipelineIndex` or `OutputElements`.
- **The function carries the lemmas.** The properties are proved as lemmas
  about those functions.

Code this model does not contain is modelled as parameters that the model
does not interpret:

- The policy helpers `HasPolicy`/`GetMaxRecordsPerSecond`, for inputs and
  for outputs.
- `IsAuditHttpReceiver` and `IsSyslogReceiver`.
- `RouteMap.List` and `MergeElements`.
- The eight per-destination `Conf` builders.
- The audit source names, `LogCollectorToken`, the metrics component
  names, and the exporter's listen address and port.
- The truth value of an empty AND or OR. The model represents it as
  `EmptyRendering`.

`GatherSources` is also not part of the model. The stage takes the set of
gathered log types as an argument instead.

Two behaviours of the code are easy to misread. The model follows the code
in both:

- **Routes for a policy with no positive threshold.** The always-true
  route entry is made for every input with a policy (inputs.go:220-221),
  not only for one with a positive threshold. An input whose threshold is
  zero or negative therefore still gets a `true` route entry, but no
  throttle (`AppRoutesMembership`, `RouteElementsFacts`).
- **A zero threshold is not an error.** It is not rejected. The code
  silently skips the throttle (inputs.go:155) and, for outputs, the sink
  too (outputs.go:71-78).

## Model

| member | source | states |
|---|---|---|
| Filters.AppInfraPartition | internal/generator/vector/input/inputs.go:38-44 | The application predicate accepts a record exactly when the infrastructure predicate rejects it. Both equal "the namespace is not (is) kube-*, openshift-*, default, openshift or kube", so every container log goes to exactly one branch. |
| Filters.InfraNamespaceShape | internal/generator/vector/input/inputs.go:38-43 | Every namespace the infrastructure predicate accepts starts with `kube` or `openshift`, or equals `default`. |
| Filters.InfraPredicateMeaning | internal/generator/vector/input/inputs.go:38-43 | The infrastructure predicate holds iff the namespace is one of the five listed forms. |
| Filters.MatchNSMeaning | internal/generator/vector/input/inputs.go:52-54 | MatchNS(ns) accepts exactly the records in namespace ns. |
| Filters.MatchLabelMeaning | internal/generator/vector/input/inputs.go:55-60 | MatchLabel(k, v) accepts exactly the records that carry label k with value v. |
| Filters.EvalAndPair | internal/generator/vector/input/inputs.go:219 | A two-operand AND holds iff both operands hold. |
| Lex.BelowTransitive | internal/generator/vector/input/inputs.go:213 | The string order that sort.Strings uses is transitive. |
| Lex.BelowTotal | internal/generator/vector/input/inputs.go:213 | Any two distinct strings are ordered one way or the other. |
| Lex.BelowIrreflexive | internal/generator/vector/input/inputs.go:213 | No string is below itself. |
| Lex.AtMostAntisymmetric | internal/generator/vector/input/inputs.go:213 | Two strings each at most the other are equal. |
| Lex.Insert | internal/generator/vector/input/inputs.go:213 | Inserting into a sorted list adds exactly the one element (multiset). |
| Lex.InsertSorted | internal/generator/vector/input/inputs.go:213 | Inserting into a sorted list keeps it sorted. |
| Lex.Sort | internal/generator/vector/input/inputs.go:213 | The sorted list is a permutation of its input. |
| Lex.SortSorted | internal/generator/vector/input/inputs.go:213 | The sorted list is sorted. |
| Lex.SortedUnique | internal/generator/vector/input/inputs.go:213 | Two sorted permutations of the same multiset are equal, so the order of the collected keys does not matter. |
| Lex.SortedListing | internal/generator/vector/input/inputs.go:209-213 | The sorted key listing of a set holds exactly the set's elements. |
| Lex.SortedListingSorted | internal/generator/vector/input/inputs.go:209-213 | The sorted key listing is sorted. |
| Lex.SortedListingStrict | internal/generator/vector/input/inputs.go:209-213 | The sorted key listing is strictly ascending, with no duplicates. |
| Lex.SortIsSortedListing | internal/generator/vector/input/inputs.go:209-213 | Sorting keys collected in any order gives the one sorted listing of the key set. |
| Lex.Enumerate | internal/generator/vector/input/inputs.go:209-212 | Collecting the keys of a map yields each key exactly once, in some order. |
| Lex.SortedKeys | internal/generator/vector/input/inputs.go:209-213 | Collecting the keys and sorting them gives the one sorted listing of the key set. |
| Forwarder.InputMap | internal/generator/vector/input/inputs.go:192 | The declared inputs by name: a name is a key iff some input has it, and the entry under a name is a declared input with that name. |
| Inputs.AddThrottle | internal/generator/vector/input/inputs.go:63-87 | This is one throttle with id `source_throttle_<name>` reading `route_application_logs.<name>`. With a container limit, its key is `"{{ file }}"` and its threshold is that limit. Otherwise its key is empty and its threshold is the group limit. |
| Inputs.ThrottleIdsInjective | internal/generator/vector/input/inputs.go:80 | Two source throttles have the same id iff their inputs have the same name. |
| Inputs.PrefixPreservesOrder | internal/generator/vector/input/inputs.go:80 | Prefixing `source_throttle_` keeps the order of names. |
| Inputs.ContainerRoutesPartition | internal/generator/vector/input/inputs.go:93-107 | The `app` key is present iff application logs are gathered, and `infra` iff infrastructure logs are. There are no other keys. With both present, each record is accepted by exactly one of them. |
| Inputs.ContainerRouteEmitted | internal/generator/vector/input/inputs.go:93-108 | `route_container_logs` is in the stage iff application or infrastructure logs are gathered. It reads `container_logs` with the branches above. |
| Inputs.TypeTagging | internal/generator/vector/input/inputs.go:110-138 | For each of application, infrastructure and audit, a remap with that id is in the stage iff that type is gathered, and at most one position of the stage holds it. Every such remap is the canonical one: application reads only `route_container_logs.app`; infrastructure reads `route_container_logs.infra` and `journal_logs`; audit reads the four audit sources. |
| Inputs.TypeRemapsTagging | internal/generator/vector/input/inputs.go:110-138 | The same as TypeTagging, for the type remaps alone: each is present iff gathered, canonical, and at most once. |
| Inputs.ContainerRouteOfParts | internal/generator/vector/input/inputs.go:89-189 | A container route in the stage can only come from its first part. |
| Inputs.TaggingOfParts | internal/generator/vector/input/inputs.go:89-189 | When the other parts of the stage carry no remap with a canonical type's id, the stage tags a canonical type as the type remaps do: present iff present there, canonical if canonical there, and at most once if at most once there. |
| Inputs.ReceiverIdsNotCanonical | internal/generator/vector/input/inputs.go:162-187 | A receiver remap's id (`<name>_input` or `syslog_input`) is never a canonical type's id. |
| Inputs.NoRemapsInRouteElements | internal/generator/vector/input/inputs.go:140-160 | The application route part holds only routes with id `route_application_logs`, and throttles. |
| Inputs.LabelMatchesShape | internal/generator/vector/input/inputs.go:206-217 | There is one label equality per match label, each testing that label for its value. |
| Inputs.LabelMatchesOrdered | internal/generator/vector/input/inputs.go:213-216 | The label equalities come in strictly ascending key order. |
| Inputs.LabelMatchesCover | internal/generator/vector/input/inputs.go:214-216 | Every match label has its equality. |
| Inputs.AppFilterShape | internal/generator/vector/input/inputs.go:200-219 | A filter exists iff there is a namespace or a match label. It is AND(OR(namespace matches in declaration order), AND(label matches)). |
| Inputs.NamespaceClauseMeaning | internal/generator/vector/input/inputs.go:201-205 | The namespace OR accepts a record iff its namespace is listed (an empty list takes the empty-OR value). |
| Inputs.LabelClauseMeaning | internal/generator/vector/input/inputs.go:207-217 | The label AND accepts a record iff it carries every match label (an empty map takes the empty-AND value). |
| Inputs.LabelClauseSound | internal/generator/vector/input/inputs.go:207-217 | A record that a non-empty label AND accepts carries every match label with its value. |
| Inputs.LabelClauseComplete | internal/generator/vector/input/inputs.go:207-217 | Every label equality accepts a record that carries every match label with its value. |
| Inputs.AppFilterSemantics | internal/generator/vector/input/inputs.go:218-219 | A compiled filter accepts a record iff both clauses do. |
| Inputs.AppFilterIgnoresOtherSelectors | internal/generator/vector/input/inputs.go:200-219 | Exclude-namespaces, containers, match expressions and limits never change the filter. |
| Inputs.RefsOfMeaning | internal/generator/vector/input/inputs.go:194-195 | A name is referenced iff some pipeline lists it in its input refs. |
| Inputs.AppRoutes | internal/generator/vector/input/inputs.go:191-228 | Every routed name is a declared application input. |
| Inputs.AppRoutesMembership | internal/generator/vector/input/inputs.go:191-228 | An input is routed iff a pipeline references it, it is declared, it is an application input, and it has a filter or a policy. Unknown references are skipped. The entry is the filter, or `true` for a policy alone. |
| Inputs.CompileNamespaces | internal/generator/vector/input/inputs.go:200-205 | The loop yields the namespace equalities in declaration order. |
| Inputs.CompileLabels | internal/generator/vector/input/inputs.go:208-216 | The loop yields the label equalities in sorted key order. |
| Inputs.MatchLabelsOf | internal/generator/vector/input/inputs.go:214-216 | The loop yields one label equality per key, in the order of the keys. |
| Inputs.SelectorMatches | internal/generator/vector/input/inputs.go:199-217 | A nil selector or empty match labels yield no label clause. |
| Inputs.StepRefs | internal/generator/vector/input/inputs.go:195 | Visiting one more input ref adds exactly that name to the visited set. |
| Inputs.RoutesForAdd | internal/generator/vector/input/inputs.go:196-222 | Visiting a ref updates the route map at that name alone, and only when it gets an entry. |
| Inputs.UserDefinedAppRouting | internal/generator/vector/input/inputs.go:191-228 | The nested loops build exactly AppRoutes. |
| Inputs.PipelineRoutes | internal/generator/vector/input/inputs.go:195-224 | Visiting the input refs of one pipeline extends the route map to exactly the routes of the refs seen so far. |
| Inputs.AppRoutesRoutable | internal/generator/vector/input/inputs.go:150-157 | Every routed name is a declared input named by its key whose throttle can be built. |
| Inputs.SourceThrottlesSound | internal/generator/vector/input/inputs.go:151-157 | Every source throttle belongs to a key whose input passes the policy guard. |
| Inputs.SourceThrottlesComplete | internal/generator/vector/input/inputs.go:151-157 | Every key whose input passes the policy guard has its throttle. |
| Inputs.SourceThrottlesAscending | internal/generator/vector/input/inputs.go:141-157 | For strictly ascending keys, the throttle ids strictly ascend. |
| Inputs.RouteElementsFacts | internal/generator/vector/input/inputs.go:140-160 | `route_application_logs` reads `application` and is emitted iff the route map is non-empty. Throttles follow it: one for each routed input that passes the guard, none other, in strictly ascending id order. |
| Inputs.RouteThresholdsPositive | internal/generator/vector/input/inputs.go:153-156 | When the policy helpers read the limits the way AddThrottle does, every throttle after the route has a positive threshold. |
| Inputs.SourceThrottleThresholdPositive | internal/generator/vector/input/inputs.go:153-156 | No source throttle of a forwarder has a zero or negative threshold. |
| Inputs.SourceThrottlesStep | internal/generator/vector/input/inputs.go:152-157 | Visiting one more sorted key appends exactly that key's throttle, or nothing. |
| Inputs.SortedKeysReady | internal/generator/vector/input/inputs.go:141-146 | Every sorted key of the route map can be throttled without a nil limit. |
| Inputs.RouteApplicationStage | internal/generator/vector/input/inputs.go:140-159 | The route and its throttles are built exactly as RouteElementsOf states. |
| Inputs.SourceThrottleStage | internal/generator/vector/input/inputs.go:151-158 | The throttle loop yields SourceThrottles of the sorted keys. |
| Inputs.ReceiverRemapsSound | internal/generator/vector/input/inputs.go:162-187 | Every receiver remap is the audit remap (id `<name>_input`, reading `<name>_normalized`) of an HTTP-audit receiver, or the infrastructure remap `syslog_input` over `raw_syslog_logs` when some input is a syslog receiver. Nothing else is emitted. |
| Inputs.ReceiverRemapsComplete | internal/generator/vector/input/inputs.go:162-187 | Every HTTP-audit receiver gets its audit remap, and every syslog receiver the syslog remap. |
| Inputs.AuditRemapNotCanonical | internal/generator/vector/input/inputs.go:167 | An id ending in `_input` is never a canonical type's name. |
| Inputs.RoutesStep | internal/generator/vector/input/inputs.go:195-222 | Visiting one more input ref updates the route map at that name alone, and only when the input gets an entry. |
| Inputs.ApplicationRouteEntry | internal/generator/vector/input/inputs.go:198-222 | An application input's entry is its compiled filter, else `true` with a policy, else none. |
| Inputs.ReceiverStage | internal/generator/vector/input/inputs.go:162-187 | The receiver loop yields ReceiverRemaps in declaration order. |
| Inputs.ContainerStage | internal/generator/vector/input/inputs.go:93-108 | The container route is emitted exactly as ContainerRouting states. |
| Inputs.TypeStage | internal/generator/vector/input/inputs.go:110-138 | The type remaps are appended in the order application, infrastructure, audit, each only when its type is gathered. |
| Inputs.Inputs | internal/generator/vector/input/inputs.go:89-189 | Given that every routed input passing the throttle guard has a limit, the stage is the container route, then the type remaps, then the application route and throttles, then the receiver remaps. |
| Outputs.InsertRefsMeaning | internal/generator/vector/outputs.go:33-35 | Inserting a pipeline under each of its output refs adds exactly those pairs. |
| Outputs.IndexExact | internal/generator/vector/outputs.go:30-38 | Pipeline name p is under output o iff some pipeline named p lists o. o is a key iff some pipeline lists it. |
| Outputs.OutputFromPipelines | internal/generator/vector/outputs.go:30-38 | The nested loops build exactly PipelineIndex. |
| Outputs.AddThrottleForSink | internal/generator/vector/outputs.go:40-51 | This is one throttle with id `sink_throttle_<name>`, the given inputs, the output's limit as threshold and an empty key. |
| Outputs.SinkThrottleIdsInjective | internal/generator/vector/outputs.go:44 | Distinct outputs get distinct sink throttle ids. |
| Outputs.PrometheusOutput | internal/generator/vector/outputs.go:106-112 | The exporter with the given id and inputs listens on `<address>:<port>`. |
| Outputs.AddNodeNameToMetric | internal/generator/vector/outputs.go:114-119 | The remap has the given id and inputs. |
| Outputs.ResolveSecret | internal/generator/vector/outputs.go:58-69 | The output's own entry if its name is a key (even a nil one); else the collector token's entry; else none, which is not an error. |
| Outputs.Dispatch | internal/generator/vector/outputs.go:78-95 | A builder is found iff the type is one of the eight cases. |
| Outputs.OutputStep | internal/generator/vector/outputs.go:57-97 | One pass of the loop appends exactly what Step states: secret lookup, sink throttle, then the builder of the output's type. |
| Outputs.Outputs | internal/generator/vector/outputs.go:53-104 | The loop over outputs, followed by the two metrics elements, builds exactly OutputElements. |
| Outputs.MetricsLast | internal/generator/vector/outputs.go:100-102 | The last two elements are the node-name remap over the internal metrics and then the Prometheus exporter over that remap. With no outputs they are the only elements. |
| Outputs.StepAppends | internal/generator/vector/outputs.go:71-97 | When MergeElements appends, processing an output appends its contribution. |
| Outputs.FoldIsConcatenation | internal/generator/vector/outputs.go:57-97 | When MergeElements appends, the loop's result is the outputs' contributions concatenated in declaration order. |
| Outputs.FlattenAppend | internal/generator/vector/outputs.go:57-97 | Concatenating contributions distributes over splitting the output list. |
| Outputs.ContributionsAppend | internal/generator/vector/outputs.go:57-97 | The elements of earlier outputs precede those of later outputs. |
| Outputs.Contributions | internal/generator/vector/outputs.go:57-97 | There is one contribution per output, at its position. |
| Outputs.SegmentShape | internal/generator/vector/outputs.go:71-96 | A policy with a positive threshold yields the sink throttle over the listed pipelines, then a sink reading only `[sink_throttle_<name>]`. With no policy, the sink reads the listed pipelines. A policy with threshold ≤ 0 yields neither. |
| Outputs.SinkThrottleThresholdPositive | internal/generator/vector/outputs.go:40-76 | When the policy helper reads the output's limit, an output that passes the guard contributes first its throttle `sink_throttle_<name>`, whose threshold is positive: no sink throttle has a zero threshold. |
| Outputs.UnrecognizedTypeNoSink | internal/generator/vector/outputs.go:78-96 | A type outside the switch contributes only its throttle, if any. |
| Outputs.SinkThrottleReadsReferencingPipelines | internal/generator/vector/outputs.go:70-74 | With a listing that returns its set's elements, a sink throttle reads exactly the pipelines whose output refs name its output. |

## Left out

- The text rendering of expressions (`helpers.Quote`, `AND`, `OR`, the VRL
  field paths) and of input lists (`helpers.MakeInputs`, which wraps every
  element's inputs in both stages) is left out. Inputs are kept as plain
  sequences of component ids. Filters are kept as expression trees. The value
  an empty AND or OR takes is a parameter, because the helper that renders
  it is not part of this model.
- `GatherSources` is not part of this model. The gathered log types are an
  argument.
- VRL program text, `log.V(9)` logging and the TOML serialisation are left
  out. Remaps carry their steps as names.
- `HasPolicy`, `GetMaxRecordsPerSecond`, `IsAuditHttpReceiver`,
  `IsSyslogReceiver`, `RouteMap.List`, `MergeElements` and the
  per-destination `Conf` builders are parameters. A property that needs
  more says so in its requires, for example `MergeAppends` or
  `ListsElements`.
- `normalize.NewThrottle` is not part of this model. It is taken to build
  one throttle from its four arguments.
- `spec.InputMap()` and `RouteMap.Insert` are not part of this model. They
  are modelled as a map by name where the last declaration wins, and as
  set insertion.
- `Options` reaches only helpers that are not part of this model
  (`GatherSources` and the eight `Conf` builders). It is not a parameter
  here; the builder and gathered-type parameters may depend on it. The
  `CollectionSpec` and the secret contents, beyond being passed on, are
  not read by the code shown.
- Go nil dereferences become preconditions:
  - `AddThrottle` reads the group limit when the container limit is nil,
    so `Inputs` requires every routed input that passes the throttle guard
    to have a limit (`RoutedThrottleReady`);
  - `AddThrottleForSink` reads the output's limit, so `Outputs` requires
    every throttled output to have one.
- Global uniqueness of component ids is not proved. Every syslog receiver
  emits the same `syslog_input` id, so the code shown does not make ids
  unique.
- The output type string in Go is modelled as a datatype whose eight cases
  are the switch's and whose `Unrecognized` case holds every other string.
  The model does not stop `Unrecognized` from holding one of the eight
  names.
- Outputs.SegmentShape, Outputs.FoldIsConcatenation and
  Outputs.ContributionsAppend describe one output's contribution and the
  declaration order only when `MergeElements` appends. With an arbitrary
  merge, only `Outputs.Outputs` (equality with the fold) holds.
- Outputs.SinkThrottleThresholdPositive requires that the output policy
  helper reads the output's limit (`OutputPolicyReadsLimit`). The guard
  (outputs.go:72) reads `GetMaxRecordsPerSecond` while the throttle
  (outputs.go:46) carries the limit's field; without that, the guard checks
  one number and the throttle carries another.
- Inputs.RouteThresholdsPositive and Inputs.SourceThrottleThresholdPositive
  require that the policy helper reads the limits the way `AddThrottle`
  does. Without that, the guard checks one number and the throttle carries
  another.
