/** The input stage of the vector generator (internal/generator/vector/input/inputs.go):
    classifies container logs into application and infrastructure branches,
    tags the canonical log types, compiles the selectors of user-defined
    application inputs into a route, throttles the routed inputs that carry
    a rate-limit policy, and tags the logs of HTTP-audit and syslog receivers. */
module Inputs {
  import opened Optional
  import opened Filters
  import opened Lex
  import opened Elements
  import opened Forwarder

  const InputContainerLogs := "container_logs"
  const InputJournalLogs := "journal_logs"
  const RouteContainerLogs := "route_container_logs"
  const RouteApplicationLogs := "route_application_logs"
  /** The throttle of input n is named UserDefinedSourceThrottle + n. */
  const UserDefinedSourceThrottle := "source_throttle_"
  const PerContainerLimitKeyField := "\"{{ file }}\""

  const DescApplication := "Set log_type to \"application\""
  const DescInfrastructure := "Set log_type to \"infrastructure\""
  const DescAudit := "Set log_type to \"audit\""

  /** Helpers of the API package that are not part of this model:
      InputSpec.HasPolicy, InputSpec.GetMaxRecordsPerSecond,
      IsAuditHttpReceiver and IsSyslogReceiver. */
  datatype InputHelpers = InputHelpers(
    hasPolicy: InputSpec -> bool,
    maxRecordsPerSecond: InputSpec -> int,
    isAuditHttpReceiver: InputSpec -> bool,
    isSyslogReceiver: InputSpec -> bool)

  /** The ids of the four raw audit sources, defined in the source package. */
  datatype RawSources = RawSources(hostAuditLogs: string, k8sAuditLogs: string, openshiftAuditLogs: string, ovnAuditLogs: string)

  predicate HasLimit(app: Application)
  {
    app.containerLimit.Some? || app.groupLimit.Some?
  }

  /** The guard under which an input gets a source throttle. */
  predicate Throttled(input: InputSpec, h: InputHelpers)
  {
    h.hasPolicy(input) && h.maxRecordsPerSecond(input) > 0
  }

  /** The policy helpers read the limits the way AddThrottle does. */
  ghost predicate PolicyReadsLimits(h: InputHelpers)
  {
    forall i: InputSpec | i.kind.ApplicationInput? && HasLimit(i.kind.application) ::
      h.maxRecordsPerSecond(i) ==
        if i.kind.application.containerLimit.Some? then i.kind.application.containerLimit.value.maxRecordsPerSecond
        else i.kind.application.groupLimit.value.maxRecordsPerSecond
  }

  // ---------------------------------------------------------------------
  // Source throttles

  function AddThrottle(input: InputSpec): (el: seq<Element>)
    requires input.kind.ApplicationInput? && HasLimit(input.kind.application)
    ensures |el| == 1 && el[0].Throttle?
    ensures el[0].id == UserDefinedSourceThrottle + input.name
    ensures el[0].inputs == [RouteApplicationLogs + "." + input.name]
    ensures input.kind.application.containerLimit.Some? ==>
      el[0].keyField == PerContainerLimitKeyField &&
      el[0].threshold == input.kind.application.containerLimit.value.maxRecordsPerSecond
    ensures input.kind.application.containerLimit.None? ==>
      el[0].keyField == "" &&
      el[0].threshold == input.kind.application.groupLimit.value.maxRecordsPerSecond
  {
    var app := input.kind.application;
    var threshold := if app.containerLimit.Some? then app.containerLimit.value.maxRecordsPerSecond
                     else app.groupLimit.value.maxRecordsPerSecond;
    var key := if app.containerLimit.Some? then PerContainerLimitKeyField else "";
    [Throttle(UserDefinedSourceThrottle + input.name, [RouteApplicationLogs + "." + input.name], threshold, key)]
  }

  /** A common prefix neither creates nor hides an order: P + a is below
      P + b exactly when a is below b. */
  lemma {:induction false} PrefixPreservesOrder(p: string, a: string, b: string)
    ensures Below(p + a, p + b) <==> Below(a, b)
    decreases |p|
  {
    if |p| != 0 {
      assert (p + a)[0] == p[0] == (p + b)[0];
      assert (p + a)[1..] == p[1..] + a && (p + b)[1..] == p[1..] + b;
      PrefixPreservesOrder(p[1..], a, b);
    } else {
      assert p + a == a && p + b == b;
    }
  }

  /** Throttle ids are determined by, and determine, the input name. */
  lemma ThrottleIdsInjective(a: InputSpec, b: InputSpec)
    requires a.kind.ApplicationInput? && HasLimit(a.kind.application)
    requires b.kind.ApplicationInput? && HasLimit(b.kind.application)
    ensures AddThrottle(a)[0].id == AddThrottle(b)[0].id <==> a.name == b.name
  {
    var p := UserDefinedSourceThrottle;
    if (p + a.name) == (p + b.name) {
      assert a.name == (p + a.name)[|p|..] == (p + b.name)[|p|..] == b.name;
    }
  }

  // ---------------------------------------------------------------------
  // Container log routing and type tagging

  function ContainerRoutes(types: set<string>): map<string, Expr>
  {
    (if InputNameApplication in types then map["app" := AppContainerLogs] else map[])
    + (if InputNameInfrastructure in types then map["infra" := InfraContainerLogs] else map[])
  }

  function ContainerRouting(types: set<string>): seq<Element>
  {
    if InputNameApplication in types || InputNameInfrastructure in types then
      [Route(RouteContainerLogs, [InputContainerLogs], ContainerRoutes(types))]
    else []
  }

  const AuditVrl := [SetLogType(InputNameAudit), FixHostname, FixTimestampField]

  /** The remap that tags canonical type t, for each of the three types. */
  function CanonicalRemap(t: string, src: RawSources): Element
  {
    if t == InputNameApplication then
      Remap(InputNameApplication, ["route_container_logs.app"], DescApplication, [SetLogType(InputNameApplication)])
    else if t == InputNameInfrastructure then
      Remap(InputNameInfrastructure, ["route_container_logs.infra", InputJournalLogs], DescInfrastructure,
            [SetLogType(InputNameInfrastructure)])
    else
      Remap(InputNameAudit, [src.hostAuditLogs, src.k8sAuditLogs, src.openshiftAuditLogs, src.ovnAuditLogs],
            DescAudit, AuditVrl)
  }

  function TypeRemaps(types: set<string>, src: RawSources): seq<Element>
  {
    (if InputNameApplication in types then [CanonicalRemap(InputNameApplication, src)] else [])
    + (if InputNameInfrastructure in types then [CanonicalRemap(InputNameInfrastructure, src)] else [])
    + (if InputNameAudit in types then [CanonicalRemap(InputNameAudit, src)] else [])
  }

  /** The two branches of the container route split every record between
      them: when both are present, exactly one accepts it. */
  lemma ContainerRoutesPartition(types: set<string>, r: Record, z: EmptyRendering)
    ensures ("app" in ContainerRoutes(types)) == (InputNameApplication in types)
    ensures ("infra" in ContainerRoutes(types)) == (InputNameInfrastructure in types)
    ensures ContainerRoutes(types).Keys <= {"app", "infra"}
    ensures InputNameApplication in types && InputNameInfrastructure in types ==>
      (Eval(ContainerRoutes(types)["app"], r, z) <==> !Eval(ContainerRoutes(types)["infra"], r, z))
  {
    AppInfraPartition(r, z);
  }

  // ---------------------------------------------------------------------
  // Selector compilation for user-defined application inputs

  function NamespaceMatches(nss: seq<string>): seq<Expr>
  {
    seq(|nss|, i requires 0 <= i < |nss| => MatchNS(nss[i]))
  }

  function LabelMatchesOf(keys: seq<string>, labels: map<string, string>): seq<Expr>
    requires forall i | 0 <= i < |keys| :: keys[i] in labels
  {
    seq(|keys|, i requires 0 <= i < |keys| => MatchLabel(keys[i], labels[keys[i]]))
  }

  /** One equality per label, in ascending key order. */
  ghost function LabelMatches(labels: map<string, string>): seq<Expr>
  {
    LabelMatchesOf(SortedListing(labels.Keys), labels)
  }

  /** The match labels a selector contributes; a nil selector contributes none. */
  function SelectedLabels(app: Application): map<string, string>
  {
    if app.selector.Some? then app.selector.value.matchLabels else map[]
  }

  /** The compiled filter of an application selector, None when it has
      neither namespaces nor match labels. */
  ghost function AppFilter(app: Application): Option<Expr>
  {
    var ns := NamespaceMatches(app.namespaces);
    var ls := LabelMatches(SelectedLabels(app));
    if |ns| != 0 || |ls| != 0 then Some(And([Or(ns), And(ls)])) else None
  }

  /** The route entry an input referenced by a pipeline gets, if any. */
  ghost function RouteEntry(input: InputSpec, h: InputHelpers): Option<Expr>
  {
    match input.kind
    case ApplicationInput(app) =>
      if AppFilter(app).Some? then AppFilter(app)
      else if h.hasPolicy(input) then Some(True)
      else None
    case _ => None
  }

  /** The label equalities: one per match label, each testing that label
      for the selector's value. */
  lemma LabelMatchesShape(labels: map<string, string>)
    ensures |LabelMatches(labels)| == |labels|
    ensures forall i | 0 <= i < |LabelMatches(labels)| ::
      var e := LabelMatches(labels)[i];
      e.Eq? && e.field.Label? && e.field.key in labels && e.value == labels[e.field.key]
  {
    var ks := SortedListing(labels.Keys);
    assert |ks| == |multiset(ks)|;
    assert |multiset(labels.Keys)| == |labels.Keys|;
  }

  /** The label equalities come in strictly ascending key order. */
  lemma LabelMatchesOrdered(labels: map<string, string>)
    ensures forall i, j | 0 <= i < j < |LabelMatches(labels)| ::
      Below(LabelMatches(labels)[i].field.key, LabelMatches(labels)[j].field.key)
  {
    SortedListingStrict(labels.Keys);
  }

  /** Every match label has its equality. */
  lemma LabelMatchesCover(labels: map<string, string>)
    ensures forall k | k in labels :: exists i | 0 <= i < |LabelMatches(labels)| :: LabelMatches(labels)[i].field.key == k
  {
    var ks := SortedListing(labels.Keys);
    var ls := LabelMatches(labels);
    forall k | k in labels ensures exists i | 0 <= i < |ls| :: ls[i].field.key == k {
      var i :| 0 <= i < |ks| && ks[i] == k;
      assert ls[i].field.key == k;
    }
  }

  /** The shape of a compiled filter: AND(OR(namespace matches in
      declaration order), AND(label matches in strictly ascending key
      order)); it exists exactly when there is a namespace or a match label. */
  lemma AppFilterShape(app: Application)
    ensures AppFilter(app).Some? <==> |app.namespaces| != 0 || |SelectedLabels(app)| != 0
    ensures AppFilter(app).Some? ==>
      AppFilter(app).value == And([Or(NamespaceMatches(app.namespaces)), And(LabelMatches(SelectedLabels(app)))])
    ensures forall i | 0 <= i < |app.namespaces| :: NamespaceMatches(app.namespaces)[i] == Eq(Namespace, app.namespaces[i])
    ensures |NamespaceMatches(app.namespaces)| == |app.namespaces|
  {
    LabelMatchesShape(SelectedLabels(app));
  }

  /** The namespace half accepts a record whose namespace is listed. */
  lemma NamespaceClauseMeaning(nss: seq<string>, r: Record, z: EmptyRendering)
    ensures Eval(Or(NamespaceMatches(nss)), r, z) <==>
      if |nss| == 0 then z.emptyOr else r.namespace in nss
  {
    var ns := NamespaceMatches(nss);
    if |nss| != 0 && r.namespace in nss {
      var i :| 0 <= i < |nss| && nss[i] == r.namespace;
      assert Eval(ns[i], r, z);
    }
  }

  lemma LabelClauseSound(labels: map<string, string>, r: Record, z: EmptyRendering)
    requires |labels| != 0 && Eval(And(LabelMatches(labels)), r, z)
    ensures forall k | k in labels :: k in r.labels && r.labels[k] == labels[k]
  {
    LabelMatchesShape(labels);
    LabelMatchesCover(labels);
    var ls := LabelMatches(labels);
    forall k | k in labels ensures k in r.labels && r.labels[k] == labels[k] {
      var i :| 0 <= i < |ls| && ls[i].field.key == k;
      assert Eval(ls[i], r, z);
    }
  }

  lemma LabelClauseComplete(labels: map<string, string>, r: Record, z: EmptyRendering)
    requires forall k | k in labels :: k in r.labels && r.labels[k] == labels[k]
    ensures forall i | 0 <= i < |LabelMatches(labels)| :: Eval(LabelMatches(labels)[i], r, z)
  {
    LabelMatchesShape(labels);
  }

  /** The label half accepts a record that carries every match label. */
  lemma LabelClauseMeaning(labels: map<string, string>, r: Record, z: EmptyRendering)
    ensures Eval(And(LabelMatches(labels)), r, z) <==>
      if |labels| == 0 then z.emptyAnd
      else forall k | k in labels :: k in r.labels && r.labels[k] == labels[k]
  {
    LabelMatchesShape(labels);
    if |labels| != 0 {
      if Eval(And(LabelMatches(labels)), r, z) {
        LabelClauseSound(labels, r, z);
      }
      if forall k | k in labels :: k in r.labels && r.labels[k] == labels[k] {
        LabelClauseComplete(labels, r, z);
      }
    }
  }

  /** What a compiled filter accepts: a record whose namespace is one of the
      listed ones and that carries every match label; an empty half takes
      the value the empty AND or OR renders to. */
  lemma AppFilterSemantics(app: Application, r: Record, z: EmptyRendering)
    requires AppFilter(app).Some?
    ensures
      var labels := SelectedLabels(app);
      Eval(AppFilter(app).value, r, z) <==>
        && (if |app.namespaces| == 0 then z.emptyOr else r.namespace in app.namespaces)
        && (if |labels| == 0 then z.emptyAnd
            else forall k | k in labels :: k in r.labels && r.labels[k] == labels[k])
  {
    var ns := NamespaceMatches(app.namespaces);
    var ls := LabelMatches(SelectedLabels(app));
    NamespaceClauseMeaning(app.namespaces, r, z);
    LabelClauseMeaning(SelectedLabels(app), r, z);
    assert AppFilter(app).value == And([Or(ns), And(ls)]);
    EvalAndPair(Or(ns), And(ls), r, z);
  }

  /** Exclude-namespaces, container globs, match expressions and limits never
      reach the filter: two selectors that agree on namespaces and match labels
      compile alike. */
  lemma AppFilterIgnoresOtherSelectors(a: Application, b: Application)
    requires a.namespaces == b.namespaces && SelectedLabels(a) == SelectedLabels(b)
    ensures AppFilter(a) == AppFilter(b)
  {
  }

  function Elems(s: seq<string>): set<string>
  {
    set x | x in s
  }

  /** The input names the pipelines reference, pipeline by pipeline. */
  function RefsOf(ps: seq<PipelineSpec>): set<string>
  {
    if ps == [] then {} else RefsOf(ps[..|ps| - 1]) + Elems(ps[|ps| - 1].inputRefs)
  }

  lemma {:induction false} RefsOfMeaning(ps: seq<PipelineSpec>, n: string)
    ensures n in RefsOf(ps) <==> exists k | 0 <= k < |ps| :: n in ps[k].inputRefs
  {
    if ps != [] {
      RefsOfMeaning(ps[..|ps| - 1], n);
      assert forall k | 0 <= k < |ps| - 1 :: ps[..|ps| - 1][k] == ps[k];
    }
  }

  ghost function RoutesFor(refs: set<string>, ud: map<string, InputSpec>, h: InputHelpers): map<string, Expr>
  {
    map n | n in refs && n in ud && RouteEntry(ud[n], h).Some? :: RouteEntry(ud[n], h).value
  }

  /** The route map of the user-defined application inputs. */
  ghost function AppRoutes(spec: ClusterLogForwarderSpec, h: InputHelpers): (rm: map<string, Expr>)
    ensures forall n | n in rm :: n in InputMap(spec.inputs) && InputMap(spec.inputs)[n].kind.ApplicationInput?
  {
    RoutesFor(RefsOf(spec.pipelines), InputMap(spec.inputs), h)
  }

  /** An input gets an entry exactly when some pipeline references it, it is
      declared and it selects application logs with a filter or a policy; an
      unknown reference is skipped. The entry is the compiled filter, or
      'true' for a policy alone. */
  lemma AppRoutesMembership(spec: ClusterLogForwarderSpec, h: InputHelpers, n: string)
    ensures n in AppRoutes(spec, h) <==>
      && (exists k | 0 <= k < |spec.pipelines| :: n in spec.pipelines[k].inputRefs)
      && n in InputMap(spec.inputs)
      && InputMap(spec.inputs)[n].kind.ApplicationInput?
      && (AppFilter(InputMap(spec.inputs)[n].kind.application).Some? || h.hasPolicy(InputMap(spec.inputs)[n]))
    ensures n in AppRoutes(spec, h) ==>
      var app := InputMap(spec.inputs)[n].kind.application;
      AppRoutes(spec, h)[n] == if AppFilter(app).Some? then AppFilter(app).value else True
  {
    RefsOfMeaning(spec.pipelines, n);
  }

  /** The namespace equalities, in declaration order. */
  method CompileNamespaces(nss: seq<string>) returns (matchNS: seq<Expr>)
    ensures matchNS == NamespaceMatches(nss)
  {
    matchNS := [];
    for i := 0 to |nss|
      invariant |matchNS| == i
      invariant forall j | 0 <= j < i :: matchNS[j] == MatchNS(nss[j])
    {
      matchNS := matchNS + [MatchNS(nss[i])];
    }
  }

  /** One label equality per key, in the order the keys are given. */
  method MatchLabelsOf(keys: seq<string>, labels: map<string, string>) returns (matchLabels: seq<Expr>)
    requires forall i | 0 <= i < |keys| :: keys[i] in labels
    ensures matchLabels == LabelMatchesOf(keys, labels)
  {
    matchLabels := [];
    for i := 0 to |keys|
      invariant |matchLabels| == i
      invariant forall j | 0 <= j < i :: matchLabels[j] == MatchLabel(keys[j], labels[keys[j]])
    {
      matchLabels := matchLabels + [MatchLabel(keys[i], labels[keys[i]])];
    }
  }

  /** The label equalities, keys collected from the map and sorted. */
  method CompileLabels(labels: map<string, string>) returns (matchLabels: seq<Expr>)
    ensures matchLabels == LabelMatches(labels)
  {
    var keys := SortedKeys(labels.Keys);
    matchLabels := MatchLabelsOf(keys, labels);
  }

  method SelectorMatches(app: Application) returns (matchNS: seq<Expr>, matchLabels: seq<Expr>)
    ensures matchNS == NamespaceMatches(app.namespaces)
    ensures matchLabels == LabelMatches(SelectedLabels(app))
  {
    matchNS := CompileNamespaces(app.namespaces);
    matchLabels := [];
    if app.selector.Some? && |app.selector.value.matchLabels| != 0 {
      matchLabels := CompileLabels(app.selector.value.matchLabels);
    } else {
      LabelMatchesShape(SelectedLabels(app));
    }
  }

  lemma StepRefs(before: set<string>, refs: seq<string>, r: int)
    requires 0 <= r < |refs|
    ensures before + Elems(refs[..r + 1]) == (before + Elems(refs[..r])) + {refs[r]}
  {
    assert refs[..r + 1] == refs[..r] + [refs[r]];
  }

  lemma RoutesForAdd(refs: set<string>, x: string, ud: map<string, InputSpec>, h: InputHelpers)
    ensures RoutesFor(refs + {x}, ud, h) ==
      if x in ud && RouteEntry(ud[x], h).Some? then RoutesFor(refs, ud, h)[x := RouteEntry(ud[x], h).value]
      else RoutesFor(refs, ud, h)
  {
  }

  /** Visiting one more input ref updates the route map at that name alone,
      and only when the input gets an entry. */
  lemma RoutesStep(before: set<string>, refs: seq<string>, r: int, ud: map<string, InputSpec>, h: InputHelpers)
    requires 0 <= r < |refs|
    ensures RoutesFor(before + Elems(refs[..r + 1]), ud, h) ==
      var prev := RoutesFor(before + Elems(refs[..r]), ud, h);
      if refs[r] in ud && RouteEntry(ud[refs[r]], h).Some? then prev[refs[r] := RouteEntry(ud[refs[r]], h).value]
      else prev
  {
    StepRefs(before, refs, r);
    RoutesForAdd(before + Elems(refs[..r]), refs[r], ud, h);
  }

  /** The route entry of an application input, compiled from its selector. */
  method ApplicationRouteEntry(input: InputSpec, h: InputHelpers) returns (entry: Option<Expr>)
    requires input.kind.ApplicationInput?
    ensures entry == RouteEntry(input, h)
  {
    var app := input.kind.application;
    var matchNS, matchLabels := SelectorMatches(app);
    if |matchNS| != 0 || |matchLabels| != 0 {
      entry := Some(And([Or(matchNS), And(matchLabels)]));
    } else if h.hasPolicy(input) {
      entry := Some(True);
    } else {
      entry := None;
    }
  }

  /** Visit the input refs of one pipeline: each declared application input
      with a filter or a policy gets its entry under its name. */
  method PipelineRoutes(routeMap: map<string, Expr>, before: set<string>, refs: seq<string>,
                        userDefined: map<string, InputSpec>, h: InputHelpers) returns (rm: map<string, Expr>)
    requires forall n | n in userDefined :: userDefined[n].name == n
    requires routeMap == RoutesFor(before, userDefined, h)
    ensures rm == RoutesFor(before + Elems(refs), userDefined, h)
  {
    rm := routeMap;
    for r := 0 to |refs|
      invariant rm == RoutesFor(before + Elems(refs[..r]), userDefined, h)
    {
      var inRef := refs[r];
      RoutesStep(before, refs, r, userDefined, h);
      if inRef in userDefined {
        var input := userDefined[inRef];
        if input.kind.ApplicationInput? {
          var entry := ApplicationRouteEntry(input, h);
          if entry.Some? {
            rm := rm[input.name := entry.value];
          }
        }
      }
    }
    assert refs[..|refs|] == refs;
  }

  method UserDefinedAppRouting(spec: ClusterLogForwarderSpec, h: InputHelpers) returns (routeMap: map<string, Expr>)
    ensures routeMap == AppRoutes(spec, h)
  {
    var userDefined := InputMap(spec.inputs);
    routeMap := map[];
    for p := 0 to |spec.pipelines|
      invariant routeMap == RoutesFor(RefsOf(spec.pipelines[..p]), userDefined, h)
    {
      routeMap := PipelineRoutes(routeMap, RefsOf(spec.pipelines[..p]), spec.pipelines[p].inputRefs, userDefined, h);
      RefsOfStep(spec.pipelines, p);
    }
    assert spec.pipelines[..|spec.pipelines|] == spec.pipelines;
  }

  lemma RefsOfStep(ps: seq<PipelineSpec>, p: int)
    requires 0 <= p < |ps|
    ensures RefsOf(ps[..p + 1]) == RefsOf(ps[..p]) + Elems(ps[p].inputRefs)
  {
    assert ps[..p + 1][..p] == ps[..p];
  }

  // ---------------------------------------------------------------------
  // The route over user-defined inputs and its throttles

  /** A key can be throttled without AddThrottle dereferencing a nil limit. */
  predicate ThrottleReady(k: string, ud: map<string, InputSpec>, h: InputHelpers)
  {
    k in ud && Throttled(ud[k], h) ==> ud[k].kind.ApplicationInput? && HasLimit(ud[k].kind.application)
  }

  /** The source throttles of the keys, in the order of the keys. */
  function SourceThrottles(keys: seq<string>, ud: map<string, InputSpec>, h: InputHelpers): seq<Element>
    requires forall i | 0 <= i < |keys| :: ThrottleReady(keys[i], ud, h)
  {
    if keys == [] then []
    else
      var n := |keys| - 1;
      var k := keys[n];
      assert ThrottleReady(keys[n], ud, h);
      assert forall i | 0 <= i < n :: keys[..n][i] == keys[i];
      SourceThrottles(keys[..n], ud, h) + (if k in ud && Throttled(ud[k], h) then AddThrottle(ud[k]) else [])
  }

  /** AddThrottle reads GroupLimit when ContainerLimit is nil, so every
      routed input that passes the throttle guard must carry a limit; the
      code dereferences no other input's limit. */
  ghost predicate RoutedThrottleReady(spec: ClusterLogForwarderSpec, h: InputHelpers)
  {
    forall n | n in AppRoutes(spec, h) :: ThrottleReady(n, InputMap(spec.inputs), h)
  }

  /** Every routed key names a user-defined input that can be throttled. */
  predicate Routable(rm: map<string, Expr>, ud: map<string, InputSpec>, h: InputHelpers)
  {
    forall n | n in rm :: n in ud && ud[n].name == n && ThrottleReady(n, ud, h)
  }

  /** The route over the route map followed by its throttles in key order. */
  ghost function RouteElementsOf(rm: map<string, Expr>, ud: map<string, InputSpec>, h: InputHelpers): seq<Element>
    requires Routable(rm, ud, h)
  {
    if |rm| == 0 then []
    else
      var keys := SortedListing(rm.Keys);
      [Route(RouteApplicationLogs, [InputNameApplication], rm)] + SourceThrottles(keys, ud, h)
  }

  lemma AppRoutesRoutable(spec: ClusterLogForwarderSpec, h: InputHelpers)
    requires RoutedThrottleReady(spec, h)
    ensures Routable(AppRoutes(spec, h), InputMap(spec.inputs), h)
  {
  }

  ghost function AppRouteElements(spec: ClusterLogForwarderSpec, h: InputHelpers): seq<Element>
    requires RoutedThrottleReady(spec, h)
  {
    AppRoutesRoutable(spec, h);
    RouteElementsOf(AppRoutes(spec, h), InputMap(spec.inputs), h)
  }

  /** Element ids strictly ascending. */
  predicate AscendingIds(t: seq<Element>)
  {
    forall j1, j2 | 0 <= j1 < j2 < |t| :: Below(t[j1].id, t[j2].id)
  }

  /** e is the throttle of some key that passes the guard. */
  predicate ThrottleOfSomeKey(e: Element, keys: seq<string>, ud: map<string, InputSpec>, h: InputHelpers)
  {
    exists i | 0 <= i < |keys| ::
      && keys[i] in ud && Throttled(ud[keys[i]], h)
      && ud[keys[i]].kind.ApplicationInput? && HasLimit(ud[keys[i]].kind.application)
      && e == AddThrottle(ud[keys[i]])[0]
  }

  /** Every element of t is the throttle of some key that passes the guard. */
  predicate ThrottlesFromKeys(t: seq<Element>, keys: seq<string>, ud: map<string, InputSpec>, h: InputHelpers)
  {
    forall j | 0 <= j < |t| :: ThrottleOfSomeKey(t[j], keys, ud, h)
  }

  /** Every key that passes the guard has its throttle in t. */
  predicate KeysThrottledIn(t: seq<Element>, keys: seq<string>, ud: map<string, InputSpec>, h: InputHelpers)
  {
    forall i | 0 <= i < |keys| && keys[i] in ud && Throttled(ud[keys[i]], h) ::
      ud[keys[i]].kind.ApplicationInput? && HasLimit(ud[keys[i]].kind.application) &&
      AddThrottle(ud[keys[i]])[0] in t
  }

  /** Every throttle belongs to a key that passes the guard. */
  lemma {:induction false} SourceThrottlesSound(keys: seq<string>, ud: map<string, InputSpec>, h: InputHelpers)
    requires forall i | 0 <= i < |keys| :: ThrottleReady(keys[i], ud, h)
    ensures ThrottlesFromKeys(SourceThrottles(keys, ud, h), keys, ud, h)
    decreases |keys|
  {
    if keys != [] {
      var n := |keys| - 1;
      var init := keys[..n];
      assert forall i | 0 <= i < n :: init[i] == keys[i];
      SourceThrottlesSound(init, ud, h);
      var t0 := SourceThrottles(init, ud, h);
      var t := SourceThrottles(keys, ud, h);
      var k := keys[n];
      assert t == t0 + (if k in ud && Throttled(ud[k], h) then AddThrottle(ud[k]) else []);
      forall j | 0 <= j < |t| ensures ThrottleOfSomeKey(t[j], keys, ud, h) {
        if j < |t0| {
          assert t[j] == t0[j];
          var i :| 0 <= i < |init| && init[i] in ud && Throttled(ud[init[i]], h)
            && ud[init[i]].kind.ApplicationInput? && HasLimit(ud[init[i]].kind.application)
            && t0[j] == AddThrottle(ud[init[i]])[0];
          assert keys[i] == init[i];
        } else {
          assert ThrottleReady(keys[n], ud, h);
          assert t[j] == AddThrottle(ud[keys[n]])[0];
        }
      }
    }
  }

  /** Every key that passes the guard has its throttle. */
  lemma {:induction false} SourceThrottlesComplete(keys: seq<string>, ud: map<string, InputSpec>, h: InputHelpers)
    requires forall i | 0 <= i < |keys| :: ThrottleReady(keys[i], ud, h)
    ensures KeysThrottledIn(SourceThrottles(keys, ud, h), keys, ud, h)
    decreases |keys|
  {
    if keys != [] {
      var n := |keys| - 1;
      var init := keys[..n];
      assert forall i | 0 <= i < n :: init[i] == keys[i];
      SourceThrottlesComplete(init, ud, h);
      var t0 := SourceThrottles(init, ud, h);
      var t := SourceThrottles(keys, ud, h);
      var k := keys[n];
      assert t == t0 + (if k in ud && Throttled(ud[k], h) then AddThrottle(ud[k]) else []);
      forall i | 0 <= i < |keys| && keys[i] in ud && Throttled(ud[keys[i]], h)
        ensures ud[keys[i]].kind.ApplicationInput? && HasLimit(ud[keys[i]].kind.application)
        ensures AddThrottle(ud[keys[i]])[0] in t
      {
        assert ThrottleReady(keys[i], ud, h);
        if i < n {
          assert keys[i] == init[i];
        }
      }
    }
  }

  /** With strictly ascending keys, naming each input under its own key, the
      throttle ids strictly ascend. */
  lemma {:induction false} SourceThrottlesAscending(keys: seq<string>, ud: map<string, InputSpec>, h: InputHelpers)
    requires forall i | 0 <= i < |keys| :: ThrottleReady(keys[i], ud, h)
    requires forall i | 0 <= i < |keys| && keys[i] in ud :: ud[keys[i]].name == keys[i]
    requires forall i, j | 0 <= i < j < |keys| :: Below(keys[i], keys[j])
    ensures AscendingIds(SourceThrottles(keys, ud, h))
    decreases |keys|
  {
    if keys != [] {
      var n := |keys| - 1;
      var init := keys[..n];
      assert forall i | 0 <= i < n :: init[i] == keys[i];
      SourceThrottlesAscending(init, ud, h);
      SourceThrottlesSound(init, ud, h);
      var t0 := SourceThrottles(init, ud, h);
      var t := SourceThrottles(keys, ud, h);
      var k := keys[n];
      assert t == t0 + (if k in ud && Throttled(ud[k], h) then AddThrottle(ud[k]) else []);
      if k in ud && Throttled(ud[k], h) {
        forall j1 | 0 <= j1 < |t0| ensures Below(t[j1].id, t[|t0|].id) {
          assert ThrottleOfSomeKey(t0[j1], init, ud, h);
          var i :| 0 <= i < |init| && init[i] in ud && Throttled(ud[init[i]], h)
            && ud[init[i]].kind.ApplicationInput? && HasLimit(ud[init[i]].kind.application)
            && t0[j1] == AddThrottle(ud[init[i]])[0];
          assert Below(keys[i], keys[n]);
          PrefixPreservesOrder(UserDefinedSourceThrottle, init[i], k);
        }
      }
    }
  }

  /** The route over the application stream is emitted exactly when some
      input is routed; after it come the source throttles: one for each routed
      input that passes the policy guard and no other, in ascending order of
      name. */
  lemma RouteElementsFacts(rm: map<string, Expr>, ud: map<string, InputSpec>, h: InputHelpers)
    requires Routable(rm, ud, h)
    ensures var el := RouteElementsOf(rm, ud, h);
      && (|el| == 0 <==> |rm| == 0)
      && (|rm| != 0 ==> el[0] == Route(RouteApplicationLogs, [InputNameApplication], rm))
    ensures var el := RouteElementsOf(rm, ud, h);
      forall j | 1 <= j < |el| :: exists n | n in rm :: Throttled(ud[n], h) && el[j] == AddThrottle(ud[n])[0]
    ensures var el := RouteElementsOf(rm, ud, h);
      forall n | n in rm && Throttled(ud[n], h) :: AddThrottle(ud[n])[0] in el[1..]
    ensures var el := RouteElementsOf(rm, ud, h);
      |el| != 0 ==> AscendingIds(el[1..])
  {
    var el := RouteElementsOf(rm, ud, h);
    if |rm| != 0 {
      var keys := SortedListing(rm.Keys);
      SortedListingStrict(rm.Keys);
      var t := SourceThrottles(keys, ud, h);
      SourceThrottlesSound(keys, ud, h);
      SourceThrottlesComplete(keys, ud, h);
      SourceThrottlesAscending(keys, ud, h);
      assert el[1..] == t;
      forall j | 1 <= j < |el| ensures exists n | n in rm :: Throttled(ud[n], h) && el[j] == AddThrottle(ud[n])[0] {
        assert el[j] == t[j - 1];
        var i :| 0 <= i < |keys| && keys[i] in ud && Throttled(ud[keys[i]], h)
          && ud[keys[i]].kind.ApplicationInput? && HasLimit(ud[keys[i]].kind.application)
          && t[j - 1] == AddThrottle(ud[keys[i]])[0];
        assert keys[i] in rm;
      }
      forall n | n in rm && Throttled(ud[n], h) ensures AddThrottle(ud[n])[0] in el[1..] {
        var i :| 0 <= i < |keys| && keys[i] == n;
      }
    }
  }

  /** A zero or negative threshold never reaches a throttle: when the policy
      helpers read the limits the way AddThrottle does, every source throttle
      after the route has a positive threshold. */
  lemma RouteThresholdsPositive(rm: map<string, Expr>, ud: map<string, InputSpec>, h: InputHelpers)
    requires Routable(rm, ud, h)
    requires PolicyReadsLimits(h)
    ensures var el := RouteElementsOf(rm, ud, h);
      forall j | 1 <= j < |el| :: el[j].Throttle? && el[j].threshold > 0
  {
    RouteElementsFacts(rm, ud, h);
  }

  /** No source throttle of the forwarder has a zero or negative threshold. */
  lemma SourceThrottleThresholdPositive(spec: ClusterLogForwarderSpec, h: InputHelpers)
    requires RoutedThrottleReady(spec, h)
    requires PolicyReadsLimits(h)
    ensures forall e | e in AppRouteElements(spec, h) && e.Throttle? :: e.threshold > 0
  {
    AppRoutesRoutable(spec, h);
    var el := AppRouteElements(spec, h);
    RouteThresholdsPositive(AppRoutes(spec, h), InputMap(spec.inputs), h);
    RouteElementsFacts(AppRoutes(spec, h), InputMap(spec.inputs), h);
    forall e | e in el && e.Throttle? ensures e.threshold > 0 {
      var j :| 0 <= j < |el| && el[j] == e;
    }
  }

  // ---------------------------------------------------------------------
  // Receivers

  function AuditReceiverRemap(input: InputSpec): Element
  {
    Remap(input.name + "_input", [input.name + "_normalized"], DescAudit, AuditVrl)
  }

  const SyslogRemap := Remap("syslog_input", ["raw_syslog_logs"], DescInfrastructure, [SetLogType(InputNameInfrastructure)])

  function ReceiverRemapsFor(input: InputSpec, h: InputHelpers): seq<Element>
  {
    (if h.isAuditHttpReceiver(input) then [AuditReceiverRemap(input)] else [])
    + (if h.isSyslogReceiver(input) then [SyslogRemap] else [])
  }

  function ReceiverRemaps(inputs: seq<InputSpec>, h: InputHelpers): seq<Element>
  {
    if inputs == [] then []
    else ReceiverRemaps(inputs[..|inputs| - 1], h) + ReceiverRemapsFor(inputs[|inputs| - 1], h)
  }

  /** Only receivers contribute here: each element is the audit remap of an
      HTTP-audit receiver, or the syslog remap when some receiver is syslog. */
  lemma {:induction false} ReceiverRemapsSound(inputs: seq<InputSpec>, h: InputHelpers)
    ensures forall e | e in ReceiverRemaps(inputs, h) ::
      || (exists i | 0 <= i < |inputs| :: h.isAuditHttpReceiver(inputs[i]) && e == AuditReceiverRemap(inputs[i]))
      || (e == SyslogRemap && exists i | 0 <= i < |inputs| :: h.isSyslogReceiver(inputs[i]))
  {
    if inputs != [] {
      var n := |inputs| - 1;
      ReceiverRemapsSound(inputs[..n], h);
      assert forall i | 0 <= i < n :: inputs[..n][i] == inputs[i];
    }
  }

  /** Every HTTP-audit receiver gets an audit remap over its normalized
      stream and every syslog receiver the infrastructure remap over the raw
      syslog stream. */
  lemma {:induction false} ReceiverRemapsComplete(inputs: seq<InputSpec>, h: InputHelpers)
    ensures forall i | 0 <= i < |inputs| && h.isAuditHttpReceiver(inputs[i]) ::
      AuditReceiverRemap(inputs[i]) in ReceiverRemaps(inputs, h)
    ensures forall i | 0 <= i < |inputs| && h.isSyslogReceiver(inputs[i]) ::
      SyslogRemap in ReceiverRemaps(inputs, h)
  {
    if inputs != [] {
      var n := |inputs| - 1;
      ReceiverRemapsComplete(inputs[..n], h);
      assert forall i | 0 <= i < n :: inputs[..n][i] == inputs[i];
    }
  }

  // ---------------------------------------------------------------------
  // The whole input stage

  ghost function InputElements(spec: ClusterLogForwarderSpec, types: set<string>, h: InputHelpers, src: RawSources): seq<Element>
    requires RoutedThrottleReady(spec, h)
  {
    ContainerRouting(types) + TypeRemaps(types, src) + AppRouteElements(spec, h) + ReceiverRemaps(spec.inputs, h)
  }

  lemma SourceThrottlesStep(keys: seq<string>, i: nat, ud: map<string, InputSpec>, h: InputHelpers)
    requires i < |keys|
    requires forall j | 0 <= j < |keys| :: ThrottleReady(keys[j], ud, h)
    ensures ThrottleReady(keys[i], ud, h)
    ensures SourceThrottles(keys[..i + 1], ud, h) == SourceThrottles(keys[..i], ud, h)
      + (if keys[i] in ud && Throttled(ud[keys[i]], h) then AddThrottle(ud[keys[i]]) else [])
  {
    assert keys[..i + 1][..i] == keys[..i];
  }

  lemma SortedKeysReady(rm: map<string, Expr>, keys: seq<string>, ud: map<string, InputSpec>, h: InputHelpers)
    requires Routable(rm, ud, h)
    requires keys == SortedListing(rm.Keys)
    ensures forall j | 0 <= j < |keys| :: ThrottleReady(keys[j], ud, h)
  {
  }

  /** The route over the user-defined application inputs and their source
      throttles, visiting the route map's keys in sorted order. */
  method RouteApplicationStage(userDefinedAppRouteMap: map<string, Expr>, userDefined: map<string, InputSpec>, h: InputHelpers)
    returns (el: seq<Element>)
    requires Routable(userDefinedAppRouteMap, userDefined, h)
    ensures el == RouteElementsOf(userDefinedAppRouteMap, userDefined, h)
  {
    el := [];
    if |userDefinedAppRouteMap| != 0 {
      var keys := SortedKeys(userDefinedAppRouteMap.Keys);
      SortedKeysReady(userDefinedAppRouteMap, keys, userDefined, h);
      var throttles := SourceThrottleStage(keys, userDefined, h);
      el := [Route(RouteApplicationLogs, [InputNameApplication], userDefinedAppRouteMap)] + throttles;
    }
  }

  /** The throttles of the sorted keys: one for each declared input whose
      policy passes the guard. */
  method SourceThrottleStage(keys: seq<string>, userDefined: map<string, InputSpec>, h: InputHelpers)
    returns (el: seq<Element>)
    requires forall j | 0 <= j < |keys| :: ThrottleReady(keys[j], userDefined, h)
    ensures el == SourceThrottles(keys, userDefined, h)
  {
    el := [];
    for i := 0 to |keys|
      invariant el == SourceThrottles(keys[..i], userDefined, h)
    {
      var inRef := keys[i];
      SourceThrottlesStep(keys, i, userDefined, h);
      if inRef in userDefined && h.hasPolicy(userDefined[inRef]) && h.maxRecordsPerSecond(userDefined[inRef]) > 0 {
        el := el + AddThrottle(userDefined[inRef]);
      }
    }
    assert keys[..|keys|] == keys;
  }

  /** The remaps of the receiver inputs, in declaration order. */
  method ReceiverStage(inputs: seq<InputSpec>, h: InputHelpers) returns (el: seq<Element>)
    ensures el == ReceiverRemaps(inputs, h)
  {
    el := [];
    for i := 0 to |inputs|
      invariant el == ReceiverRemaps(inputs[..i], h)
    {
      var input := inputs[i];
      ghost var before := el;
      if h.isAuditHttpReceiver(input) {
        el := el + [AuditReceiverRemap(input)];
      }
      if h.isSyslogReceiver(input) {
        el := el + [SyslogRemap];
      }
      assert el == before + ReceiverRemapsFor(input, h);
      assert inputs[..i + 1][..i] == inputs[..i];
    }
    assert inputs[..|inputs|] == inputs;
  }

  /** The route that splits container logs into application and
      infrastructure, when either type is wanted. */
  method ContainerStage(types: set<string>) returns (el: seq<Element>)
    ensures el == ContainerRouting(types)
  {
    el := [];
    if InputNameApplication in types || InputNameInfrastructure in types {
      var routes: map<string, Expr> := map[];
      if InputNameApplication in types {
        routes := routes["app" := AppContainerLogs];
      }
      if InputNameInfrastructure in types {
        routes := routes["infra" := InfraContainerLogs];
      }
      assert routes == ContainerRoutes(types);
      el := el + [Route(RouteContainerLogs, [InputContainerLogs], routes)];
    }
  }

  /** The remaps that tag the canonical types, appended to el. */
  method TypeStage(el: seq<Element>, types: set<string>, src: RawSources) returns (r: seq<Element>)
    ensures r == el + TypeRemaps(types, src)
  {
    r := el;
    if InputNameApplication in types {
      r := r + [CanonicalRemap(InputNameApplication, src)];
    }
    if InputNameInfrastructure in types {
      r := r + [CanonicalRemap(InputNameInfrastructure, src)];
    }
    if InputNameAudit in types {
      r := r + [CanonicalRemap(InputNameAudit, src)];
    }
  }

  /** The input stage: the gathered log types are an argument (GatherSources
      is not part of this model). */
  method Inputs(spec: ClusterLogForwarderSpec, types: set<string>, h: InputHelpers, src: RawSources)
    returns (el: seq<Element>)
    requires RoutedThrottleReady(spec, h)
    ensures el == InputElements(spec, types, h, src)
  {
    el := ContainerStage(types);
    el := TypeStage(el, types, src);

    var userDefinedAppRouteMap := UserDefinedAppRouting(spec, h);
    AppRoutesRoutable(spec, h);
    var routed := RouteApplicationStage(userDefinedAppRouteMap, InputMap(spec.inputs), h);
    el := el + routed;

    var received := ReceiverStage(spec.inputs, h);
    el := el + received;
  }

  // ---------------------------------------------------------------------
  // Properties of the whole input stage

  /** Some remap in el has id t. */
  predicate TagsType(el: seq<Element>, t: string)
  {
    exists e | e in el :: e.Remap? && e.id == t
  }

  /** Every remap in el with id t is the canonical one for t. */
  predicate TagsFaithfully(el: seq<Element>, t: string, src: RawSources)
  {
    forall e | e in el && e.Remap? && e.id == t :: e == CanonicalRemap(t, src)
  }

  /** Is t one of the three canonical log types? */
  predicate Canonical(t: string)
  {
    t == InputNameApplication || t == InputNameInfrastructure || t == InputNameAudit
  }

  lemma NoRemapsInRouteElements(rm: map<string, Expr>, ud: map<string, InputSpec>, h: InputHelpers)
    requires Routable(rm, ud, h)
    ensures forall e | e in RouteElementsOf(rm, ud, h) :: e.Route? || e.Throttle?
    ensures forall e | e in RouteElementsOf(rm, ud, h) && e.Route? :: e.id == RouteApplicationLogs
  {
    RouteElementsFacts(rm, ud, h);
    var el := RouteElementsOf(rm, ud, h);
    forall e | e in el ensures (e.Route? || e.Throttle?) && (e.Route? ==> e.id == RouteApplicationLogs) {
      var j :| 0 <= j < |el| && el[j] == e;
      if j >= 1 {
        var n :| n in rm && Throttled(ud[n], h) && el[j] == AddThrottle(ud[n])[0];
      }
    }
  }

  /** An id ending in "_input" is none of the canonical type names. */
  lemma AuditRemapNotCanonical(input: InputSpec)
    ensures AuditReceiverRemap(input).Remap? && !Canonical(AuditReceiverRemap(input).id)
  {
    var id := input.name + "_input";
    assert id[|id| - 1] == 't' && id[|id| - 2] == 'u';
    assert |id| >= 6;
  }

  /** A receiver remap never carries a canonical type's id. */
  lemma ReceiverIdsNotCanonical(inputs: seq<InputSpec>, h: InputHelpers)
    ensures forall e | e in ReceiverRemaps(inputs, h) :: e.Remap? && !Canonical(e.id)
  {
    ReceiverRemapsSound(inputs, h);
    forall e | e in ReceiverRemaps(inputs, h) ensures e.Remap? && !Canonical(e.id) {
      if e != SyslogRemap {
        var i :| 0 <= i < |inputs| && h.isAuditHttpReceiver(inputs[i]) && e == AuditReceiverRemap(inputs[i]);
        AuditRemapNotCanonical(inputs[i]);
      }
    }
  }

  /** No element of s is a remap with a canonical id. */
  predicate NoCanonicalRemaps(s: seq<Element>)
  {
    forall e | e in s && e.Remap? :: !Canonical(e.id)
  }

  /** At most one position of el holds a remap with id t. */
  predicate AtMostOneRemap(el: seq<Element>, t: string)
  {
    forall j1, j2 | 0 <= j1 < |el| && 0 <= j2 < |el| && el[j1].Remap? && el[j1].id == t && el[j2].Remap? && el[j2].id == t ::
      j1 == j2
  }

  lemma TaggingOfParts(a: seq<Element>, b: seq<Element>, c: seq<Element>, d: seq<Element>, t: string, src: RawSources)
    requires NoCanonicalRemaps(a) && NoCanonicalRemaps(c) && NoCanonicalRemaps(d)
    requires Canonical(t)
    ensures TagsType(a + b + c + d, t) <==> TagsType(b, t)
    ensures TagsFaithfully(b, t, src) ==> TagsFaithfully(a + b + c + d, t, src)
    ensures AtMostOneRemap(b, t) ==> AtMostOneRemap(a + b + c + d, t)
  {
    var x := a + b + c + d;
    assert forall j | 0 <= j < |x| && x[j].Remap? && x[j].id == t :: |a| <= j < |a| + |b| && x[j] == b[j - |a|];
    if TagsType(a + b + c + d, t) {
      var e :| e in a + b + c + d && e.Remap? && e.id == t;
      assert e in b;
    }
    if TagsType(b, t) {
      var e :| e in b && e.Remap? && e.id == t;
      assert e in a + b + c + d;
    }
  }

  lemma TypeRemapsTagging(types: set<string>, src: RawSources, t: string)
    requires Canonical(t)
    ensures TagsType(TypeRemaps(types, src), t) <==> t in types
    ensures TagsFaithfully(TypeRemaps(types, src), t, src)
    ensures AtMostOneRemap(TypeRemaps(types, src), t)
  {
    var tr := TypeRemaps(types, src);
    forall j1, j2 | 0 <= j1 < j2 < |tr| ensures tr[j1].id != tr[j2].id {
      var x := if InputNameApplication in types then [CanonicalRemap(InputNameApplication, src)] else [];
      var y := if InputNameInfrastructure in types then [CanonicalRemap(InputNameInfrastructure, src)] else [];
      var z := if InputNameAudit in types then [CanonicalRemap(InputNameAudit, src)] else [];
      assert tr == x + y + z;
    }
    assert forall e | e in tr :: e.Remap? && e.id in types && e == CanonicalRemap(e.id, src);
    if t in types {
      assert CanonicalRemap(t, src) in tr;
    }
  }

  /** Each canonical type is tagged by the stage exactly when it was
      gathered, only by its canonical remap, and by one element at most. */
  lemma TypeTagging(spec: ClusterLogForwarderSpec, types: set<string>, h: InputHelpers, src: RawSources, t: string)
    requires RoutedThrottleReady(spec, h)
    requires Canonical(t)
    ensures TagsType(InputElements(spec, types, h, src), t) <==> t in types
    ensures TagsFaithfully(InputElements(spec, types, h, src), t, src)
    ensures AtMostOneRemap(InputElements(spec, types, h, src), t)
  {
    AppRoutesRoutable(spec, h);
    NoRemapsInRouteElements(AppRoutes(spec, h), InputMap(spec.inputs), h);
    ReceiverIdsNotCanonical(spec.inputs, h);
    TypeRemapsTagging(types, src, t);
    TaggingOfParts(ContainerRouting(types), TypeRemaps(types, src), AppRouteElements(spec, h),
                   ReceiverRemaps(spec.inputs, h), t, src);
  }

  /** No element of s is the container route. */
  predicate NoContainerRoute(s: seq<Element>)
  {
    forall e | e in s && e.Route? :: e.id != RouteContainerLogs
  }

  lemma ContainerRouteOfParts(a: seq<Element>, b: seq<Element>, c: seq<Element>, d: seq<Element>)
    requires NoContainerRoute(b) && NoContainerRoute(c) && NoContainerRoute(d)
    ensures forall e | e in a + b + c + d && e.Route? && e.id == RouteContainerLogs :: e in a
    ensures forall e | e in a :: e in a + b + c + d
  {
  }

  /** route_container_logs is emitted exactly when application or
      infrastructure logs were gathered, and it routes the container logs
      with the app and infra branches. */
  lemma ContainerRouteEmitted(spec: ClusterLogForwarderSpec, types: set<string>, h: InputHelpers, src: RawSources)
    requires RoutedThrottleReady(spec, h)
    ensures var el := InputElements(spec, types, h, src);
      (exists e | e in el :: e.Route? && e.id == RouteContainerLogs) <==>
        InputNameApplication in types || InputNameInfrastructure in types
    ensures forall e | e in InputElements(spec, types, h, src) && e.Route? && e.id == RouteContainerLogs ::
      e == Route(RouteContainerLogs, [InputContainerLogs], ContainerRoutes(types))
  {
    AppRoutesRoutable(spec, h);
    NoRemapsInRouteElements(AppRoutes(spec, h), InputMap(spec.inputs), h);
    ReceiverIdsNotCanonical(spec.inputs, h);
    assert forall e | e in TypeRemaps(types, src) :: e.Remap?;
    var a := ContainerRouting(types);
    ContainerRouteOfParts(a, TypeRemaps(types, src), AppRouteElements(spec, h), ReceiverRemaps(spec.inputs, h));
    if InputNameApplication in types || InputNameInfrastructure in types {
      assert a[0] in a;
    }
  }
}
