/** The output stage of the vector generator (internal/generator/vector/outputs.go):
    the index from output names to the pipelines that feed them, an optional
    rate-limiting throttle in front of each sink, the dispatch to the eight
    per-destination builders, and the fixed metrics remap and Prometheus
    exporter at the end. */
module Outputs {
  import opened Optional
  import opened Elements
  import opened Forwarder

  const SinkTransformThrottle := "sink_throttle"
  /** The id template sink_throttle_<name>, as its fixed prefix. */
  const UserDefinedSinkThrottle := SinkTransformThrottle + "_"

  /** An output name to the names of the pipelines that reference it. */
  type RouteMap = map<string, set<string>>

  /** A Kubernetes secret, reduced to its data. */
  datatype Secret = Secret(data: map<string, string>)

  /** The helpers the stage reads but whose code is not part of this model:
      the output's rate-limit policy, the listing of a pipeline-name set and
      the merge of builder output into the element list. */
  datatype OutputHelpers = OutputHelpers(
    hasPolicy: OutputSpec -> bool,
    maxRecordsPerSecond: OutputSpec -> int,
    list: set<string> -> seq<string>,
    merge: (seq<Element>, seq<Element>) -> seq<Element>)

  /** The per-destination builders: output, sink inputs, secret. */
  type Builder = (OutputSpec, seq<string>, Option<Secret>) -> seq<Element>

  datatype Builders = Builders(
    kafka: Builder, loki: Builder, elasticsearch: Builder, cloudwatch: Builder,
    googleCloudLogging: Builder, splunk: Builder, http: Builder, syslog: Builder)

  /** Names defined outside the stage: the fallback secret's key, the metrics
      component ids and the exporter's listen address and port. */
  datatype MetricsNames = MetricsNames(
    logCollectorToken: string,
    internalMetricsSource: string,
    addNodenameTransform: string,
    prometheusSink: string,
    listenAddress: string,
    listenPort: string)

  // ---------------------------------------------------------------------
  // The inverse index from outputs to pipelines

  /** RouteMap.Insert: add v to the set under k, creating it if needed. */
  function Insert(r: RouteMap, k: string, v: string): RouteMap
  {
    r[k := (if k in r then r[k] else {}) + {v}]
  }

  /** Insert v under each of the keys, in order. */
  function InsertRefs(r: RouteMap, keys: seq<string>, v: string): RouteMap
  {
    if keys == [] then r
    else Insert(InsertRefs(r, keys[..|keys| - 1], v), keys[|keys| - 1], v)
  }

  function PipelineIndex(ps: seq<PipelineSpec>): RouteMap
  {
    if ps == [] then map[]
    else
      var last := ps[|ps| - 1];
      InsertRefs(PipelineIndex(ps[..|ps| - 1]), last.outputRefs, last.name)
  }

  lemma {:induction false} InsertRefsMeaning(r: RouteMap, keys: seq<string>, v: string, o: string, p: string)
    ensures o in InsertRefs(r, keys, v) <==> o in r || o in keys
    ensures (o in InsertRefs(r, keys, v) && p in InsertRefs(r, keys, v)[o]) <==>
      (o in r && p in r[o]) || (p == v && o in keys)
    decreases |keys|
  {
    if keys != [] {
      var init := keys[..|keys| - 1];
      InsertRefsMeaning(r, init, v, o, p);
      assert keys == init + [keys[|keys| - 1]];
    }
  }

  /** The index is exact: p is listed under o iff some pipeline named p
      references output o, and o is a key iff some pipeline references it. */
  lemma {:induction false} IndexExact(ps: seq<PipelineSpec>, o: string, p: string)
    ensures o in PipelineIndex(ps) <==> exists k | 0 <= k < |ps| :: o in ps[k].outputRefs
    ensures (o in PipelineIndex(ps) && p in PipelineIndex(ps)[o]) <==>
      exists k | 0 <= k < |ps| :: ps[k].name == p && o in ps[k].outputRefs
    decreases |ps|
  {
    if ps != [] {
      var n := |ps| - 1;
      var init := ps[..n];
      IndexExact(init, o, p);
      InsertRefsMeaning(PipelineIndex(init), ps[n].outputRefs, ps[n].name, o, p);
      assert forall k | 0 <= k < n :: init[k] == ps[k];
      if exists k | 0 <= k < |ps| :: o in ps[k].outputRefs {
        var k :| 0 <= k < |ps| && o in ps[k].outputRefs;
        if k < n {
          assert o in init[k].outputRefs;
        }
      }
      if exists k | 0 <= k < |ps| :: ps[k].name == p && o in ps[k].outputRefs {
        var k :| 0 <= k < |ps| && ps[k].name == p && o in ps[k].outputRefs;
        if k < n {
          assert init[k].name == p && o in init[k].outputRefs;
        }
      }
    }
  }

  method OutputFromPipelines(spec: ClusterLogForwarderSpec) returns (r: RouteMap)
    ensures r == PipelineIndex(spec.pipelines)
  {
    r := map[];
    for i := 0 to |spec.pipelines|
      invariant r == PipelineIndex(spec.pipelines[..i])
    {
      var p := spec.pipelines[i];
      ghost var before := r;
      for j := 0 to |p.outputRefs|
        invariant r == InsertRefs(before, p.outputRefs[..j], p.name)
      {
        var o := p.outputRefs[j];
        assert p.outputRefs[..j + 1][..j] == p.outputRefs[..j];
        r := r[o := (if o in r then r[o] else {}) + {p.name}];
      }
      assert p.outputRefs[..|p.outputRefs|] == p.outputRefs;
      assert spec.pipelines[..i + 1][..i] == spec.pipelines[..i];
    }
    assert spec.pipelines[..|spec.pipelines|] == spec.pipelines;
  }

  // ---------------------------------------------------------------------
  // Element constructors

  /** The sink throttle of an output; Go dereferences the output's limit, so
      the limit must be set. */
  function AddThrottleForSink(o: OutputSpec, inputs: seq<string>): (el: seq<Element>)
    requires o.limit.Some?
    ensures |el| == 1
    ensures el[0] == Throttle(UserDefinedSinkThrottle + o.name, inputs, o.limit.value.maxRecordsPerSecond, "")
  {
    [Throttle(UserDefinedSinkThrottle + o.name, inputs, o.limit.value.maxRecordsPerSecond, "")]
  }

  /** Distinct outputs get distinct sink throttle ids. */
  lemma {:induction false} SinkThrottleIdsInjective(a: string, b: string)
    ensures UserDefinedSinkThrottle + a == UserDefinedSinkThrottle + b ==> a == b
  {
    if UserDefinedSinkThrottle + a == UserDefinedSinkThrottle + b {
      var k := |UserDefinedSinkThrottle|;
      assert a == (UserDefinedSinkThrottle + a)[k..];
      assert b == (UserDefinedSinkThrottle + b)[k..];
    }
  }

  function PrometheusOutput(id: string, inputs: seq<string>, names: MetricsNames): (e: Element)
    ensures e.PrometheusExporter? && e.id == id && e.inputs == inputs
    ensures e.address == names.listenAddress + ":" + names.listenPort
  {
    PrometheusExporter(id, inputs, names.listenAddress + ":" + names.listenPort)
  }

  function AddNodeNameToMetric(id: string, inputs: seq<string>): (e: Element)
    ensures e.AddNodenameToMetric? && e.id == id && e.inputs == inputs
  {
    AddNodenameToMetric(id, inputs)
  }

  // ---------------------------------------------------------------------
  // The stage as a function of the forwarder

  /** The secret an output's sink uses: its own entry when its name is a key
      of the secrets (even a nil one), else the collector token's entry,
      else none. */
  function ResolveSecret(secrets: map<string, Option<Secret>>, name: string, token: string): (s: Option<Secret>)
    ensures name in secrets ==> s == secrets[name]
    ensures name !in secrets && token in secrets ==> s == secrets[token]
    ensures name !in secrets && token !in secrets ==> s == None
  {
    if name in secrets then secrets[name]
    else if token in secrets then secrets[token]
    else None
  }

  /** The builder of a destination type; none for a type outside the switch. */
  function Dispatch(b: Builders, t: OutputType): (r: Option<Builder>)
    ensures r.None? <==> t.Unrecognized?
  {
    match t
    case Kafka => Some(b.kafka)
    case Loki => Some(b.loki)
    case Elasticsearch => Some(b.elasticsearch)
    case Cloudwatch => Some(b.cloudwatch)
    case GoogleCloudLogging => Some(b.googleCloudLogging)
    case Splunk => Some(b.splunk)
    case Http => Some(b.http)
    case Syslog => Some(b.syslog)
    case Unrecognized(_) => None
  }

  predicate SinkThrottled(o: OutputSpec, h: OutputHelpers)
  {
    h.hasPolicy(o) && h.maxRecordsPerSecond(o) > 0
  }

  /** Every output whose throttle is built has a limit to read. */
  predicate ThrottledHaveLimits(outs: seq<OutputSpec>, h: OutputHelpers)
  {
    forall i | 0 <= i < |outs| :: SinkThrottled(outs[i], h) ==> outs[i].limit.Some?
  }

  /** The pipelines feeding an output, as listed; none when no pipeline
      references it. */
  function PipelineInputs(ofp: RouteMap, name: string, h: OutputHelpers): seq<string>
  {
    h.list(if name in ofp then ofp[name] else {})
  }

  /** The element list after processing output o on top of acc. */
  function Step(acc: seq<Element>, o: OutputSpec, ofp: RouteMap, secrets: map<string, Option<Secret>>,
                h: OutputHelpers, b: Builders, names: MetricsNames): seq<Element>
    requires SinkThrottled(o, h) ==> o.limit.Some?
  {
    var secret := ResolveSecret(secrets, o.name, names.logCollectorToken);
    var listed := PipelineInputs(ofp, o.name, h);
    var throttled := acc + (if SinkThrottled(o, h) then AddThrottleForSink(o, listed) else []);
    var inputs := if SinkThrottled(o, h) then [UserDefinedSinkThrottle + o.name] else listed;
    if !h.hasPolicy(o) || SinkThrottled(o, h) then
      match Dispatch(b, o.outputType)
      case Some(conf) => h.merge(throttled, conf(o, inputs, secret))
      case None => throttled
    else throttled
  }

  function Fold(outs: seq<OutputSpec>, ofp: RouteMap, secrets: map<string, Option<Secret>>,
                h: OutputHelpers, b: Builders, names: MetricsNames): seq<Element>
    requires ThrottledHaveLimits(outs, h)
  {
    if outs == [] then []
    else
      var n := |outs| - 1;
      assert forall i | 0 <= i < n :: outs[..n][i] == outs[i];
      Step(Fold(outs[..n], ofp, secrets, h, b, names), outs[n], ofp, secrets, h, b, names)
  }

  /** The two metrics elements every configuration ends with. */
  function MetricsTail(names: MetricsNames): seq<Element>
  {
    [AddNodeNameToMetric(names.addNodenameTransform, [names.internalMetricsSource]),
     PrometheusOutput(names.prometheusSink, [names.addNodenameTransform], names)]
  }

  function OutputElements(spec: ClusterLogForwarderSpec, secrets: map<string, Option<Secret>>,
                          h: OutputHelpers, b: Builders, names: MetricsNames): seq<Element>
    requires ThrottledHaveLimits(spec.outputs, h)
  {
    Fold(spec.outputs, PipelineIndex(spec.pipelines), secrets, h, b, names) + MetricsTail(names)
  }

  // ---------------------------------------------------------------------
  // The stage as the loop that builds it

  /** One pass of the loop over the outputs: resolve the secret, list the
      feeding pipelines, put the throttle in front when the policy applies,
      then append the sink of the output's type. */
  method OutputStep(outputs: seq<Element>, o: OutputSpec, ofp: RouteMap, secrets: map<string, Option<Secret>>,
                    h: OutputHelpers, b: Builders, names: MetricsNames) returns (r: seq<Element>)
    requires SinkThrottled(o, h) ==> o.limit.Some?
    ensures r == Step(outputs, o, ofp, secrets, h, b, names)
  {
    r := outputs;
    var secret: Option<Secret>;
    if o.name in secrets {
      secret := secrets[o.name];
    } else {
      secret := if names.logCollectorToken in secrets then secrets[names.logCollectorToken] else None;
    }
    assert secret == ResolveSecret(secrets, o.name, names.logCollectorToken);
    var inputs := h.list(if o.name in ofp then ofp[o.name] else {});
    assert inputs == PipelineInputs(ofp, o.name, h);
    if h.hasPolicy(o) && h.maxRecordsPerSecond(o) > 0 {
      r := r + AddThrottleForSink(o, inputs);
      inputs := [UserDefinedSinkThrottle + o.name];
    }
    ghost var throttled := r;
    assert throttled == outputs + (if SinkThrottled(o, h) then AddThrottleForSink(o, PipelineInputs(ofp, o.name, h)) else []);
    if !h.hasPolicy(o) || (h.hasPolicy(o) && h.maxRecordsPerSecond(o) > 0) {
      match o.outputType {
        case Kafka => r := h.merge(r, b.kafka(o, inputs, secret));
        case Loki => r := h.merge(r, b.loki(o, inputs, secret));
        case Elasticsearch => r := h.merge(r, b.elasticsearch(o, inputs, secret));
        case Cloudwatch => r := h.merge(r, b.cloudwatch(o, inputs, secret));
        case GoogleCloudLogging => r := h.merge(r, b.googleCloudLogging(o, inputs, secret));
        case Splunk => r := h.merge(r, b.splunk(o, inputs, secret));
        case Http => r := h.merge(r, b.http(o, inputs, secret));
        case Syslog => r := h.merge(r, b.syslog(o, inputs, secret));
        case Unrecognized(_) =>
      }
    }
    assert r == if !h.hasPolicy(o) || SinkThrottled(o, h) then
      match Dispatch(b, o.outputType)
      case Some(conf) => h.merge(throttled, conf(o, inputs, secret))
      case None => throttled
    else throttled;
  }

  method Outputs(spec: ClusterLogForwarderSpec, secrets: map<string, Option<Secret>>,
                 h: OutputHelpers, b: Builders, names: MetricsNames) returns (outputs: seq<Element>)
    requires ThrottledHaveLimits(spec.outputs, h)
    ensures outputs == OutputElements(spec, secrets, h, b, names)
  {
    outputs := [];
    var ofp := OutputFromPipelines(spec);
    for idx := 0 to |spec.outputs|
      invariant outputs == Fold(spec.outputs[..idx], ofp, secrets, h, b, names)
    {
      outputs := OutputStep(outputs, spec.outputs[idx], ofp, secrets, h, b, names);
      assert spec.outputs[..idx + 1][..idx] == spec.outputs[..idx];
    }
    assert spec.outputs[..|spec.outputs|] == spec.outputs;
    outputs := outputs + [
      AddNodeNameToMetric(names.addNodenameTransform, [names.internalMetricsSource]),
      PrometheusOutput(names.prometheusSink, [names.addNodenameTransform], names)];
  }

  // ---------------------------------------------------------------------
  // Properties

  /** The stage always ends with the node-name metrics remap reading the
      internal metrics, then the Prometheus exporter reading that remap; with
      no outputs they are all there is. */
  lemma MetricsLast(spec: ClusterLogForwarderSpec, secrets: map<string, Option<Secret>>,
                    h: OutputHelpers, b: Builders, names: MetricsNames)
    requires ThrottledHaveLimits(spec.outputs, h)
    ensures var el := OutputElements(spec, secrets, h, b, names);
      && |el| >= 2
      && el[|el| - 2] == AddNodenameToMetric(names.addNodenameTransform, [names.internalMetricsSource])
      && el[|el| - 1] == PrometheusExporter(names.prometheusSink, [names.addNodenameTransform],
                                            names.listenAddress + ":" + names.listenPort)
    ensures spec.outputs == [] ==> OutputElements(spec, secrets, h, b, names) == MetricsTail(names)
  {
  }

  /** MergeElements behaving as plain concatenation. */
  ghost predicate MergeAppends(h: OutputHelpers)
  {
    forall a: seq<Element>, c: seq<Element> :: h.merge(a, c) == a + c
  }

  /** What one output contributes on its own. */
  function Segment(o: OutputSpec, ofp: RouteMap, secrets: map<string, Option<Secret>>,
                   h: OutputHelpers, b: Builders, names: MetricsNames): seq<Element>
    requires SinkThrottled(o, h) ==> o.limit.Some?
  {
    Step([], o, ofp, secrets, h, b, names)
  }

  /** The contribution of each output, position by position. */
  function Contributions(outs: seq<OutputSpec>, ofp: RouteMap, secrets: map<string, Option<Secret>>,
                         h: OutputHelpers, b: Builders, names: MetricsNames): (r: seq<seq<Element>>)
    requires ThrottledHaveLimits(outs, h)
    ensures |r| == |outs|
    ensures forall i | 0 <= i < |outs| :: r[i] == Segment(outs[i], ofp, secrets, h, b, names)
  {
    seq(|outs|, i requires 0 <= i < |outs| => Segment(outs[i], ofp, secrets, h, b, names))
  }

  function Flatten(ss: seq<seq<Element>>): seq<Element>
  {
    if ss == [] then [] else Flatten(ss[..|ss| - 1]) + ss[|ss| - 1]
  }

  lemma {:induction false} FlattenAppend(x: seq<seq<Element>>, y: seq<seq<Element>>)
    ensures Flatten(x + y) == Flatten(x) + Flatten(y)
    decreases |y|
  {
    if y == [] {
      assert x + y == x;
    } else {
      var m := |y| - 1;
      FlattenAppend(x, y[..m]);
      assert (x + y)[..|x + y| - 1] == x + y[..m];
      assert (x + y)[|x + y| - 1] == y[m];
      assert (Flatten(x) + Flatten(y[..m])) + y[m] == Flatten(x) + (Flatten(y[..m]) + y[m]);
    }
  }

  lemma StepAppends(acc: seq<Element>, o: OutputSpec, ofp: RouteMap, secrets: map<string, Option<Secret>>,
                    h: OutputHelpers, b: Builders, names: MetricsNames)
    requires SinkThrottled(o, h) ==> o.limit.Some?
    requires MergeAppends(h)
    ensures Step(acc, o, ofp, secrets, h, b, names) == acc + Segment(o, ofp, secrets, h, b, names)
  {
    var secret := ResolveSecret(secrets, o.name, names.logCollectorToken);
    var listed := PipelineInputs(ofp, o.name, h);
    var extra := if SinkThrottled(o, h) then AddThrottleForSink(o, listed) else [];
    var inputs := if SinkThrottled(o, h) then [UserDefinedSinkThrottle + o.name] else listed;
    if (!h.hasPolicy(o) || SinkThrottled(o, h)) && Dispatch(b, o.outputType).Some? {
      var conf := Dispatch(b, o.outputType).value;
      assert h.merge(acc + extra, conf(o, inputs, secret)) == acc + extra + conf(o, inputs, secret);
      assert h.merge([] + extra, conf(o, inputs, secret)) == [] + extra + conf(o, inputs, secret);
      assert [] + extra == extra;
    }
  }

  /** With MergeElements appending, the stage is the concatenation of the
      outputs' contributions in declaration order. */
  lemma {:induction false} FoldIsConcatenation(outs: seq<OutputSpec>, ofp: RouteMap, secrets: map<string, Option<Secret>>,
                                               h: OutputHelpers, b: Builders, names: MetricsNames)
    requires ThrottledHaveLimits(outs, h)
    requires MergeAppends(h)
    ensures Fold(outs, ofp, secrets, h, b, names) == Flatten(Contributions(outs, ofp, secrets, h, b, names))
    decreases |outs|
  {
    if outs != [] {
      var n := |outs| - 1;
      ContributionsPrefix(outs, ofp, secrets, h, b, names);
      FoldIsConcatenation(outs[..n], ofp, secrets, h, b, names);
      StepAppends(Fold(outs[..n], ofp, secrets, h, b, names), outs[n], ofp, secrets, h, b, names);
    }
  }

  lemma ContributionsPrefix(outs: seq<OutputSpec>, ofp: RouteMap, secrets: map<string, Option<Secret>>,
                            h: OutputHelpers, b: Builders, names: MetricsNames)
    requires ThrottledHaveLimits(outs, h) && outs != []
    ensures ThrottledHaveLimits(outs[..|outs| - 1], h)
    ensures Flatten(Contributions(outs, ofp, secrets, h, b, names)) ==
      Flatten(Contributions(outs[..|outs| - 1], ofp, secrets, h, b, names)) + Segment(outs[|outs| - 1], ofp, secrets, h, b, names)
  {
    var n := |outs| - 1;
    assert forall i | 0 <= i < n :: outs[..n][i] == outs[i];
    var cs := Contributions(outs, ofp, secrets, h, b, names);
    assert cs[..n] == Contributions(outs[..n], ofp, secrets, h, b, names);
  }

  /** The contributions of the outputs a + c are those of a followed by those
      of c. */
  lemma ContributionsAppend(a: seq<OutputSpec>, c: seq<OutputSpec>, ofp: RouteMap,
                            secrets: map<string, Option<Secret>>,
                            h: OutputHelpers, b: Builders, names: MetricsNames)
    requires ThrottledHaveLimits(a, h) && ThrottledHaveLimits(c, h)
    ensures ThrottledHaveLimits(a + c, h)
    ensures Flatten(Contributions(a + c, ofp, secrets, h, b, names)) ==
      Flatten(Contributions(a, ofp, secrets, h, b, names)) + Flatten(Contributions(c, ofp, secrets, h, b, names))
  {
    assert forall k | 0 <= k < |a + c| :: (a + c)[k] == if k < |a| then a[k] else c[k - |a|];
    assert Contributions(a + c, ofp, secrets, h, b, names) ==
      Contributions(a, ofp, secrets, h, b, names) + Contributions(c, ofp, secrets, h, b, names);
    FlattenAppend(Contributions(a, ofp, secrets, h, b, names), Contributions(c, ofp, secrets, h, b, names));
  }

  /** One output's contribution: a sink throttle over the listed pipelines when
      the policy passes the guard, with the sink then reading only that
      throttle; the sink alone, over the listed pipelines, without a policy;
      nothing for a policy whose threshold is zero or negative; and no sink
      for a type outside the switch. */
  lemma SegmentShape(o: OutputSpec, ofp: RouteMap, secrets: map<string, Option<Secret>>,
                     h: OutputHelpers, b: Builders, names: MetricsNames)
    requires SinkThrottled(o, h) ==> o.limit.Some?
    requires MergeAppends(h)
    ensures var seg := Segment(o, ofp, secrets, h, b, names);
      var secret := ResolveSecret(secrets, o.name, names.logCollectorToken);
      var sink := Dispatch(b, o.outputType);
      && (SinkThrottled(o, h) ==>
            seg == [Throttle(UserDefinedSinkThrottle + o.name, PipelineInputs(ofp, o.name, h),
                             o.limit.value.maxRecordsPerSecond, "")]
                   + (if sink.Some? then sink.value(o, [UserDefinedSinkThrottle + o.name], secret) else []))
      && (!h.hasPolicy(o) ==>
            seg == if sink.Some? then sink.value(o, PipelineInputs(ofp, o.name, h), secret) else [])
      && (h.hasPolicy(o) && h.maxRecordsPerSecond(o) <= 0 ==> seg == [])
  {
    var secret := ResolveSecret(secrets, o.name, names.logCollectorToken);
    var sink := Dispatch(b, o.outputType);
    if sink.Some? {
      var listed := PipelineInputs(ofp, o.name, h);
      var extra := if SinkThrottled(o, h) then AddThrottleForSink(o, listed) else [];
      var inputs := if SinkThrottled(o, h) then [UserDefinedSinkThrottle + o.name] else listed;
      assert h.merge([] + extra, sink.value(o, inputs, secret)) == [] + extra + sink.value(o, inputs, secret);
      assert [] + extra == extra;
    }
  }

  /** The policy helper reads the threshold from the output's limit, the
      field AddThrottleForSink copies into the throttle. */
  ghost predicate OutputPolicyReadsLimit(h: OutputHelpers)
  {
    forall o: OutputSpec | o.limit.Some? :: h.maxRecordsPerSecond(o) == o.limit.value.maxRecordsPerSecond
  }

  /** A sink throttle is never built with a zero or negative threshold: when
      the guard passes, the output's contribution starts with its throttle,
      whose threshold is positive. */
  lemma SinkThrottleThresholdPositive(o: OutputSpec, ofp: RouteMap, secrets: map<string, Option<Secret>>,
                                      h: OutputHelpers, b: Builders, names: MetricsNames)
    requires OutputPolicyReadsLimit(h)
    requires SinkThrottled(o, h) && o.limit.Some?
    requires MergeAppends(h)
    ensures var seg := Segment(o, ofp, secrets, h, b, names);
      |seg| > 0 && seg[0].Throttle? && seg[0].id == UserDefinedSinkThrottle + o.name && seg[0].threshold > 0
  {
    SegmentShape(o, ofp, secrets, h, b, names);
  }

  /** An output outside the switch contributes only its throttle, if any. */
  lemma UnrecognizedTypeNoSink(o: OutputSpec, ofp: RouteMap, secrets: map<string, Option<Secret>>,
                               h: OutputHelpers, b: Builders, names: MetricsNames)
    requires SinkThrottled(o, h) ==> o.limit.Some?
    requires o.outputType.Unrecognized?
    ensures Segment(o, ofp, secrets, h, b, names) ==
      if SinkThrottled(o, h) then AddThrottleForSink(o, PipelineInputs(ofp, o.name, h)) else []
  {
  }

  /** The listing helper returns exactly the elements of its set. */
  ghost predicate ListsElements(h: OutputHelpers)
  {
    forall s: set<string> :: (set x | x in h.list(s)) == s
  }

  /** With a faithful listing, a sink throttle reads exactly the pipelines
      that reference its output. */
  lemma SinkThrottleReadsReferencingPipelines(spec: ClusterLogForwarderSpec, o: OutputSpec, h: OutputHelpers, p: string)
    requires ListsElements(h)
    ensures p in PipelineInputs(PipelineIndex(spec.pipelines), o.name, h) <==>
      exists k | 0 <= k < |spec.pipelines| :: spec.pipelines[k].name == p && o.name in spec.pipelines[k].outputRefs
  {
    var ofp := PipelineIndex(spec.pipelines);
    IndexExact(spec.pipelines, o.name, p);
    var s := if o.name in ofp then ofp[o.name] else {};
    assert (set x | x in h.list(s)) == s;
    assert p in h.list(s) <==> p in (set x | x in h.list(s));
    assert PipelineInputs(ofp, o.name, h) == h.list(s);
    assert p in s <==> (o.name in ofp && p in ofp[o.name]);
  }
}
