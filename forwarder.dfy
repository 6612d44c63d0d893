/** The ClusterLogForwarder specification as the compiler reads it: inputs,
    outputs and the pipelines that connect them, with the receiver union of
    apis/logging/v1/input_receiver_types.go. Go's "one of several optional
    fields" unions are sum types here. */
module Forwarder {
  import opened Optional

  /** The canonical log types. */
  const InputNameApplication := "application"
  const InputNameInfrastructure := "infrastructure"
  const InputNameAudit := "audit"

  /** Receiver type and format constants. */
  const ReceiverTypeHttp := "http"
  const ReceiverTypeSyslog := "syslog"
  const FormatKubeAPIAudit := "kubeAPIAudit"

  datatype LimitSpec = LimitSpec(maxRecordsPerSecond: int)

  datatype InclusionSpec = InclusionSpec(included: seq<string>, excluded: seq<string>)

  datatype LabelSelectorRequirement =
    LabelSelectorRequirement(key: string, operator: string, values: seq<string>)

  datatype LabelSelector =
    LabelSelector(matchLabels: map<string, string>, matchExpressions: seq<LabelSelectorRequirement>)

  datatype Application = Application(
    namespaces: seq<string>,
    excludeNamespaces: seq<string>,
    containers: Option<InclusionSpec>,
    selector: Option<LabelSelector>,
    containerLimit: Option<LimitSpec>,
    groupLimit: Option<LimitSpec>)

  datatype HTTPReceiver = HTTPReceiver(port: int, format: string)
  datatype SyslogReceiver = SyslogReceiver(port: int, protocol: string)
  datatype ReceiverTypeSpec = ReceiverTypeSpec(http: Option<HTTPReceiver>, syslog: Option<SyslogReceiver>)
  datatype ReceiverSpec = ReceiverSpec(receiverType: string, typeSpec: Option<ReceiverTypeSpec>)

  datatype InputKind =
    | ApplicationInput(application: Application)
    | InfrastructureInput(infrastructureSources: seq<string>)
    | AuditInput(auditSources: seq<string>)
    | ReceiverInput(receiver: ReceiverSpec)

  datatype InputSpec = InputSpec(name: string, kind: InputKind)

  /** The eight destination families of the dispatch switch, and every other
      type string. */
  datatype OutputType =
    | Kafka | Loki | Elasticsearch | Cloudwatch | GoogleCloudLogging | Splunk | Http | Syslog
    | Unrecognized(tag: string)

  datatype OutputSpec = OutputSpec(name: string, outputType: OutputType, url: string, limit: Option<LimitSpec>)

  datatype PipelineSpec =
    PipelineSpec(name: string, inputRefs: seq<string>, outputRefs: seq<string>, labels: map<string, string>)

  datatype ClusterLogForwarderSpec =
    ClusterLogForwarderSpec(inputs: seq<InputSpec>, outputs: seq<OutputSpec>, pipelines: seq<PipelineSpec>)

  /** The declared inputs by name; a later declaration of a name replaces an
      earlier one. */
  function InputMap(inputs: seq<InputSpec>): (m: map<string, InputSpec>)
    ensures forall n :: n in m <==> exists i | 0 <= i < |inputs| :: inputs[i].name == n
    ensures forall n | n in m :: m[n].name == n && m[n] in inputs
  {
    if inputs == [] then map[]
    else
      var m := InputMap(inputs[..|inputs| - 1]);
      var last := inputs[|inputs| - 1];
      assert forall i | 0 <= i < |inputs| - 1 :: inputs[..|inputs| - 1][i] == inputs[i];
      m[last.name := last]
  }
}
