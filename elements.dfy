/** The compiled configuration elements both stages emit. Each carries a
    component id and the ids (or raw source names) it reads from. */
module Elements {
  import opened Filters

  /** The steps of a remap's VRL program. Only the log-type assignment is
      modelled by its content; the hostname and timestamp fixes are named. */
  datatype VrlStep = SetLogType(logType: string) | FixHostname | FixTimestampField

  datatype Element =
    | Route(id: string, inputs: seq<string>, routes: map<string, Expr>)
    | Remap(id: string, inputs: seq<string>, desc: string, vrl: seq<VrlStep>)
    | Throttle(id: string, inputs: seq<string>, threshold: int, keyField: string)
      /** What a per-destination builder emits; its payload is opaque here. */
    | Sink(id: string, inputs: seq<string>, payload: string)
    | AddNodenameToMetric(id: string, inputs: seq<string>)
    | PrometheusExporter(id: string, inputs: seq<string>, address: string)
}
