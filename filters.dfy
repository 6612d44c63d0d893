/** Boolean match expressions over the fields of a container log record, as
    the vector generator composes them with its Eq, StartWith, Neg, Paren,
    AND and OR helpers. They are kept as syntax; Eval gives them the meaning
    the log-processing engine gives their rendered text. */
module Filters {
  import opened Optional

  /** The record paths a filter tests: the pod's namespace
      (.kubernetes.namespace_name) or one of its labels (.kubernetes.labels."k"). */
  datatype Field = Namespace | Label(key: string)

  /** What a filter can see of one container log record. */
  datatype Record = Record(namespace: string, labels: map<string, string>)

  datatype Expr =
    | Eq(field: Field, value: string)
    | StartsWith(field: Field, prefix: string)
    | Neg(operand: Expr)
    | Paren(inner: Expr)
    | And(conjuncts: seq<Expr>)
    | Or(disjuncts: seq<Expr>)
    | True

  /** The rendering of AND and OR with no operands belongs to a helper that is
      not part of this model; the truth value each of them takes is a parameter. */
  datatype EmptyRendering = EmptyRendering(emptyAnd: bool, emptyOr: bool)

  function Lookup(f: Field, r: Record): Option<string>
  {
    match f
    case Namespace => Some(r.namespace)
    case Label(k) => if k in r.labels then Some(r.labels[k]) else None
  }

  predicate Eval(e: Expr, r: Record, z: EmptyRendering)
    decreases e
  {
    match e
    case Eq(f, v) => Lookup(f, r) == Some(v)
    case StartsWith(f, p) => Lookup(f, r).Some? && p <= Lookup(f, r).value
    case Neg(x) => !Eval(x, r, z)
    case Paren(x) => Eval(x, r, z)
    case And(xs) => if |xs| == 0 then z.emptyAnd else forall i | 0 <= i < |xs| :: Eval(xs[i], r, z)
    case Or(xs) => if |xs| == 0 then z.emptyOr else exists i | 0 <= i < |xs| :: Eval(xs[i], r, z)
    case True => true
  }

  const NsKube := "kube"
  const NsOpenshift := "openshift"
  const NsDefault := "default"

  /** The fixed predicate that marks a container log as infrastructure. */
  const InfraContainerLogs := Or([
    StartsWith(Namespace, NsKube + "-"),
    StartsWith(Namespace, NsOpenshift + "-"),
    Eq(Namespace, NsDefault),
    Eq(Namespace, NsOpenshift),
    Eq(Namespace, NsKube)])

  /** Application container logs are all the others. */
  const AppContainerLogs := Neg(Paren(InfraContainerLogs))

  function MatchNS(ns: string): Expr
  {
    Eq(Namespace, ns)
  }

  function MatchLabel(k: string, v: string): Expr
  {
    Eq(Label(k), v)
  }

  /** A two-operand AND is the conjunction of its operands. */
  lemma EvalAndPair(a: Expr, b: Expr, r: Record, z: EmptyRendering)
    ensures Eval(And([a, b]), r, z) <==> Eval(a, r, z) && Eval(b, r, z)
  {
    var xs := [a, b];
    assert xs[0] == a && xs[1] == b;
    if Eval(a, r, z) && Eval(b, r, z) {
      assert forall i | 0 <= i < |xs| :: Eval(xs[i], r, z);
    }
  }

  /** A namespace match accepts exactly the records of that namespace. */
  lemma MatchNSMeaning(ns: string, r: Record, z: EmptyRendering)
    ensures Eval(MatchNS(ns), r, z) <==> r.namespace == ns
  {
  }

  /** A label match accepts exactly the records carrying that label with that
      value; a record without the label is not accepted. */
  lemma MatchLabelMeaning(k: string, v: string, r: Record, z: EmptyRendering)
    ensures Eval(MatchLabel(k, v), r, z) <==> k in r.labels && r.labels[k] == v
  {
  }

  /** The infrastructure namespaces, stated on the namespace string alone. */
  predicate IsInfraNamespace(ns: string)
  {
    "kube-" <= ns || "openshift-" <= ns || ns == "default" || ns == "openshift" || ns == "kube"
  }

  lemma InfraPredicateMeaning(r: Record, z: EmptyRendering)
    ensures Eval(InfraContainerLogs, r, z) <==> IsInfraNamespace(r.namespace)
  {
    var xs := InfraContainerLogs.disjuncts;
    assert Eval(xs[0], r, z) <==> "kube-" <= r.namespace;
    assert Eval(xs[1], r, z) <==> "openshift-" <= r.namespace;
    assert Eval(xs[2], r, z) <==> r.namespace == "default";
    assert Eval(xs[3], r, z) <==> r.namespace == "openshift";
    assert Eval(xs[4], r, z) <==> r.namespace == "kube";
  }

  /** Every namespace the infrastructure branch accepts starts with "kube" or
      "openshift", or is "default". */
  lemma InfraNamespaceShape(r: Record, z: EmptyRendering)
    requires Eval(InfraContainerLogs, r, z)
    ensures "kube" <= r.namespace || "openshift" <= r.namespace || r.namespace == "default"
  {
    InfraPredicateMeaning(r, z);
    var ns := r.namespace;
    if "kube-" <= ns {
      assert ns[..4] == "kube-"[..4] == "kube";
    } else if "openshift-" <= ns {
      assert ns[..9] == "openshift-"[..9] == "openshift";
    }
  }

  /** The application and infrastructure branches partition container logs:
      every record takes exactly one of them. */
  lemma AppInfraPartition(r: Record, z: EmptyRendering)
    ensures Eval(AppContainerLogs, r, z) <==> !Eval(InfraContainerLogs, r, z)
    ensures Eval(AppContainerLogs, r, z) <==> !IsInfraNamespace(r.namespace)
  {
    InfraPredicateMeaning(r, z);
  }
}
